/** The names under which Redis state is kept. */
module Keys {
  import opened Strings
  import opened Decimal

  /** The counter of one rule for one subject in one window. */
  function RateLimit(policy: string, scope: string, subject: string, window: nat): string {
    "rl:" + policy + ":" + scope + ":" + subject + ":" + Digits(window)
  }

  function ActorName(actorId: string): string {
    if actorId == "" then "guest" else actorId
  }

  /** The cell holding the response stored for one actor's idempotency key. */
  function Idempotency(actorId: string, key: string): string {
    "idem:" + ActorName(actorId) + ":" + key
  }

  lemma CutFirst(a: string, x: string, b: string, y: string, c: char)
    requires Lacks(a, c) && Lacks(b, c) && a + [c] + x == b + [c] + y
    ensures a == b && x == y
  {
    var s := a + [c] + x;
    assert s == a + ([c] + x) && s == b + ([c] + y);
    IndexOfAfter(a, c, [c] + x);
    IndexOfAfter(b, c, [c] + y);
    assert s[..|a|] == a && s[..|b|] == b && s[|a| + 1..] == x && s[|b| + 1..] == y;
  }

  lemma CutLast(a: string, x: string, b: string, y: string, c: char)
    requires Lacks(x, c) && Lacks(y, c) && a + [c] + x == b + [c] + y
    ensures a == b && x == y
  {
    var s := a + [c] + x;
    assert s == b + [c] + y && s[|a|] == c && s[|b|] == c;
    assert forall i :: |a| < i < |s| ==> s[i] == x[i - |a| - 1];
    assert forall i :: |b| < i < |s| ==> s[i] == y[i - |b| - 1];
    assert s[..|a|] == a && s[..|b|] == b && s[|a| + 1..] == x && s[|b| + 1..] == y;
  }

  /**
    Two counters share a key only when scope, subject and window all agree, even though a
    subject may contain colons of its own.
   */
  lemma RateLimitInjective(policy: string, scope: string, subject: string, window: nat,
                           scope': string, subject': string, window': nat)
    requires Lacks(scope, ':') && Lacks(scope', ':')
    requires RateLimit(policy, scope, subject, window) == RateLimit(policy, scope', subject', window')
    ensures scope == scope' && subject == subject' && window == window'
  {
    var head := "rl:" + policy + ":";
    var left, right := scope + ":" + subject, scope' + ":" + subject';
    var k, k' := RateLimit(policy, scope, subject, window), RateLimit(policy, scope', subject', window');
    assert k == (head + left) + ":" + Digits(window) && k' == (head + right) + ":" + Digits(window');
    assert Lacks(Digits(window), ':') && Lacks(Digits(window'), ':');
    CutLast(head + left, Digits(window), head + right, Digits(window'), ':');
    assert (head + left)[|head|..] == left && (head + right)[|head|..] == right;
    CutFirst(scope, subject, scope', subject', ':');
    DigitsInjective(window, window');
  }

  /** Counters and stored responses never share a key. */
  lemma NamespacesDisjoint(policy: string, scope: string, subject: string, window: nat, actorId: string, key: string)
    ensures RateLimit(policy, scope, subject, window) != Idempotency(actorId, key)
  {
    assert RateLimit(policy, scope, subject, window)[0] == 'r';
    assert Idempotency(actorId, key)[0] == 'i';
  }

  /** One actor's keys never collide with one another. */
  lemma OwnKeysDistinct(actorId: string, key: string, key': string)
    requires Idempotency(actorId, key) == Idempotency(actorId, key')
    ensures key == key'
  {
    var head := "idem:" + ActorName(actorId) + ":";
    assert Idempotency(actorId, key)[|head|..] == key && Idempotency(actorId, key')[|head|..] == key';
  }

  /**
    Two actors can reach the same cell exactly when one name, with its colon, begins the other.
    Identifiers without a colon therefore never do; an empty one is the actor called "guest".
   */
  lemma ActorsShareCellIff(a: string, b: string)
    ensures (exists k, k' :: Idempotency(a, k) == Idempotency(b, k')) <==>
      ActorName(a) + ":" <= ActorName(b) + ":" || ActorName(b) + ":" <= ActorName(a) + ":"
  {
    var x, y := ActorName(a) + ":", ActorName(b) + ":";
    if k, k' :| Idempotency(a, k) == Idempotency(b, k') {
      NamesNest(a, k, b, k');
    }
    if x <= y {
      KeyReaches(a, b);
    } else if y <= x {
      KeyReaches(b, a);
    }
  }

  lemma NamesNest(a: string, k: string, b: string, k': string)
    requires Idempotency(a, k) == Idempotency(b, k')
    ensures ActorName(a) + ":" <= ActorName(b) + ":" || ActorName(b) + ":" <= ActorName(a) + ":"
  {
    var s := Idempotency(a, k)[5..];
    var x, y := ActorName(a) + ":", ActorName(b) + ":";
    assert s == x + k && s == y + k';
    assert s[..|x|] == x && s[..|y|] == y;
    if |x| <= |y| {
      assert y[..|x|] == x;
    } else {
      assert x[..|y|] == y;
    }
  }

  lemma KeyReaches(a: string, b: string)
    requires ActorName(a) + ":" <= ActorName(b) + ":"
    ensures exists k :: Idempotency(a, k) == Idempotency(b, "")
  {
    var x, y := ActorName(a) + ":", ActorName(b) + ":";
    var k := y[|x|..];
    assert x + k == y;
    assert Idempotency(a, k) == "idem:" + (x + k) && Idempotency(b, "") == "idem:" + y;
  }

  lemma ColonFreeActorsApart(a: string, b: string, k: string, k': string)
    requires Lacks(ActorName(a), ':') && Lacks(ActorName(b), ':') && Idempotency(a, k) == Idempotency(b, k')
    ensures ActorName(a) == ActorName(b) && k == k'
  {
    assert Idempotency(a, k)[5..] == ActorName(a) + ":" + k;
    assert Idempotency(b, k')[5..] == ActorName(b) + ":" + k';
    CutFirst(ActorName(a), k, ActorName(b), k', ':');
  }

  /** The names as they stand in Redis. */
  lemma NamesInFull(policy: string, scope: string, subject: string, window: nat, actorId: string, key: string)
    ensures RateLimit("rl", "ip", "10.0.0.1", 7) == "rl:rl:ip:10.0.0.1:7"
    ensures Idempotency("u1", "k1") == "idem:u1:k1" && Idempotency("", "k1") == "idem:guest:k1"
  {
    assert "idem:" + "u1" + ":" + "k1" == "idem:u1:k1";
    assert "idem:" + "guest" + ":" + "k1" == "idem:guest:k1";
  }
}
