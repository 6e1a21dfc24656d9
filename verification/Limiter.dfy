/**
  The fixed-window rate limiter: rules, the Redis script that counts, and what a sequence of
  requests is allowed. Times are Unix milliseconds, windows are nanoseconds.
 */
module Limiter {
  import opened Wrappers
  import opened Strings
  import opened Int64
  import Keys

  const MILLISECOND: int := 1_000_000

  datatype Scope = PerIP | PerActor | PerSubject | OtherScope(name: string)

  function ScopeName(s: Scope): string {
    match s
    case PerIP => "ip"
    case PerActor => "actor"
    case PerSubject => "subject"
    case OtherScope(name) => name
  }

  datatype Rule = Rule(scope: Scope, limit: int, window: int)

  datatype RuleError = UnknownScope | LimitNotPositive | WindowNotPositive

  function Validate(r: Rule): Option<RuleError> {
    match r.scope
    case OtherScope(_) => Some(UnknownScope)
    case _ =>
      if r.limit <= 0 then Some(LimitNotPositive)
      else if r.window <= 0 then Some(WindowNotPositive)
      else None
  }

  /** A rule passes exactly with a known scope, a positive limit and a positive window. */
  lemma ValidateIff(r: Rule)
    ensures Validate(r).None? <==> !r.scope.OtherScope? && r.limit >= 1 && r.window >= 1
    ensures Validate(r) == Some(UnknownScope) <==> r.scope.OtherScope?
    ensures Validate(r) == Some(LimitNotPositive) <==> !r.scope.OtherScope? && r.limit < 1
  {
  }

  // ----- the server

  datatype Counter = Counter(count: nat, expires: Option<nat>)

  type Counters = map<string, Counter>

  predicate Present(m: Counters, key: string, now: nat) {
    key in m && (m[key].expires.Some? ==> now < m[key].expires.value)
  }

  function CountOf(m: Counters, key: string, now: nat): nat {
    if Present(m, key, now) then m[key].count else 0
  }

  function Incremented(m: Counters, key: string, now: nat): Counters {
    m[key := Counter(CountOf(m, key, now) + 1, if Present(m, key, now) then m[key].expires else None)]
  }

  function Expiring(m: Counters, key: string, ms: nat, now: nat): Counters {
    if Present(m, key, now) then m[key := m[key].(expires := Some(now + ms))] else m
  }

  /** The script as a whole. */
  function Counted(m: Counters, key: string, ms: nat, now: nat): Counters {
    var up := Incremented(m, key, now);
    if up[key].count == 1 then Expiring(up, key, ms, now) else up
  }

  /** PTTL: -2 for no key, -1 for no expiry. */
  function TimeLeft(m: Counters, key: string, now: nat): int {
    if !Present(m, key, now) then -2 else if m[key].expires.None? then -1 else m[key].expires.value - now
  }

  class Server {
    var counters: Counters

    constructor ()
      ensures counters == map[]
    {
      counters := map[];
    }

    method Incr(key: string, now: nat) returns (count: nat)
      modifies this
      ensures counters == Incremented(old(counters), key, now)
      ensures count == CountOf(old(counters), key, now) + 1
    {
      if key in counters && (counters[key].expires.None? || now < counters[key].expires.value) {
        count := counters[key].count + 1;
        counters := counters[key := counters[key].(count := count)];
      } else {
        count := 1;
        counters := counters[key := Counter(1, None)];
      }
    }

    method PExpire(key: string, ms: nat, now: nat)
      modifies this
      ensures counters == Expiring(old(counters), key, ms, now)
    {
      if key in counters && (counters[key].expires.None? || now < counters[key].expires.value) {
        counters := counters[key := counters[key].(expires := Some(now + ms))];
      }
    }

    method PTTL(key: string, now: nat) returns (ms: int)
      ensures ms == TimeLeft(counters, key, now)
    {
      if key !in counters || (counters[key].expires.Some? && counters[key].expires.value <= now) {
        return -2;
      }
      if counters[key].expires.None? {
        return -1;
      }
      return counters[key].expires.value - now;
    }

    method FixedWindow(key: string, ms: nat, now: nat) returns (current: nat, ttl: int)
      modifies this
      ensures counters == Counted(old(counters), key, ms, now)
      ensures current == CountOf(old(counters), key, now) + 1
      ensures ttl == TimeLeft(counters, key, now)
    {
      current := Incr(key, now);
      if current == 1 {
        PExpire(key, ms, now);
      }
      ttl := PTTL(key, now);
    }
  }

  // ----- Allow

  datatype Answer = Answer(allowed: bool, limit: int, remaining: int, retryAfter: int, rule: Rule)

  /** A window under a millisecond passes validation and then divides by zero. */
  datatype Outcome = Answered(answer: Answer) | Rejected(error: RuleError) | DividesByZero

  function WindowMs(r: Rule): int {
    if r.window < 0 then 0 - (0 - r.window) / MILLISECOND else r.window / MILLISECOND
  }

  /** A window counts in whole milliseconds, a rest being dropped towards zero. */
  lemma WholeMilliseconds(r: Rule, ms: nat, rest: nat)
    requires rest < 1_000_000
    ensures r.window == ms * 1_000_000 + rest ==> WindowMs(r) == ms
    ensures r.window == 0 - (ms * 1_000_000 + rest) ==> WindowMs(r) == 0 - ms
  {
  }

  function KeyFor(r: Rule, subject: string, now: nat): string
    requires WindowMs(r) > 0
  {
    Keys.RateLimit("rl", ScopeName(r.scope), subject, now / WindowMs(r))
  }

  function AllowOn(m: Counters, r: Rule, subject: string, now: nat): (Counters, Outcome) {
    if Validate(r).Some? then (m, Rejected(Validate(r).value))
    else if WindowMs(r) <= 0 then (m, DividesByZero)
    else
      var key := KeyFor(r, subject, now);
      var count := CountOf(m, key, now) + 1;
      var after := Counted(m, key, WindowMs(r), now);
      var ttl := TimeLeft(after, key, now);
      (after, Answered(Answer(count <= r.limit, r.limit, if r.limit - count < 0 then 0 else r.limit - count,
                              if ttl * MILLISECOND <= 0 then r.window else ttl * MILLISECOND, r)))
  }

  method Allow(server: Server, r: Rule, subject: string, now: nat) returns (outcome: Outcome)
    modifies server
    ensures (server.counters, outcome) == AllowOn(old(server.counters), r, subject, now)
  {
    hide Keys.RateLimit, CountOf, Counted, TimeLeft;
    var invalid := Validate(r);
    if invalid.Some? {
      return Rejected(invalid.value);
    }
    var ms := WindowMs(r);
    if ms == 0 {
      return DividesByZero;
    }
    var key := Keys.RateLimit("rl", ScopeName(r.scope), subject, now / ms);
    var count, ttl := server.FixedWindow(key, ms, now);
    var retryAfter := ttl * MILLISECOND;
    if retryAfter <= 0 {
      retryAfter := r.window;
    }
    var remaining := r.limit - count;
    if remaining < 0 {
      remaining := 0;
    }
    return Answered(Answer(count <= r.limit, r.limit, remaining, retryAfter, r));
  }

  lemma PanicsIff(m: Counters, r: Rule, subject: string, now: nat)
    ensures AllowOn(m, r, subject, now).1.DividesByZero? <==>
      r.limit > 0 && !r.scope.OtherScope? && 0 < r.window < MILLISECOND
  {
  }

  // ----- sequences of requests

  datatype Request = Request(at: nat, rule: Rule, subject: string)

  predicate Usable(q: Request) {
    Validate(q.rule).None? && WindowMs(q.rule) > 0
  }

  predicate AllUsable(qs: seq<Request>) {
    forall i :: 0 <= i < |qs| ==> Usable(qs[i])
  }

  function After(qs: seq<Request>): Counters {
    if qs == [] then map[]
    else
      var q := qs[|qs| - 1];
      AllowOn(After(qs[..|qs| - 1]), q.rule, q.subject, q.at).0
  }

  function Key(q: Request): string
    requires Usable(q)
  {
    KeyFor(q.rule, q.subject, q.at)
  }

  predicate SameSubject(p: Request, q: Request) {
    p.rule.scope == q.rule.scope && p.subject == q.subject
  }

  function Bucket(q: Request): nat
    requires Usable(q)
  {
    q.at / WindowMs(q.rule)
  }

  predicate SameBucket(p: Request, q: Request)
    requires Usable(p) && Usable(q)
  {
    SameSubject(p, q) && Bucket(p) == Bucket(q)
  }

  /** Requests that use one counter count in one window. */
  predicate Agree(p: Request, q: Request)
    requires Usable(p) && Usable(q)
  {
    SameBucket(p, q) ==> WindowMs(p.rule) == WindowMs(q.rule)
  }

  predicate Regular(qs: seq<Request>) {
    AllUsable(qs) && forall i, j :: 0 <= i < |qs| && 0 <= j < |qs| ==> Agree(qs[i], qs[j])
  }

  predicate Fits(qs: seq<Request>, q: Request)
    requires AllUsable(qs)
  {
    Usable(q) && forall i :: 0 <= i < |qs| ==> Agree(qs[i], q)
  }

  /** How many of the requests fall in q's bucket for q's subject. */
  function InBucket(qs: seq<Request>, q: Request): nat
    requires AllUsable(qs) && Usable(q)
  {
    if qs == [] then 0
    else InBucket(qs[..|qs| - 1], q) + if SameBucket(qs[|qs| - 1], q) then 1 else 0
  }

  lemma SameKeyIff(p: Request, q: Request)
    requires Usable(p) && Usable(q)
    ensures Key(p) == Key(q) <==> SameBucket(p, q)
  {
    if Key(p) == Key(q) {
      Keys.RateLimitInjective("rl", ScopeName(p.rule.scope), p.subject, Bucket(p),
                              ScopeName(q.rule.scope), q.subject, Bucket(q));
    }
  }

  lemma BucketSpan(q: Request)
    requires Usable(q)
    ensures Bucket(q) * WindowMs(q.rule) <= q.at < (Bucket(q) + 1) * WindowMs(q.rule)
  {
  }

  /** The counter stands at n and lives at least to the end of q's bucket. */
  predicate Stands(m: Counters, q: Request, n: nat)
    requires Usable(q)
  {
    && CountOf(m, Key(q), q.at) == n
    && (n > 0 ==> Key(q) in m && m[Key(q)].count == n && m[Key(q)].expires.Some?
                  && (Bucket(q) + 1) * WindowMs(q.rule) <= m[Key(q)].expires.value)
  }

  lemma CountOne(m: Counters, p: Request, n: nat)
    requires Usable(p) && Stands(m, p, n)
    ensures Stands(AllowOn(m, p.rule, p.subject, p.at).0, p, n + 1)
  {
    hide Keys.RateLimit;
    BucketSpan(p);
  }

  lemma StandsForBucket(m: Counters, p: Request, q: Request, n: nat)
    requires Usable(p) && Usable(q) && SameBucket(p, q) && WindowMs(p.rule) == WindowMs(q.rule)
    requires Stands(m, p, n) && n > 0
    ensures Stands(m, q, n)
  {
    SameKeyIff(p, q);
    hide Key;
    BucketSpan(q);
  }

  lemma OtherKeyKept(m: Counters, p: Request, q: Request, n: nat)
    requires Usable(p) && Usable(q) && !SameBucket(p, q) && Stands(m, q, n)
    ensures Stands(AllowOn(m, p.rule, p.subject, p.at).0, q, n)
  {
    SameKeyIff(p, q);
    hide Keys.RateLimit;
  }

  lemma {:induction false} InBucketAlike(qs: seq<Request>, p: Request, q: Request)
    requires AllUsable(qs) && Usable(p) && Usable(q) && SameBucket(p, q)
    ensures InBucket(qs, p) == InBucket(qs, q)
  {
    if qs != [] {
      InBucketAlike(qs[..|qs| - 1], p, q);
    }
  }

  /**
    Expiry never resets a count inside its own bucket: whatever else has been counted, the
    counter stands at exactly the number of requests so far in the bucket.
   */
  lemma {:induction false} CountIsExact(qs: seq<Request>, q: Request)
    requires Regular(qs) && Fits(qs, q)
    ensures Stands(After(qs), q, InBucket(qs, q))
  {
    hide Stands, AllowOn, Bucket;
    if qs == [] {
      NothingStands(q);
    } else {
      var before, p := qs[..|qs| - 1], qs[|qs| - 1];
      CountIsExact(before, q);
      if SameBucket(p, q) {
        CountIsExact(before, p);
        CountOne(After(before), p, InBucket(before, p));
        StandsForBucket(After(qs), p, q, InBucket(before, p) + 1);
        InBucketAlike(before, p, q);
      } else {
        OtherKeyKept(After(before), p, q, InBucket(before, q));
      }
    }
  }

  lemma NothingStands(q: Request)
    requires Usable(q)
    ensures Stands(map[], q, 0)
  {
    hide Key;
  }

  predicate Admits(qs: seq<Request>, q: Request) {
    var outcome := AllowOn(After(qs), q.rule, q.subject, q.at).1;
    outcome.Answered? && outcome.answer.allowed
  }

  /**
    A request is allowed exactly when fewer requests than its limit came before it in its
    bucket. The wait it is told reaches the end of the bucket.
   */
  lemma AllowedIff(qs: seq<Request>, q: Request)
    requires Regular(qs) && Fits(qs, q)
    ensures Admits(qs, q) <==> InBucket(qs, q) < q.rule.limit
    ensures
      var outcome := AllowOn(After(qs), q.rule, q.subject, q.at).1;
      && outcome.Answered? && outcome.answer.limit == q.rule.limit && outcome.answer.rule == q.rule
      && outcome.answer.remaining == (if InBucket(qs, q) < q.rule.limit then q.rule.limit - InBucket(qs, q) - 1 else 0)
      && q.at * MILLISECOND + outcome.answer.retryAfter >= (Bucket(q) + 1) * WindowMs(q.rule) * MILLISECOND
  {
    CountIsExact(qs, q);
    AnswerFromCount(After(qs), q, InBucket(qs, q));
    hide AllowOn, Stands, Bucket;
  }

  /** When the counter of q's bucket was started: by the first request in it, q itself if need be. */
  function Started(qs: seq<Request>, q: Request): nat
    requires AllUsable(qs) && Usable(q)
  {
    if qs == [] then q.at
    else if InBucket(qs[..|qs| - 1], q) > 0 then Started(qs[..|qs| - 1], q)
    else if SameBucket(qs[|qs| - 1], q) then qs[|qs| - 1].at
    else q.at
  }

  /** A counter that stands lives exactly a window from its start. */
  predicate LivesFrom(m: Counters, q: Request, start: nat)
    requires Usable(q)
  {
    Key(q) in m && m[Key(q)].expires == Some(start + WindowMs(q.rule))
  }

  lemma CountOneLives(m: Counters, p: Request, n: nat, start: nat)
    requires Usable(p) && Stands(m, p, n) && (n > 0 ==> LivesFrom(m, p, start)) && (n == 0 ==> start == p.at)
    ensures LivesFrom(AllowOn(m, p.rule, p.subject, p.at).0, p, start)
  {
    hide Keys.RateLimit;
    BucketSpan(p);
  }

  lemma LivesForBucket(m: Counters, p: Request, q: Request, start: nat)
    requires Usable(p) && Usable(q) && SameBucket(p, q) && WindowMs(p.rule) == WindowMs(q.rule)
    ensures LivesFrom(m, p, start) <==> LivesFrom(m, q, start)
  {
    SameKeyIff(p, q);
    hide Key;
  }

  lemma OtherKeyLives(m: Counters, p: Request, q: Request, start: nat)
    requires Usable(p) && Usable(q) && !SameBucket(p, q) && LivesFrom(m, q, start)
    ensures LivesFrom(AllowOn(m, p.rule, p.subject, p.at).0, q, start)
  {
    SameKeyIff(p, q);
    hide Keys.RateLimit;
  }

  lemma {:induction false} StartedAlike(qs: seq<Request>, p: Request, q: Request)
    requires AllUsable(qs) && Usable(p) && Usable(q) && SameBucket(p, q) && InBucket(qs, q) > 0
    ensures Started(qs, p) == Started(qs, q)
  {
    var before := qs[..|qs| - 1];
    InBucketAlike(before, p, q);
    if InBucket(before, q) > 0 {
      StartedAlike(before, p, q);
    }
  }

  /** Whatever else has been counted, a counter in use expires a window after its first request. */
  lemma {:induction false} CounterLives(qs: seq<Request>, q: Request)
    requires Regular(qs) && Fits(qs, q) && InBucket(qs, q) > 0
    ensures LivesFrom(After(qs), q, Started(qs, q))
  {
    hide Stands, AllowOn, Bucket, LivesFrom;
    var before, p := qs[..|qs| - 1], qs[|qs| - 1];
    if SameBucket(p, q) {
      InBucketAlike(before, p, q);
      CountIsExact(before, p);
      if InBucket(before, p) > 0 {
        CounterLives(before, p);
        StartedAlike(before, p, q);
      }
      CountOneLives(After(before), p, InBucket(before, p), Started(qs, q));
      LivesForBucket(After(qs), p, q, Started(qs, q));
    } else {
      CounterLives(before, q);
      OtherKeyLives(After(before), p, q, Started(before, q));
    }
  }

  /** The wait that is told is exactly what the counter has left of its window. */
  lemma WaitIsExact(qs: seq<Request>, q: Request)
    requires Regular(qs) && Fits(qs, q)
    ensures
      var outcome := AllowOn(After(qs), q.rule, q.subject, q.at).1;
      outcome.Answered? && outcome.answer.retryAfter == (Started(qs, q) + WindowMs(q.rule) - q.at) * 1_000_000
  {
    CountIsExact(qs, q);
    if InBucket(qs, q) > 0 {
      CounterLives(qs, q);
    } else {
      NothingStarted(qs, q);
    }
    WaitFromStart(After(qs), q, InBucket(qs, q), Started(qs, q));
    hide AllowOn, Stands, Bucket, LivesFrom;
  }

  lemma {:induction false} NothingStarted(qs: seq<Request>, q: Request)
    requires AllUsable(qs) && Usable(q) && InBucket(qs, q) == 0
    ensures Started(qs, q) == q.at
  {
  }

  lemma WaitFromStart(m: Counters, q: Request, n: nat, start: nat)
    requires Usable(q) && Stands(m, q, n) && (n > 0 ==> LivesFrom(m, q, start)) && (n == 0 ==> start == q.at)
    ensures
      var outcome := AllowOn(m, q.rule, q.subject, q.at).1;
      outcome.Answered? && outcome.answer.retryAfter == (start + WindowMs(q.rule) - q.at) * 1_000_000
  {
    CountOne(m, q, n);
    CountOneLives(m, q, n, start);
    BucketSpan(q);
    hide Keys.RateLimit;
  }

  /** The counter, if there is one, does not outlive a window from q's moment. */
  predicate EndsSoon(m: Counters, q: Request)
    requires Usable(q)
  {
    Key(q) in m ==> m[Key(q)].expires.Some? && m[Key(q)].expires.value <= q.at + WindowMs(q.rule)
  }

  lemma EndsSoonStep(m: Counters, p: Request, q: Request)
    requires Usable(p) && Usable(q) && Agree(p, q) && EndsSoon(m, q) && p.at <= q.at
    ensures EndsSoon(AllowOn(m, p.rule, p.subject, p.at).0, q)
  {
    SameKeyIff(p, q);
    hide Keys.RateLimit, Bucket;
  }

  lemma {:induction false} CounterEndsSoon(qs: seq<Request>, q: Request)
    requires Regular(qs) && Fits(qs, q) && forall i :: 0 <= i < |qs| ==> qs[i].at <= q.at
    ensures EndsSoon(After(qs), q)
  {
    hide AllowOn, EndsSoon, Agree;
    if qs == [] {
      NothingEnds(q);
    } else {
      CounterEndsSoon(qs[..|qs| - 1], q);
      EndsSoonStep(After(qs[..|qs| - 1]), qs[|qs| - 1], q);
    }
  }

  lemma NothingEnds(q: Request)
    requires Usable(q)
    ensures EndsSoon(map[], q)
  {
    hide Key;
  }

  /** When no request comes before its time, nobody is told to wait longer than a window. */
  lemma WaitIsAtMostAWindow(qs: seq<Request>, q: Request)
    requires Regular(qs) && Fits(qs, q) && forall i :: 0 <= i < |qs| ==> qs[i].at <= q.at
    ensures
      var outcome := AllowOn(After(qs), q.rule, q.subject, q.at).1;
      outcome.Answered? && 0 < outcome.answer.retryAfter <= q.rule.window
  {
    CounterEndsSoon(qs, q);
    WaitFromCounter(After(qs), q);
    hide AllowOn, EndsSoon;
  }

  lemma WaitFromCounter(m: Counters, q: Request)
    requires Usable(q) && EndsSoon(m, q)
    ensures
      var outcome := AllowOn(m, q.rule, q.subject, q.at).1;
      outcome.Answered? && 0 < outcome.answer.retryAfter <= q.rule.window
  {
    hide Keys.RateLimit;
    assert WindowMs(q.rule) * MILLISECOND <= q.rule.window;
  }

  lemma AnswerFromCount(m: Counters, q: Request, n: nat)
    requires Usable(q) && Stands(m, q, n)
    ensures
      var outcome := AllowOn(m, q.rule, q.subject, q.at).1;
      && outcome.Answered? && outcome.answer.limit == q.rule.limit && outcome.answer.rule == q.rule
      && (outcome.answer.allowed <==> n < q.rule.limit)
      && outcome.answer.remaining == (if n < q.rule.limit then q.rule.limit - n - 1 else 0)
      && q.at * MILLISECOND + outcome.answer.retryAfter >= (Bucket(q) + 1) * WindowMs(q.rule) * MILLISECOND
  {
    hide Keys.RateLimit;
    CountOne(m, q, n);
    BucketSpan(q);
  }

  // ----- how many get through

  /** How many of the requests in q's bucket are allowed. */
  function AdmittedInBucket(qs: seq<Request>, q: Request): nat
    requires AllUsable(qs) && Usable(q)
  {
    if qs == [] then 0
    else
      var before, p := qs[..|qs| - 1], qs[|qs| - 1];
      AdmittedInBucket(before, q) + if SameBucket(p, q) && Admits(before, p) then 1 else 0
  }

  /** Every request that uses q's counter comes under q's rule. */
  predicate OneRule(qs: seq<Request>, q: Request)
    requires AllUsable(qs) && Usable(q)
  {
    forall i :: 0 <= i < |qs| && SameBucket(qs[i], q) ==> qs[i].rule == q.rule
  }

  /** Of n requests in a bucket exactly the first `limit` are allowed. */
  lemma {:induction false} BucketAdmitsLimit(qs: seq<Request>, q: Request)
    requires Regular(qs) && Usable(q) && OneRule(qs, q)
    ensures AdmittedInBucket(qs, q) == if InBucket(qs, q) < q.rule.limit then InBucket(qs, q) else q.rule.limit
  {
    hide Admits, Bucket;
    if qs != [] {
      var before, p := qs[..|qs| - 1], qs[|qs| - 1];
      BucketAdmitsLimit(before, q);
      if SameBucket(p, q) {
        AllowedIff(before, p);
        InBucketAlike(before, p, q);
      }
    }
  }

  /** Is the request under q's rule and for q's subject, whatever its moment? */
  predicate SameRule(p: Request, q: Request) {
    p.rule == q.rule && p.subject == q.subject
  }

  /** How many of the requests in q's bucket, under q's own rule, are allowed. */
  function AdmittedUnder(qs: seq<Request>, q: Request): nat
    requires AllUsable(qs) && Usable(q)
  {
    if qs == [] then 0
    else
      var before, p := qs[..|qs| - 1], qs[|qs| - 1];
      AdmittedUnder(before, q) + if SameRule(p, q) && SameBucket(p, q) && Admits(before, p) then 1 else 0
  }

  /** Whatever other rules share the counter, no more than the limit get through in a bucket. */
  lemma {:induction false} BucketAdmitsAtMost(qs: seq<Request>, q: Request)
    requires Regular(qs) && Usable(q)
    ensures AdmittedUnder(qs, q) <= InBucket(qs, q) && AdmittedUnder(qs, q) <= q.rule.limit
  {
    hide Admits, Bucket, Agree;
    if qs != [] {
      var before, p := qs[..|qs| - 1], qs[|qs| - 1];
      BucketAdmitsAtMost(before, q);
      if SameRule(p, q) && SameBucket(p, q) {
        AllowedIff(before, p);
        InBucketAlike(before, p, q);
      }
    }
  }

  /** How many requests under q's rule are allowed in the half-open interval [start, end). */
  function AdmittedBetween(qs: seq<Request>, q: Request, start: nat, end: nat): nat {
    if qs == [] then 0
    else
      var before, p := qs[..|qs| - 1], qs[|qs| - 1];
      AdmittedBetween(before, q, start, end) +
      if SameRule(p, q) && start <= p.at < end && Admits(before, p) then 1 else 0
  }

  /** An interval one window long meets at most two buckets. */
  lemma TwoBuckets(p: Request, first: Request, second: Request)
    requires Usable(p) && Usable(first) && SameRule(p, first)
    requires second == first.(at := first.at + WindowMs(first.rule)) && first.at <= p.at < second.at
    ensures SameBucket(p, first) || SameBucket(p, second)
  {
    BucketSpan(first);
    BucketSpan(second);
    BucketSpan(p);
    NextBucket(first.at, WindowMs(first.rule));
    BetweenBuckets(p.at, first.at, WindowMs(first.rule));
  }

  lemma NextBucket(at: nat, w: int)
    requires w > 0
    ensures (at + w) / w == at / w + 1
  {
    FloorBounds(at, w);
    FloorUnique(at + w, w, at / w + 1);
  }

  lemma BetweenBuckets(t: nat, at: nat, w: int)
    requires w > 0 && at <= t < at + w
    ensures t / w == at / w || t / w == at / w + 1
  {
    FloorBounds(at, w);
    var q := at / w;
    if t < w * q + w {
      FloorUnique(t, w, q);
    } else {
      assert w * (q + 1) == w * q + w;
      FloorUnique(t, w, q + 1);
    }
  }

  lemma {:induction false} BetweenIsTwoBuckets(qs: seq<Request>, q: Request, next: Request)
    requires AllUsable(qs) && Usable(q) && next == q.(at := q.at + WindowMs(q.rule))
    ensures AdmittedBetween(qs, q, q.at, next.at) <= AdmittedUnder(qs, q) + AdmittedUnder(qs, next)
  {
    hide Admits, Bucket;
    if qs != [] {
      var before, p := qs[..|qs| - 1], qs[|qs| - 1];
      BetweenIsTwoBuckets(before, q, next);
      if SameRule(p, q) && q.at <= p.at < next.at {
        TwoBuckets(p, q, next);
      }
    }
  }

  /** In any interval one window long, wherever it starts, at most twice the limit get through. */
  lemma WindowAdmitsTwiceLimit(qs: seq<Request>, rule: Rule, subject: string, start: nat)
    requires Regular(qs) && Usable(Request(start, rule, subject))
    ensures AdmittedBetween(qs, Request(start, rule, subject), start, start + WindowMs(rule)) <= 2 * rule.limit
  {
    hide Admits, Bucket;
    var q := Request(start, rule, subject);
    var next := q.(at := q.at + WindowMs(q.rule));
    BetweenIsTwoBuckets(qs, q, next);
    BucketAdmitsAtMost(qs, q);
    BucketAdmitsAtMost(qs, next);
  }

  // ----- rules of different windows on one subject

  /** Between two moments the bucket numbers of two windows never overlap, unless they are one. */
  predicate Apart(w: nat, w': nat, from: nat, to: nat)
    requires w > 0 && w' > 0
  {
    w == w' || (if w < w' then to / w' < from / w else to / w < from / w')
  }

  lemma QuotientMonotone(a: nat, b: nat, d: nat)
    requires d > 0 && a <= b
    ensures a / d <= b / d
  {
    FloorBounds(a, d);
    FloorBounds(b, d);
    if b / d < a / d {
      MulMonotone(b / d + 1, a / d, d);
    }
  }

  lemma LongerIsFewer(a: nat, w: nat, w': nat)
    requires 0 < w <= w'
    ensures a / w' <= a / w
  {
    FloorBounds(a, w);
    FloorBounds(a, w');
    if a / w < a / w' {
      MulMonotone(a / w + 1, a / w', w);
      MulMonotone(w, w', a / w');
    }
  }

  /** The moment between two others at which a window's n-th bucket is open. */
  lemma OpenAt(from: nat, to: nat, w: nat, n: nat) returns (at: nat)
    requires w > 0 && from <= to && from / w <= n <= to / w
    ensures from <= at <= to && at / w == n
  {
    FloorBounds(from, w);
    FloorBounds(to, w);
    if n == from / w {
      at := from;
    } else {
      MultipleBetween(from, from / w, n, to / w, to, w);
      at := w * n;
      FloorUnique(at, w, n);
    }
  }

  lemma MultipleBetween(from: int, q: int, n: int, q': int, to: int, w: int)
    requires w > 0 && from < w * q + w && q < n <= q' && w * q' <= to
    ensures from < w * n <= to
  {
    MulMonotone(q + 1, n, w);
    MulMonotone(n, q', w);
  }

  /**
    Two rules on one subject never meet in a counter between two moments exactly when their
    windows are one or the bucket numbers of the longer have not reached those of the shorter.
   */
  lemma NeverMeetIff(r: Rule, r': Rule, subject: string, from: nat, to: nat)
    requires Usable(Request(from, r, subject)) && Usable(Request(from, r', subject))
    requires r.scope == r'.scope && from <= to
    ensures Apart(WindowMs(r), WindowMs(r'), from, to) <==>
      forall a, b :: from <= a <= to && from <= b <= to ==>
        Agree(Request(a, r, subject), Request(b, r', subject))
  {
    hide Validate;
    var w, w' := WindowMs(r), WindowMs(r');
    if Apart(w, w', from, to) {
      forall a, b | from <= a <= to && from <= b <= to ensures Agree(Request(a, r, subject), Request(b, r', subject)) {
        ApartMeansAgree(Request(a, r, subject), Request(b, r', subject), from, to);
      }
    } else if w < w' {
      LongerIsFewer(from, w, w');
      var b := OpenAt(from, to, w', from / w);
      assert !Agree(Request(from, r, subject), Request(b, r', subject));
    } else {
      LongerIsFewer(from, w', w);
      var a := OpenAt(from, to, w, from / w');
      assert !Agree(Request(a, r, subject), Request(from, r', subject));
    }
  }

  lemma ApartMeansAgree(p: Request, q: Request, from: nat, to: nat)
    requires Usable(p) && Usable(q) && from <= p.at <= to && from <= q.at <= to
    requires Apart(WindowMs(p.rule), WindowMs(q.rule), from, to)
    ensures Agree(p, q)
  {
    hide Validate;
    var w, w' := WindowMs(p.rule), WindowMs(q.rule);
    QuotientMonotone(from, p.at, w);
    QuotientMonotone(from, q.at, w');
    QuotientMonotone(p.at, to, w);
    QuotientMonotone(q.at, to, w');
  }

  /** So requests are regular for as long as the windows on each subject stay apart. */
  lemma RealClocksAreRegular(qs: seq<Request>, from: nat, to: nat)
    requires AllUsable(qs) && forall i :: 0 <= i < |qs| ==> from <= qs[i].at <= to
    requires forall i, j :: 0 <= i < |qs| && 0 <= j < |qs| && SameSubject(qs[i], qs[j]) ==>
      Apart(WindowMs(qs[i].rule), WindowMs(qs[j].rule), from, to)
    ensures Regular(qs)
  {
    hide Bucket, Apart;
    forall i, j | 0 <= i < |qs| && 0 <= j < |qs| ensures Agree(qs[i], qs[j]) {
      if SameSubject(qs[i], qs[j]) {
        ApartMeansAgree(qs[i], qs[j], from, to);
      }
    }
  }

  /** From 2024 until past 2040 even a one-minute and a ninety-second rule stay apart. */
  lemma MinutesStayApart()
    ensures Apart(60_000, 90_000, 1_704_067_200_000, 2_208_988_800_000)
  {
  }

  /**
    Close to the epoch the condition is needed: a one-second and a three-second rule share
    bucket 0, the shorter one's expiry resets the count, and the longer one's bucket loses it.
   */
  lemma ClashingWindowsExample()
    ensures
      var short, long := Rule(PerIP, 5, 1_000 * MILLISECOND), Rule(PerIP, 5, 3_000 * MILLISECOND);
      var q := Request(1_500, long, "s");
      var qs := [Request(0, short, "s")];
      && AllUsable(qs) && Usable(q) && InBucket(qs, q) == 1 && CountOf(After(qs), Key(q), q.at) == 0
  {
    var short, long := Rule(PerIP, 5, 1_000 * MILLISECOND), Rule(PerIP, 5, 3_000 * MILLISECOND);
    var p, q := Request(0, short, "s"), Request(1_500, long, "s");
    SameKeyIff(p, q);
    hide Keys.RateLimit;
    assert [p][..0] == [];
    assert After([p]) == AllowOn(map[], short, "s", 0).0;
  }
}
