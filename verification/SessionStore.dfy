/**
  Server-side sessions: a table keyed by token, changed only by guarded SQL statements. A
  token stands for its SHA-256, which is taken to be injective.
 */
module SessionStore {
  import opened Wrappers
  import opened Authz

  type Token = string
  type IdentityId = string
  type TenantId = string

  datatype Row = Row(
    identity: IdentityId,
    tenant: Option<TenantId>,
    kind: ActorType,
    createdAt: Time,
    lastSeen: Time,
    expires: Time,
    revoked: Option<Time>
  )

  type Table = map<Token, Row>

  const SECOND: int := 1_000_000_000
  const SLIDE_AFTER: int := 60 * SECOND

  // ----- what each statement does to the table

  function Inserted(t: Table, token: Token, id: IdentityId, kind: ActorType, now: Time, ttl: int): Table {
    t[token := Row(id, None, kind, now, now, now + ttl, None)]
  }

  predicate Live(row: Row, now: Time) {
    row.revoked.None? && now < row.expires
  }

  function Resolved(t: Table, token: Token, now: Time): Option<Row> {
    if token != "" && token in t && Live(t[token], now) then Some(t[token]) else None
  }

  /** The guard every update shares: `token_sha256 = $1 and revoked_at is null`. */
  predicate Unrevoked(t: Table, token: Token) {
    token in t && t[token].revoked.None?
  }

  function Slid(t: Table, token: Token, lastSeen: Time, now: Time, ttl: int): Table {
    if now - lastSeen >= SLIDE_AFTER && Unrevoked(t, token)
    then t[token := t[token].(lastSeen := now, expires := now + ttl)]
    else t
  }

  function Bound(t: Table, token: Token, tenant: TenantId): Table {
    if Unrevoked(t, token) then t[token := t[token].(tenant := Some(tenant))] else t
  }

  function RevokedOne(t: Table, token: Token, now: Time): Table {
    if Unrevoked(t, token) then t[token := t[token].(revoked := Some(now))] else t
  }

  /** The rows RevokeAll ends. */
  function Ending(t: Table, id: IdentityId): set<Token> {
    set token | token in t && t[token].identity == id && t[token].revoked.None?
  }

  function RevokedAll(t: Table, id: IdentityId, now: Time): Table {
    map token | token in t :: if token in Ending(t, id) then t[token].(revoked := Some(now)) else t[token]
  }

  predicate Sweepable(row: Row, now: Time, retention: int) {
    row.expires < now || (row.revoked.Some? && row.revoked.value < now - retention)
  }

  function Swept(t: Table, now: Time, retention: int): Table {
    map token | token in t && !Sweepable(t[token], now, retention) :: t[token]
  }

  class Store {
    const ttl: int
    var rows: Table

    constructor (ttl: int)
      requires ttl > 0
      ensures this.ttl == ttl && rows == map[]
    {
      this.ttl := ttl;
      rows := map[];
    }

    /** Inserts a session for a newly generated token; a duplicate key is refused. */
    method Issue(token: Token, id: IdentityId, kind: ActorType, now: Time) returns (issued: bool)
      modifies this
      ensures issued == (token !in old(rows))
      ensures rows == if issued then Inserted(old(rows), token, id, kind, now, ttl) else old(rows)
    {
      if token in rows {
        return false;
      }
      rows := rows[token := Row(id, None, kind, now, now, now + ttl, None)];
      return true;
    }

    method Resolve(token: Token, now: Time) returns (session: Option<Row>)
      ensures session == Resolved(rows, token, now)
    {
      if token == "" {
        return None;
      }
      if token !in rows || rows[token].revoked.Some? {
        return None;
      }
      var row := rows[token];
      if !(now < row.expires) {
        return None;
      }
      return Some(row);
    }

    method Touch(token: Token, lastSeen: Time, now: Time) returns (wrote: bool)
      modifies this
      ensures rows == Slid(old(rows), token, lastSeen, now, ttl)
      ensures wrote == (now - lastSeen >= SLIDE_AFTER)
    {
      if now - lastSeen < SLIDE_AFTER {
        return false;
      }
      if token in rows && rows[token].revoked.None? {
        rows := rows[token := rows[token].(lastSeen := now, expires := now + ttl)];
      }
      return true;
    }

    method SelectShop(token: Token, tenant: TenantId) returns (found: bool)
      modifies this
      ensures found == Unrevoked(old(rows), token)
      ensures rows == Bound(old(rows), token, tenant)
    {
      found := token in rows && rows[token].revoked.None?;
      if found {
        rows := rows[token := rows[token].(tenant := Some(tenant))];
      }
    }

    method Revoke(token: Token, now: Time)
      modifies this
      ensures rows == RevokedOne(old(rows), token, now)
    {
      if token in rows && rows[token].revoked.None? {
        rows := rows[token := rows[token].(revoked := Some(now))];
      }
    }

    method RevokeAll(id: IdentityId, now: Time) returns (count: nat)
      modifies this
      ensures rows == RevokedAll(old(rows), id, now)
      ensures count == |Ending(old(rows), id)|
    {
      var ending := set token | token in rows && rows[token].identity == id && rows[token].revoked.None?;
      rows := map token | token in rows ::
        if token in ending then rows[token].(revoked := Some(now)) else rows[token];
      count := |ending|;
    }

    method Sweep(now: Time, retention: int) returns (removed: nat)
      modifies this
      ensures rows == Swept(old(rows), now, retention)
      ensures removed == |old(rows)| - |rows|
    {
      var doomed := set token | token in rows && Sweepable(rows[token], now, retention);
      var kept := map token | token in rows && !Sweepable(rows[token], now, retention) :: rows[token];
      assert kept.Keys == rows.Keys - doomed;
      rows := kept;
      removed := |doomed|;
    }
  }

  // ----- what each statement leaves

  /** A session lives from its issue until its ttl has run out, owned as it was issued and without a shop. */
  lemma IssuedLives(t: Table, token: Token, id: IdentityId, kind: ActorType, now: Time, ttl: int, at: Time)
    requires token != ""
    ensures
      var found := Resolved(Inserted(t, token, id, kind, now, ttl), token, at);
      && (found.Some? <==> at < now + ttl)
      && (found.Some? ==>
            && found.value.identity == id && found.value.kind == kind && found.value.tenant == None
            && found.value.createdAt == now && found.value.lastSeen == now)
  {
  }

  predicate SameAt(t: Table, after: Table, token: Token) {
    (token in after <==> token in t) && (token in t ==> after[token] == t[token])
  }

  /** Inserting, sliding, binding and revoking one session touch no other. */
  lemma OthersUntouched(t: Table, token: Token, other: Token, id: IdentityId, kind: ActorType, lastSeen: Time,
                        tenant: TenantId, now: Time, ttl: int)
    requires other != token
    ensures SameAt(t, Inserted(t, token, id, kind, now, ttl), other)
    ensures SameAt(t, Slid(t, token, lastSeen, now, ttl), other)
    ensures SameAt(t, Bound(t, token, tenant), other)
    ensures SameAt(t, RevokedOne(t, token, now), other)
  {
  }

  /**
    A slide prolongs an open session to a full ttl from now, once a minute has passed since the
    last use named; before that, and for any other session, nothing happens.
   */
  lemma SlideProlongs(t: Table, token: Token, lastSeen: Time, now: Time, ttl: int, at: Time)
    ensures now < lastSeen + 60_000_000_000 || token !in t || t[token].revoked.Some? ==>
      Slid(t, token, lastSeen, now, ttl) == t
    ensures lastSeen + 60_000_000_000 <= now && token in t && t[token].revoked.None? && token != "" ==>
      var found := Resolved(Slid(t, token, lastSeen, now, ttl), token, at);
      && (found.Some? <==> at < now + ttl)
      && (found.Some? ==>
            && found.value.lastSeen == now && found.value.identity == t[token].identity
            && found.value.kind == t[token].kind && found.value.tenant == t[token].tenant
            && found.value.createdAt == t[token].createdAt)
  {
  }

  /** Binding changes nothing about a session but its shop, and an ended one not at all. */
  lemma BindingSetsTheShop(t: Table, token: Token, tenant: TenantId, at: Time)
    ensures Resolved(Bound(t, token, tenant), token, at).Some? <==> Resolved(t, token, at).Some?
    ensures Resolved(t, token, at).Some? ==>
      Resolved(Bound(t, token, tenant), token, at).value == Resolved(t, token, at).value.(tenant := Some(tenant))
    ensures token !in t || t[token].revoked.Some? ==> Bound(t, token, tenant) == t
  {
  }

  /** A revoked session never resolves again; the moment of the first revocation is kept. */
  lemma RevokedIsOver(t: Table, token: Token, now: Time, at: Time)
    ensures Resolved(RevokedOne(t, token, now), token, at).None?
    ensures token in t ==>
      && token in RevokedOne(t, token, now)
      && RevokedOne(t, token, now)[token] ==
           t[token].(revoked := if t[token].revoked.Some? then t[token].revoked else Some(now))
    ensures token !in t ==> RevokedOne(t, token, now) == t
  {
  }

  /** A sweep keeps exactly the rows that have neither expired nor been revoked for the retention. */
  lemma SweepKeeps(t: Table, now: Time, retention: int, token: Token)
    ensures token in Swept(t, now, retention) <==>
      && token in t && now <= t[token].expires
      && (t[token].revoked.Some? ==> now <= t[token].revoked.value + retention)
    ensures token in Swept(t, now, retention) ==> Swept(t, now, retention)[token] == t[token]
  {
  }

  // ----- revocation

  /** RevokeAll ends exactly the identity's open sessions and leaves every other row alone. */
  lemma RevokeAllEndsExactly(t: Table, id: IdentityId, now: Time, token: Token, at: Time)
    ensures token in t && t[token].identity == id ==> Resolved(RevokedAll(t, id, now), token, at).None?
    ensures token in t && t[token].identity != id ==> RevokedAll(t, id, now)[token] == t[token]
    ensures RevokedAll(t, id, now).Keys == t.Keys
    ensures token in Ending(t, id) <==>
      token in t && t[token].revoked.None? && RevokedAll(t, id, now)[token].revoked == Some(now)
      && t[token].identity == id
    ensures Ending(RevokedAll(t, id, now), id) == {}
  {
  }

  // ----- runs of the store

  datatype Op =
    | Issue(token: Token, id: IdentityId, kind: ActorType)
    | Resolve(token: Token)
    | Touch(token: Token, lastSeen: Time)
    | SelectShop(token: Token, tenant: TenantId)
    | Revoke(token: Token)
    | RevokeAll(id: IdentityId)
    | Sweep(retention: int)

  datatype Event = Event(at: Time, op: Op)

  function Apply(t: Table, e: Event, ttl: int): Table {
    match e.op
    case Issue(token, id, kind) => if token in t then t else Inserted(t, token, id, kind, e.at, ttl)
    case Resolve(_) => t
    case Touch(token, lastSeen) => Slid(t, token, lastSeen, e.at, ttl)
    case SelectShop(token, tenant) => Bound(t, token, tenant)
    case Revoke(token) => RevokedOne(t, token, e.at)
    case RevokeAll(id) => RevokedAll(t, id, e.at)
    case Sweep(retention) => Swept(t, e.at, retention)
  }

  /** The answers a run gives, in order. */
  function Answers(t: Table, es: seq<Event>, ttl: int): seq<Option<Row>>
    decreases |es|
  {
    if es == [] then []
    else
      var rest := Answers(Apply(t, es[0], ttl), es[1..], ttl);
      if es[0].op.Resolve? then [Resolved(t, es[0].op.token, es[0].at)] + rest else rest
  }

  function WithoutSweeps(es: seq<Event>): seq<Event> {
    if es == [] then []
    else if es[0].op.Sweep? then WithoutSweeps(es[1..])
    else [es[0]] + WithoutSweeps(es[1..])
  }

  predicate Ordered(es: seq<Event>, since: Time)
    decreases |es|
  {
    es != [] ==> since <= es[0].at && Ordered(es[1..], es[0].at)
  }

  /** Tokens are 256 random bits: no token is ever issued twice. */
  predicate FreshTokens(es: seq<Event>, used: set<Token>)
    decreases |es|
  {
    es != [] ==>
      if es[0].op.Issue?
      then es[0].op.token !in used && FreshTokens(es[1..], used + {es[0].op.token})
      else FreshTokens(es[1..], used)
  }

  /** Touch is called only for a session that has just resolved, with what it resolved to. */
  predicate TouchesResolved(t: Table, es: seq<Event>, ttl: int)
    decreases |es|
  {
    es != [] ==>
      && (es[0].op.Touch? ==>
            var found := Resolved(t, es[0].op.token, es[0].at);
            found.Some? && found.value.lastSeen == es[0].op.lastSeen)
      && TouchesResolved(Apply(t, es[0], ttl), es[1..], ttl)
  }

  /** The swept table is the kept one minus rows that can never resolve again. */
  predicate SweptFrom(swept: Table, kept: Table, now: Time) {
    && (forall token :: token in swept ==> token in kept && swept[token] == kept[token])
    && (forall token :: token in kept && token !in swept ==> !Live(kept[token], now))
  }

  lemma SweepStep(swept: Table, kept: Table, e: Event, ttl: int)
    requires e.op.Sweep? && SweptFrom(swept, kept, e.at)
    ensures SweptFrom(Apply(swept, e, ttl), kept, e.at)
  {
  }

  lemma OtherStep(swept: Table, kept: Table, e: Event, ttl: int)
    requires !e.op.Sweep? && SweptFrom(swept, kept, e.at)
    requires e.op.Issue? ==> e.op.token !in kept
    requires e.op.Touch? ==> Resolved(swept, e.op.token, e.at).Some?
    ensures SweptFrom(Apply(swept, e, ttl), Apply(kept, e, ttl), e.at)
    ensures e.op.Resolve? ==> Resolved(swept, e.op.token, e.at) == Resolved(kept, e.op.token, e.at)
    ensures Apply(kept, e, ttl).Keys == if e.op.Issue? then kept.Keys + {e.op.token} else kept.Keys
  {
  }

  lemma {:induction false} SweptRunAgrees(swept: Table, kept: Table, es: seq<Event>, since: Time, ttl: int,
                                          used: set<Token>)
    requires SweptFrom(swept, kept, since) && kept.Keys <= used
    requires Ordered(es, since) && FreshTokens(es, used) && TouchesResolved(swept, es, ttl)
    ensures Answers(swept, es, ttl) == Answers(kept, WithoutSweeps(es), ttl)
    decreases |es|
  {
    if es != [] {
      var e := es[0];
      assert SweptFrom(swept, kept, e.at);
      if e.op.Sweep? {
        SweepStep(swept, kept, e, ttl);
        SweptRunAgrees(Apply(swept, e, ttl), kept, es[1..], e.at, ttl, used);
      } else {
        OtherStep(swept, kept, e, ttl);
        SweptRunAgrees(Apply(swept, e, ttl), Apply(kept, e, ttl), es[1..], e.at, ttl,
                       if e.op.Issue? then used + {e.op.token} else used);
        assert WithoutSweeps(es)[0] == e && WithoutSweeps(es)[1..] == WithoutSweeps(es[1..]);
      }
    }
  }

  /**
    The sweep is invisible: a store swept at any moments, with any retention, gives every
    later Resolve the answer it would have given unswept.
   */
  lemma SweepIsInvisible(t: Table, es: seq<Event>, since: Time, ttl: int)
    requires Ordered(es, since) && FreshTokens(es, t.Keys) && TouchesResolved(t, es, ttl)
    ensures Answers(t, es, ttl) == Answers(t, WithoutSweeps(es), ttl)
  {
    SweptRunAgrees(t, t, es, since, ttl, t.Keys);
  }

  // ----- what the other calls report

  function Final(t: Table, es: seq<Event>, ttl: int): Table
    decreases |es|
  {
    if es == [] then t else Final(Apply(t, es[0], ttl), es[1..], ttl)
  }

  predicate AllBy(es: seq<Event>, now: Time) {
    forall i :: 0 <= i < |es| ==> es[i].at <= now
  }

  lemma {:induction false} SweptRunFrom(swept: Table, kept: Table, es: seq<Event>, since: Time, now: Time, ttl: int,
                                         used: set<Token>)
    requires SweptFrom(swept, kept, since) && kept.Keys <= used && since <= now && AllBy(es, now)
    requires Ordered(es, since) && FreshTokens(es, used) && TouchesResolved(swept, es, ttl)
    ensures SweptFrom(Final(swept, es, ttl), Final(kept, WithoutSweeps(es), ttl), now)
    decreases |es|
  {
    if es != [] {
      var e := es[0];
      assert SweptFrom(swept, kept, e.at);
      if e.op.Sweep? {
        SweepStep(swept, kept, e, ttl);
        SweptRunFrom(Apply(swept, e, ttl), kept, es[1..], e.at, now, ttl, used);
      } else {
        OtherStep(swept, kept, e, ttl);
        SweptRunFrom(Apply(swept, e, ttl), Apply(kept, e, ttl), es[1..], e.at, now, ttl,
                     if e.op.Issue? then used + {e.op.token} else used);
        assert WithoutSweeps(es)[0] == e && WithoutSweeps(es)[1..] == WithoutSweeps(es[1..]);
      }
    }
  }

  /** The open rows only the unswept table still holds. */
  function Gone(swept: Table, kept: Table): set<Token> {
    set token | token in kept && token !in swept && kept[token].revoked.None?
  }

  lemma CountsDiffer(swept: Table, kept: Table, id: IdentityId, now: Time)
    requires SweptFrom(swept, kept, now)
    ensures |Ending(kept, id)| ==
      |Ending(swept, id)| + |set token | token in Gone(swept, kept) && kept[token].identity == id|
  {
    var gone := set token | token in Gone(swept, kept) && kept[token].identity == id;
    assert Ending(kept, id) == Ending(swept, id) + gone;
  }

  /**
    After any run, the other calls report the same swept or not, but for open rows that were swept
    because they had expired: binding one of them to a shop is reported as done by the unswept
    store alone, and the count of RevokeAll differs by exactly their number. A session that still
    resolves is never among them.
   */
  lemma SweptReports(t: Table, es: seq<Event>, since: Time, now: Time, ttl: int, token: Token, id: IdentityId)
    requires Ordered(es, since) && FreshTokens(es, t.Keys) && TouchesResolved(t, es, ttl)
    requires since <= now && AllBy(es, now)
    ensures
      var swept, kept := Final(t, es, ttl), Final(t, WithoutSweeps(es), ttl);
      && (forall other :: other in Gone(swept, kept) ==> kept[other].expires <= now)
      && ((Unrevoked(swept, token) <==> Unrevoked(kept, token)) <==> token !in Gone(swept, kept))
      && (Resolved(kept, token, now).Some? ==> token !in Gone(swept, kept))
      && |Ending(kept, id)| ==
           |Ending(swept, id)| + |set other | other in Gone(swept, kept) && kept[other].identity == id|
  {
    SweptRunFrom(t, t, es, since, now, ttl, t.Keys);
    CountsDiffer(Final(t, es, ttl), Final(t, WithoutSweeps(es), ttl), id, now);
  }

  /** Such a row: an expired session is still bound and still counted until it is swept. */
  lemma LapsedIsReportedExample(row: Row, now: Time)
    requires row.revoked.None? && row.expires < now
    ensures
      var kept: Table := map["t" := row];
      var swept := Swept(kept, now, 0);
      && Resolved(kept, "t", now).None?
      && Unrevoked(kept, "t") && Ending(kept, row.identity) == {"t"}
      && !Unrevoked(swept, "t") && Ending(swept, row.identity) == {}
  {
  }

  // ----- the slide

  lemma AnswersStep(t: Table, e: Event, rest: seq<Event>, ttl: int)
    ensures Answers(t, [e] + rest, ttl) ==
      (if e.op.Resolve? then [Resolved(t, e.op.token, e.at)] else []) + Answers(Apply(t, e, ttl), rest, ttl)
  {
    assert ([e] + rest)[1..] == rest;
  }

  /**
    Exactly when a slide brings a dead session back: its row is still there, was never revoked,
    has expired, and a minute has passed since the last use the caller names.
   */
  lemma RevivesIff(t: Table, token: Token, lastSeen: Time, now: Time, ttl: int)
    ensures Resolved(t, token, now).None? && Resolved(Slid(t, token, lastSeen, now, ttl), token, now).Some? <==>
      && token != "" && token in t && t[token].revoked.None? && t[token].expires <= now
      && now - lastSeen >= SLIDE_AFTER && ttl > 0
    ensures forall other :: other != token ==>
      Resolved(Slid(t, token, lastSeen, now, ttl), other, now) == Resolved(t, other, now)
  {
  }

  /**
    The slide has no expiry check of its own, so touching an expired session without resolving
    it first brings it back, and then the sweep is visible.
   */
  lemma StaleTouchExample(row: Row, ttl: int)
    requires row.revoked.None? && row.lastSeen + SLIDE_AFTER <= row.expires && ttl > 0
    ensures
      var late := row.expires + 1;
      var es := [Event(late, Sweep(0)), Event(late, Touch("t", row.lastSeen)), Event(late, Resolve("t"))];
      && Answers(map["t" := row], es, ttl) == [None]
      && Answers(map["t" := row], WithoutSweeps(es), ttl) == [Some(row.(lastSeen := late, expires := late + ttl))]
  {
    var late := row.expires + 1;
    var t: Table := map["t" := row];
    var sweep, touch, resolve := Event(late, Sweep(0)), Event(late, Touch("t", row.lastSeen)), Event(late,
        Resolve("t"));
    assert [sweep, touch, resolve] == [sweep] + [touch, resolve];
    assert [touch, resolve] == [touch] + [resolve] && [resolve] == [resolve] + [];
    assert WithoutSweeps([resolve]) == [resolve];
    assert WithoutSweeps([touch] + [resolve]) == [touch, resolve];
    assert Swept(t, late, 0) == map[];
    AnswersStep(t, sweep, [touch, resolve], ttl);
    AnswersStep(map[], touch, [resolve], ttl);
    AnswersStep(map[], resolve, [], ttl);
    AnswersStep(t, touch, [resolve], ttl);
    AnswersStep(Apply(t, touch, ttl), resolve, [], ttl);
  }
}
