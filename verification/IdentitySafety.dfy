/**
  Safety of whole sign-in runs: revocation is final, the forced password change holds, and a
  session acts in a shop only through a membership that is active.
 */
module IdentitySafety {
  import opened Wrappers
  import opened Authz
  import opened Identity
  import opened IdentityRuns
  import S = SessionStore

  predicate ActiveIn(s: State, id: IdentityId, t: TenantId) {
    var all := MembershipsOf(s, id);
    exists i :: 0 <= i < |all| && all[i].tenant == t && all[i].status == Active
  }

  // ----- what a step does to one session row

  /** A row that was there before: its owner and kind are fixed, a revocation is final. */
  predicate RowKept(s: State, token: Token, row: S.Row) {
    && token in s.sessions
    && var was := s.sessions[token];
       && row.identity == was.identity && row.kind == was.kind
       && (was.revoked.Some? ==> row.revoked == was.revoked)
       && (row.tenant != was.tenant ==> row.tenant.Some? && ActiveIn(s, row.identity, row.tenant.value))
  }

  /** A row that appears: issued by this sign-in, for staff, at most bound to an active membership. */
  predicate RowIssued(s: State, e: Event, token: Token, row: S.Row) {
    && token !in s.sessions && e.op.SignIn? && e.op.newToken == token
    && row.kind == Admin && row.revoked.None?
    && (row.tenant.Some? ==> ActiveIn(s, row.identity, row.tenant.value))
  }

  lemma SignInRow(s: State, e: Event, ttl: int, token: Token)
    requires e.op.SignIn? && token in Step(s, e, ttl).sessions
    ensures
      var row := Step(s, e, ttl).sessions[token];
      RowKept(s, token, row) || RowIssued(s, e, token, row)
  {
    StepIsCall(s, e, ttl);
    AuthenticateRow(s, e, ttl, token);
    hide Step, Authenticate, RowKept, RowIssued;
  }

  lemma AuthenticateRow(s: State, e: Event, ttl: int, token: Token)
    requires e.op.SignIn?
    requires token in Authenticate(s, e.op.email, e.op.password, e.op.newToken, e.at, ttl).0.sessions
    ensures
      var row := Authenticate(s, e.op.email, e.op.password, e.op.newToken, e.at, ttl).0.sessions[token];
      RowKept(s, token, row) || RowIssued(s, e, token, row)
  {
    hide Step, Strings.TrimSpace, Actives, CanSignIn, Failed, Rehashed, SuccessfulLogin, PasswordDead, ActiveIn,
         PlatformRolesOf, MembershipsOf;
    var r := Authenticate(s, e.op.email, e.op.password, e.op.newToken, e.at, ttl).1;
    if r.Success? && |r.value.memberships| == 1 {
      ActiveIsActive(s, r.value.id);
    }
  }

  lemma ActiveIsActive(s: State, id: IdentityId)
    ensures forall m :: m in Actives(MembershipsOf(s, id)) ==> ActiveIn(s, id, m.tenant)
  {
    var all := MembershipsOf(s, id);
    ActivesSound(all);
    forall m | m in Actives(all) ensures ActiveIn(s, id, m.tenant) {
      var i :| 0 <= i < |all| && all[i] == m;
    }
  }

  lemma PickShopRow(s: State, e: Event, ttl: int, token: Token)
    requires e.op.PickShop? && token in Step(s, e, ttl).sessions
    ensures RowKept(s, token, Step(s, e, ttl).sessions[token])
  {
    hide CanSignIn, MembershipAt, MembershipsOf;
    var session := S.Resolved(s.sessions, e.op.token, e.at);
    if session.Some? {
      MembershipAtSound(MembershipsOf(s, session.value.identity), e.op.tenant);
    }
  }

  /** Steps that end, extend or drop sessions move no row to another owner, kind or shop. */
  predicate OnlyEnds(t: S.Table, after: S.Table) {
    forall token :: token in after ==>
      && token in t && after[token].identity == t[token].identity && after[token].kind == t[token].kind
      && after[token].tenant == t[token].tenant
      && (t[token].revoked.Some? ==> after[token].revoked == t[token].revoked)
  }

  lemma StatementsOnlyEnd(t: S.Table, token: Token, id: IdentityId, lastSeen: Time, now: Time, ttl: int)
    ensures OnlyEnds(t, S.Slid(t, token, lastSeen, now, ttl)) && OnlyEnds(t, S.RevokedOne(t, token, now))
    ensures OnlyEnds(t, S.RevokedAll(t, id, now)) && OnlyEnds(t, S.Swept(t, now, ttl)) && OnlyEnds(t, t)
  {
    OneRowEnds(t, token, lastSeen, now, ttl);
    AllRowsEnd(t, id, now);
    hide OnlyEnds, S.Slid, S.RevokedOne, S.RevokedAll;
    SweptRowsEnd(t, now, ttl);
  }

  lemma OneRowEnds(t: S.Table, token: Token, lastSeen: Time, now: Time, ttl: int)
    ensures OnlyEnds(t, S.Slid(t, token, lastSeen, now, ttl)) && OnlyEnds(t, S.RevokedOne(t, token, now))
    ensures OnlyEnds(t, t)
  {
  }

  lemma AllRowsEnd(t: S.Table, id: IdentityId, now: Time)
    ensures OnlyEnds(t, S.RevokedAll(t, id, now))
  {
  }

  lemma SweptRowsEnd(t: S.Table, now: Time, retention: int)
    ensures OnlyEnds(t, S.Swept(t, now, retention))
  {
  }

  lemma CallsOnlyEnd(s: State, token: Token, password: string, next: string, now: Time)
    ensures OnlyEnds(s.sessions, SignOutEverywhere(s, token, now).0.sessions)
    ensures OnlyEnds(s.sessions, ChangePassword(s, token, password, next, now).0.sessions)
    ensures OnlyEnds(s.sessions, Reauth(s, token, password, now).0.sessions)
  {
    hide CanSignIn, Failed, SuccessfulLogin, ReauthStamped, PasswordSet, Passwd.Acceptable, Seal, OnlyEnds,
         S.RevokedAll, S.Resolved;
    var session := S.Resolved(s.sessions, token, now);
    StatementsOnlyEnd(s.sessions, token, if session.Some? then session.value.identity else "", 0, now, 0);
  }

  /** The steps that write the sessions table directly. */
  predicate WritesSessions(op: Op) {
    op.Leave? || op.Slide? || op.SweepSessions? || op.EndSessions?
  }

  lemma WriteOnlyEnds(s: State, e: Event, ttl: int)
    requires WritesSessions(e.op)
    ensures OnlyEnds(s.sessions, Step(s, e, ttl).sessions)
  {
    hide OnlyEnds, S.Slid, S.RevokedOne, S.RevokedAll, S.Swept, ChangePassword, SignOutEverywhere, Reauth, CostsRaised,
         Authenticate, SelectShop, FirstLogin;
    var t, now := s.sessions, e.at;
    match e.op
    case Leave(token) => StatementsOnlyEnd(t, token, "", 0, now, ttl);
    case EndSessions(id) => StatementsOnlyEnd(t, "", id, 0, now, ttl);
    case Slide(token, lastSeen) => StatementsOnlyEnd(t, token, "", lastSeen, now, ttl);
    case SweepSessions(retention) => StatementsOnlyEnd(t, "", "", 0, now, retention);
  }

  /** Every step but a sign-in and a choice of shop runs one of those statements, or none. */
  lemma StepOnlyEnds(s: State, e: Event, ttl: int)
    requires !e.op.SignIn? && !e.op.PickShop?
    ensures OnlyEnds(s.sessions, Step(s, e, ttl).sessions)
  {
    if WritesSessions(e.op) {
      WriteOnlyEnds(s, e, ttl);
    } else {
      OtherOnlyEnds(s, e, ttl);
    }
    hide Step, OnlyEnds;
  }

  lemma OtherOnlyEnds(s: State, e: Event, ttl: int)
    requires !e.op.SignIn? && !e.op.PickShop? && !WritesSessions(e.op)
    ensures OnlyEnds(s.sessions, Step(s, e, ttl).sessions)
  {
    hide OnlyEnds, S.Slid, S.RevokedOne, S.RevokedAll, S.Swept, ChangePassword, SignOutEverywhere, Reauth, CostsRaised,
         Seal, Authenticate, SelectShop, SignOut;
    match e.op
    case LeaveEverywhere(token) => CallsOnlyEnd(s, token, "", "", e.at);
    case NewPassword(token, current, next) => CallsOnlyEnd(s, token, current, next, e.at);
    case Confirm(token, password) => CallsOnlyEnd(s, token, password, "", e.at);
    case _ => StatementsOnlyEnd(s.sessions, "", "", 0, e.at, ttl);
  }

  lemma OtherRow(s: State, e: Event, ttl: int, token: Token)
    requires !e.op.SignIn? && !e.op.PickShop? && token in Step(s, e, ttl).sessions
    ensures RowKept(s, token, Step(s, e, ttl).sessions[token])
  {
    hide Step, ActiveIn;
    StepOnlyEnds(s, e, ttl);
  }

  lemma StepRow(s: State, e: Event, ttl: int, token: Token)
    requires token in Step(s, e, ttl).sessions
    ensures
      var row := Step(s, e, ttl).sessions[token];
      RowKept(s, token, row) || RowIssued(s, e, token, row)
  {
    hide Step, RowKept, RowIssued;
    if e.op.SignIn? {
      SignInRow(s, e, ttl, token);
    } else if e.op.PickShop? {
      PickShopRow(s, e, ttl, token);
    } else {
      OtherRow(s, e, ttl, token);
    }
  }

  // ----- revocation is permanent

  predicate Ended(s: State, token: Token) {
    token !in s.sessions || s.sessions[token].revoked.Some?
  }

  predicate NeverIssues(es: seq<Event>, token: Token) {
    forall i :: 0 <= i < |es| && es[i].op.SignIn? ==> es[i].op.newToken != token
  }

  /** Tokens are 256 random bits: the run issues none twice, and none already issued. */
  predicate FreshTokens(es: seq<Event>, used: set<Token>) {
    && (forall i :: 0 <= i < |es| && es[i].op.SignIn? ==> es[i].op.newToken !in used)
    && (forall i, j :: 0 <= i < j < |es| && es[i].op.SignIn? && es[j].op.SignIn? ==>
          es[i].op.newToken != es[j].op.newToken)
  }

  lemma EndedStays(s: State, e: Event, ttl: int, token: Token)
    requires Ended(s, token) && (e.op.SignIn? ==> e.op.newToken != token)
    ensures Ended(Step(s, e, ttl), token)
  {
    hide Step, ActiveIn;
    if token in Step(s, e, ttl).sessions {
      StepRow(s, e, ttl, token);
    }
  }

  /**
    Once a session has ended, no later sequence of calls, slides, sweeps and environment steps
    makes its token resolve again, at any moment.
   */
  lemma {:induction false} EndedForever(s: State, es: seq<Event>, ttl: int, token: Token, at: Time)
    requires Ended(s, token) && NeverIssues(es, token)
    ensures Ended(Run(s, es, ttl), token)
    ensures Resolve(Run(s, es, ttl), token, at).None?
  {
    hide Step;
    if es != [] {
      var k := |es| - 1;
      EndedForever(s, es[..k], ttl, token, at);
      EndedStays(Run(s, es[..k], ttl), es[k], ttl, token);
    }
  }

  /** Freshness gives the condition above for every token a run has issued so far. */
  lemma FreshNeverReissues(es: seq<Event>, used: set<Token>, n: nat, token: Token)
    requires FreshTokens(es, used) && n <= |es|
    requires token in used || exists i :: 0 <= i < n && es[i].op.SignIn? && es[i].op.newToken == token
    ensures NeverIssues(es[n..], token)
  {
    forall j | 0 <= j < |es[n..]| && es[n..][j].op.SignIn? ensures es[n..][j].op.newToken != token {
      assert es[n..][j] == es[n + j];
    }
  }

  /** The calls that end a session: signing it out, and whatever revokes its owner's sessions. */
  lemma EndingCalls(s: State, e: Event, ttl: int, token: Token)
    requires token in s.sessions
    ensures e.op.Leave? && e.op.token == token ==> Ended(Step(s, e, ttl), token)
    ensures EndsAllOf(s, e, s.sessions[token].identity) ==> Ended(Step(s, e, ttl), token)
    ensures EndsAllOf(s, e, s.sessions[token].identity) ==>
      Step(s, e, ttl).sessions == S.RevokedAll(s.sessions, s.sessions[token].identity, e.at)
  {
    hide CanSignIn, MembershipsOf, PasswordSet, Passwd.Acceptable, Seal, Authenticate, Reauth, SelectShop;
  }

  predicate EndsAllOf(s: State, e: Event, id: IdentityId) {
    match e.op
    case EndSessions(one) => one == id
    case LeaveEverywhere(token) =>
      var session := S.Resolved(s.sessions, token, e.at);
      session.Some? && session.value.identity == id
    case NewPassword(_, _, _) => ChangesPassword(s, e, id)
    case _ => false
  }

  // ----- passwords

  predicate PasswordIs(s: State, id: IdentityId, password: string) {
    id in s.people && s.people[id].hash.Sealed? && s.people[id].hash.password == password
  }

  /** A rehash keeps the password; only a successful change replaces it. */
  lemma StepPassword(s: State, e: Event, ttl: int, id: IdentityId, password: string)
    requires PasswordIs(s, id, password)
    ensures PasswordIs(Step(s, e, ttl), id, if ChangesPassword(s, e, id) then e.op.next else password)
  {
    hide Step, ChangesPassword, Reauths, WrongGuess;
    StepPerson(s, e, id, ttl);
    OneSuccess(s, e, ttl, id);
    if SignsIn(s, e, id, ttl) {
      SignsInWithPassword(s, e, ttl, id);
    }
    hide SignsIn;
  }

  lemma SignsInWithPassword(s: State, e: Event, ttl: int, id: IdentityId)
    requires SignsIn(s, e, id, ttl)
    ensures id in s.people && s.people[id].hash.Verifies(e.op.password)
  {
    hide Strings.TrimSpace, Actives, CanSignIn, S.Inserted, S.Bound, MembershipsOf, PlatformRolesOf;
  }

  predicate NoChange(s: State, es: seq<Event>, id: IdentityId, ttl: int) {
    forall n :: 0 <= n < |es| ==> !ChangesPassword(Run(s, es[..n], ttl), es[n], id)
  }

  lemma {:induction false} PasswordKept(s: State, es: seq<Event>, ttl: int, id: IdentityId, password: string)
    requires PasswordIs(s, id, password) && NoChange(s, es, id, ttl)
    ensures PasswordIs(Run(s, es, ttl), id, password)
  {
    hide Step, ChangesPassword, PasswordIs;
    if es != [] {
      var k := |es| - 1;
      assert forall n :: 0 <= n < k ==> es[..k][..n] == es[..n];
      PasswordKept(s, es[..k], ttl, id, password);
      StepPassword(Run(s, es[..k], ttl), es[k], ttl, id, password);
    }
  }

  /**
    After a successful password change the old password signs nobody in as that person, at any
    later point of the run before the password is changed again.
   */
  lemma OldPasswordIsDead(s: State, e: Event, es: seq<Event>, ttl: int, id: IdentityId, attempt: Event)
    requires ChangesPassword(s, e, id) && NoChange(Step(s, e, ttl), es, id, ttl)
    requires attempt.op.SignIn? && attempt.op.password == e.op.current
    ensures !SignsIn(Run(Step(s, e, ttl), es, ttl), attempt, id, ttl)
  {
    ChangeReplaces(s, e, ttl, id);
    PasswordKept(Step(s, e, ttl), es, ttl, id, e.op.next);
    hide Step, Run, ChangesPassword;
    var last := Run(Step(s, e, ttl), es, ttl);
    if SignsIn(last, attempt, id, ttl) {
      SignsInWithPassword(last, attempt, ttl, id);
    }
  }

  lemma ChangeReplaces(s: State, e: Event, ttl: int, id: IdentityId)
    requires ChangesPassword(s, e, id)
    ensures PasswordIs(s, id, e.op.current) && e.op.next != e.op.current
    ensures PasswordIs(Step(s, e, ttl), id, e.op.next)
  {
    hide Passwd.Acceptable, S.RevokedAll;
  }

  // ----- the forced password change

  predicate Forced(s: State, id: IdentityId) {
    id in s.people && s.people[id].mustChange
  }

  /** Sessions are only ever issued to staff. */
  predicate StaffOnly(s: State) {
    forall token :: token in s.sessions ==> s.sessions[token].kind == Admin
  }

  lemma {:induction false} StaffOnlyAlways(s: State, es: seq<Event>, ttl: int)
    requires StaffOnly(s)
    ensures StaffOnly(Run(s, es, ttl))
  {
    hide Step;
    if es != [] {
      var k := |es| - 1;
      StaffOnlyAlways(s, es[..k], ttl);
      forall token | token in Run(s, es, ttl).sessions
        ensures Run(s, es, ttl).sessions[token].kind == Admin
      {
        StepRow(Run(s, es[..k], ttl), es[k], ttl, token);
      }
    }
  }

  /**
    While a change is forced, a session of that person carries no roles, is refused every
    action by the enforcer, and cannot choose a shop.
   */
  lemma ForcedMeansPowerless(s: State, token: Token, now: Time, t: TenantId, cancelled: bool, action: Action,
                             res: Resource)
    requires StaffOnly(s) && S.Resolved(s.sessions, token, now).Some?
    requires Forced(s, S.Resolved(s.sessions, token, now).value.identity)
    ensures
      var actor := Resolve(s, token, now);
      actor.Some? ==> actor.value.roles == [] && Can(cancelled, actor.value, action, res).Some?
    ensures SelectShop(s, token, t, now) == (s, Failure(MustChangePassword))
  {
    hide CanSignIn;
    var actor := Resolve(s, token, now);
    if actor.Some? {
      NoRolesNoActions(actor.value, cancelled, action, res);
    }
  }

  /**
    Exactly which steps lift a forced change: a password change that earns its success, and,
    because a rehash goes through the same update, a sign-in that does while the stored hash is
    flagged for rehash. What earns it can be checked before the call.
   */
  lemma ForcedLiftedIff(s: State, e: Event, ttl: int, id: IdentityId)
    requires Forced(s, id)
    ensures !Forced(Step(s, e, ttl), id) <==>
      EarnsChange(s, e, id) || (EarnsSignIn(s, e, id) && s.people[id].hash.NeedsRehash())
  {
    hide Step, ChangesPassword, SignsIn, EarnsChange, EarnsSignIn;
    LiftedBySuccess(s, e, ttl, id);
    ChangesPasswordIff(s, e, id);
    SignsInIff(s, e, id, ttl);
  }

  lemma LiftedBySuccess(s: State, e: Event, ttl: int, id: IdentityId)
    requires Forced(s, id)
    ensures !Forced(Step(s, e, ttl), id) <==>
      ChangesPassword(s, e, id) || (SignsIn(s, e, id, ttl) && s.people[id].hash.NeedsRehash())
  {
    hide Step, ChangesPassword, Reauths, WrongGuess;
    StepPerson(s, e, id, ttl);
    OneSuccess(s, e, ttl, id);
    hide SignsIn;
  }

  lemma OneSuccess(s: State, e: Event, ttl: int, id: IdentityId)
    ensures SignsIn(s, e, id, ttl) || Reauths(s, e, id) ==> !ChangesPassword(s, e, id)
    ensures SignsIn(s, e, id, ttl) ==> !Reauths(s, e, id)
  {
  }

  predicate StrongHash(s: State, id: IdentityId) {
    id in s.people && !s.people[id].hash.NeedsRehash()
  }

  /** The hasher's costs are not raised above this person's hash. */
  predicate NotFlagged(es: seq<Event>, id: IdentityId) {
    forall i :: 0 <= i < |es| && es[i].op.RaiseCosts? ==> id !in es[i].op.below
  }

  lemma StrongHashStays(s: State, e: Event, ttl: int, id: IdentityId)
    requires StrongHash(s, id) && (e.op.RaiseCosts? ==> id !in e.op.below)
    ensures StrongHash(Step(s, e, ttl), id)
  {
    hide Step, ChangesPassword, Reauths, WrongGuess, SignsIn;
    StepPerson(s, e, id, ttl);
  }

  /** From a hash that is never flagged, only a successful password change ever lifts the lock. */
  lemma {:induction false} ForcedUntilChanged(s: State, es: seq<Event>, ttl: int, id: IdentityId)
    requires Forced(s, id) && StrongHash(s, id) && NoChange(s, es, id, ttl) && NotFlagged(es, id)
    ensures Forced(Run(s, es, ttl), id) && StrongHash(Run(s, es, ttl), id)
  {
    hide Step, ChangesPassword, Forced, StrongHash, SignsIn;
    if es != [] {
      var k := |es| - 1;
      var before := Run(s, es[..k], ttl);
      assert forall n :: 0 <= n < k ==> es[..k][..n] == es[..n];
      ForcedUntilChanged(s, es[..k], ttl, id);
      ForcedKept(before, es[k], ttl, id);
      StrongHashStays(before, es[k], ttl, id);
    }
  }

  lemma ForcedKept(s: State, e: Event, ttl: int, id: IdentityId)
    requires Forced(s, id) && StrongHash(s, id) && !ChangesPassword(s, e, id)
    ensures Forced(Step(s, e, ttl), id)
  {
    hide Step, ChangesPassword, SignsIn;
    LiftedBySuccess(s, e, ttl, id);
  }

  const NOBODY: State := State(map[], map[], map[], map[], map[])

  /**
    The lock can be shed without a password change: a login is created, the hasher's costs are
    raised, and the first sign-in with the issued password leaves nothing forced.
   */
  lemma RaisedCostsLiftForced(id: IdentityId, email: string, password: string, t: TenantId, token: Token,
                              created: Time, raised: Time, signedIn: Time, expires: Time, ttl: int)
    requires Strings.TrimSpace(email) == email && signedIn < expires
    ensures
      var es := [Event(created, CreateLogin(id, email, password, t, expires)), Event(raised, RaiseCosts({id})),
                 Event(signedIn, SignIn(email, password, token))];
      && Forced(Run(NOBODY, es[..2], ttl), id) && NoChange(NOBODY, es, id, ttl)
      && SignsIn(Run(NOBODY, es[..2], ttl), es[2], id, ttl)
      && id in Run(NOBODY, es, ttl).people && !Forced(Run(NOBODY, es, ttl), id)
  {
    hide Strings.TrimSpace, Run;
    var create, raise := Event(created, CreateLogin(id, email, password, t, expires)), Event(raised, RaiseCosts({id}));
    var enter := Event(signedIn, SignIn(email, password, token));
    RunThree(create, raise, enter, ttl);
    var first := Step(NOBODY, create, ttl);
    var second := Step(first, raise, ttl);
    FirstLoginAlone(id, email, password, t, created, expires, ttl);
    FlaggedLogin(first, id, raised, ttl);
    WeakSignIn(second, enter, id, email, password, ttl);
    var es := [create, raise, enter];
    assert es[..2] == [create, raise] && es[..1] == [create] && es[..0] == [];
  }

  lemma RunThree(a: Event, b: Event, c: Event, ttl: int)
    ensures Run(NOBODY, [], ttl) == NOBODY && Run(NOBODY, [a], ttl) == Step(NOBODY, a, ttl)
    ensures Run(NOBODY, [a, b], ttl) == Step(Step(NOBODY, a, ttl), b, ttl)
    ensures Run(NOBODY, [a, b, c], ttl) == Step(Step(Step(NOBODY, a, ttl), b, ttl), c, ttl)
  {
    hide Step;
    assert [a, b, c][..2] == [a, b] && [a, b][..1] == [a] && [a][..0] == [];
  }

  lemma FirstLoginAlone(id: IdentityId, email: string, password: string, t: TenantId, at: Time, expires: Time, ttl: int)
    ensures
      var s := Step(NOBODY, Event(at, CreateLogin(id, email, password, t, expires)), ttl);
      && s.people == map[id := Person(email, Active, Seal(password), true, Some(expires), 0, None, None, None)]
      && s.byEmail == map[email := id] && s.sessions == map[]
  {
    hide Authenticate, ChangePassword, Reauth, SelectShop, SignOut, SignOutEverywhere, CostsRaised;
  }

  lemma FlaggedLogin(s: State, id: IdentityId, at: Time, ttl: int)
    requires id in s.people && s.people[id].hash.Sealed?
    ensures
      var s' := Step(s, Event(at, RaiseCosts({id})), ttl);
      && s' == s.(people := s'.people) && id in s'.people
      && s'.people[id] == s.people[id].(hash := Sealed(s.people[id].hash.password, true))
  {
    hide Authenticate, ChangePassword, Reauth, SelectShop, SignOut, SignOutEverywhere, FirstLogin;
  }

  lemma WeakSignIn(s: State, e: Event, id: IdentityId, email: string, password: string, ttl: int)
    requires e.op.SignIn? && e.op.email == email == Strings.TrimSpace(email) && e.op.password == password
    requires email in s.byEmail && s.byEmail[email] == id && id in s.people && e.op.newToken !in s.sessions
    requires s.people[id].hash == Sealed(password, true) && s.people[id].status == Active
    requires s.people[id].lockedUntil.None? && !PasswordDead(s.people[id], e.at)
    ensures SignsIn(s, e, id, ttl) && id in Step(s, e, ttl).people && !Forced(Step(s, e, ttl), id)
  {
    hide Strings.TrimSpace, Actives, MembershipsOf, PlatformRolesOf, S.Inserted, S.Bound;
  }

  /** A new login starts forced and with a hash that is not flagged. */
  lemma NewLoginIsForced(s: State, e: Event, ttl: int)
    requires e.op.CreateLogin? && e.op.id !in s.people && e.op.email !in s.byEmail
    ensures Forced(Step(s, e, ttl), e.op.id) && StrongHash(Step(s, e, ttl), e.op.id)
  {
    hide Authenticate, ChangePassword, Reauth, SelectShop, SignOut, SignOutEverywhere, MembershipsOf;
  }

  // ----- shops

  predicate BoundTo(s: State, token: Token, id: IdentityId, t: TenantId) {
    token in s.sessions && s.sessions[token].identity == id && s.sessions[token].tenant == Some(t)
  }

  /** The event at position n bound the session, as an active member, and it has been bound since. */
  predicate BoundAt(s: State, es: seq<Event>, ttl: int, token: Token, id: IdentityId, t: TenantId, n: nat)
    requires n < |es|
  {
    && ActiveIn(Run(s, es[..n], ttl), id, t) && !BoundTo(Run(s, es[..n], ttl), token, id, t)
    && forall m :: n < m <= |es| ==> BoundTo(Run(s, es[..m], ttl), token, id, t)
  }

  /**
    In every reachable state a session's shop was an active membership of its owner at the very
    step that bound it: before that step the session was not there or carried another shop, and
    from then on it has carried this one.
   */
  lemma {:induction false} BoundThroughMembership(
    s: State, es: seq<Event>, ttl: int, token: Token, id: IdentityId, t: TenantId)
    requires s.sessions == map[] && BoundTo(Run(s, es, ttl), token, id, t)
    ensures exists n :: 0 <= n < |es| && BoundAt(s, es, ttl, token, id, t, n)
  {
    hide Step, ActiveIn, BoundTo;
    assert es != [] by { NothingBound(s, ttl, token, id, t); }
    var k := |es| - 1;
    assert es[..|es|] == es;
    if BoundTo(Run(s, es[..k], ttl), token, id, t) {
      BoundThroughMembership(s, es[..k], ttl, token, id, t);
      var n :| 0 <= n < k && BoundAt(s, es[..k], ttl, token, id, t, n);
      assert forall m :: 0 <= m <= k ==> es[..k][..m] == es[..m];
      assert BoundAt(s, es, ttl, token, id, t, n);
    } else {
      BindsAsMember(Run(s, es[..k], ttl), es[k], ttl, token, id, t);
      assert BoundAt(s, es, ttl, token, id, t, k);
    }
  }

  lemma NothingBound(s: State, ttl: int, token: Token, id: IdentityId, t: TenantId)
    requires s.sessions == map[]
    ensures !BoundTo(Run(s, [], ttl), token, id, t)
  {
  }

  /** A step that binds a session to a shop does so for an active member of it. */
  lemma BindsAsMember(s: State, e: Event, ttl: int, token: Token, id: IdentityId, t: TenantId)
    requires !BoundTo(s, token, id, t) && BoundTo(Step(s, e, ttl), token, id, t)
    ensures ActiveIn(s, id, t)
  {
    hide Step, ActiveIn;
    StepRow(s, e, ttl, token);
  }

  predicate MaySignIn(p: Person, now: Time) {
    p.status == Active && (p.lockedUntil.Some? ==> p.lockedUntil.value <= now)
  }

  /** A shop is chosen exactly by a live session of someone free to act who is an active member of it. */
  lemma ShopChosenIff(s: State, token: Token, t: TenantId, now: Time)
    ensures SelectShop(s, token, t, now).1.Success? <==>
      && token != "" && token in s.sessions && S.Live(s.sessions[token], now)
      && var id := s.sessions[token].identity;
         id in s.people && !Forced(s, id) && MaySignIn(s.people[id], now) && ActiveIn(s, id, t)
    ensures SelectShop(s, token, t, now).1.Success? ==>
      SelectShop(s, token, t, now).0 == s.(sessions := s.sessions[token := s.sessions[token].(tenant := Some(t))])
  {
    var session := S.Resolved(s.sessions, token, now);
    if session.Some? {
      MembershipAtSound(MembershipsOf(s, session.value.identity), t);
    }
  }

  /**
    A token yields an actor exactly while its session is live, its owner may sign in, and the
    shop it is bound to, when one matters, still has the owner as an active member.
   */
  lemma ResolvesIff(s: State, token: Token, now: Time)
    ensures Resolve(s, token, now).Some? <==>
      && token != "" && token in s.sessions && S.Live(s.sessions[token], now)
      && var row := s.sessions[token];
         && row.identity in s.people && MaySignIn(s.people[row.identity], now)
         && (Forced(s, row.identity) || PlatformRolesOf(s, row.identity) != [] || row.tenant.None?
             || ActiveIn(s, row.identity, row.tenant.value))
  {
    var session := S.Resolved(s.sessions, token, now);
    if session.Some? && session.value.tenant.Some? {
      MembershipAtSound(MembershipsOf(s, session.value.identity), session.value.tenant.value);
    }
  }

  /** Roles reach an actor from exactly one place: the vendor table, or a membership active now. */
  lemma RolesComeFrom(s: State, token: Token, now: Time)
    requires Resolve(s, token, now).Some? && Resolve(s, token, now).value.roles != []
    ensures
      var row, actor := s.sessions[token], Resolve(s, token, now).value;
      && token in s.sessions && S.Live(row, now) && actor.id == row.identity && actor.kind == row.kind
      && actor.id in s.people && CanSignIn(s.people[actor.id], now).None? && !Forced(s, actor.id)
      && if PlatformRolesOf(s, actor.id) != [] then actor.roles == PlatformRolesOf(s, actor.id)
         else row.tenant.Some? && exists m ::
           m in MembershipsOf(s, actor.id) && m.tenant == row.tenant.value && m.status == Active &&
             m.roles == actor.roles
  {
    hide CanSignIn;
    var row := s.sessions[token];
    if PlatformRolesOf(s, row.identity) == [] {
      MembershipAtSound(MembershipsOf(s, row.identity), row.tenant.value);
    }
  }

  /** The schema's division: shop roles are granted to staff, platform roles to the vendor. */
  predicate WorldsApart(s: State) {
    && (forall id, m :: id in s.memberships && m in s.memberships[id] ==>
          forall i :: 0 <= i < |m.roles| ==> !IsPlatformRole(m.roles[i]))
    && (forall id :: id in s.vendors ==> forall i :: 0 <= i < |s.vendors[id]| ==> IsPlatformRole(s.vendors[id][i]))
  }

  /** The environment respects the division whenever it grants roles. */
  predicate GrantsApart(e: Event) {
    && (e.op.SetMemberships? ==> forall m :: m in e.op.all ==> forall i :: 0 <= i < |m.roles| ==>
      !IsPlatformRole(m.roles[i]))
    && (e.op.SetVendor? ==> forall i :: 0 <= i < |e.op.roles| ==> IsPlatformRole(e.op.roles[i]))
  }

  lemma CallsKeepTables(s: State, e: Event, ttl: int)
    requires e.op.SignIn? || e.op.Confirm? || e.op.NewPassword?
    ensures Step(s, e, ttl).memberships == s.memberships && Step(s, e, ttl).vendors == s.vendors
  {
    hide Step, Strings.TrimSpace, Actives, CanSignIn, S.Inserted, S.Bound, S.Resolved, S.RevokedAll, MembershipsOf,
         PlatformRolesOf, Failed, Rehashed, SuccessfulLogin, PasswordSet, ReauthStamped, PasswordDead,
         Passwd.Acceptable;
    StepIsCall(s, e, ttl);
  }

  lemma TablesKept(s: State, e: Event, ttl: int)
    requires !e.op.SetMemberships? && !e.op.SetVendor? && !e.op.CreateLogin?
    ensures Step(s, e, ttl).memberships == s.memberships && Step(s, e, ttl).vendors == s.vendors
  {
    hide Authenticate, Reauth, ChangePassword, CanSignIn, S.Bound, S.Resolved, S.RevokedAll, S.RevokedOne, S.Slid,
         S.Swept,
         MembershipAt, MembershipsOf;
    if e.op.SignIn? || e.op.Confirm? || e.op.NewPassword? {
      CallsKeepTables(s, e, ttl);
    }
  }

  lemma WorldsApartStep(s: State, e: Event, ttl: int)
    requires WorldsApart(s) && GrantsApart(e)
    ensures WorldsApart(Step(s, e, ttl))
  {
    hide Authenticate, SelectShop, ChangePassword, Reauth, SignOut, SignOutEverywhere;
    if !e.op.SetMemberships? && !e.op.SetVendor? && !e.op.CreateLogin? {
      TablesKept(s, e, ttl);
    }
  }

  lemma {:induction false} WorldsStayApart(s: State, es: seq<Event>, ttl: int)
    requires WorldsApart(s) && forall i :: 0 <= i < |es| ==> GrantsApart(es[i])
    ensures WorldsApart(Run(s, es, ttl))
  {
    hide Step, WorldsApart, GrantsApart;
    if es != [] {
      var k := |es| - 1;
      WorldsStayApart(s, es[..k], ttl);
      WorldsApartStep(Run(s, es[..k], ttl), es[k], ttl);
    }
  }

  /**
    In every reachable state no resolved actor is allowed both an action on a shop's business
    and an action on the platform, whatever resources are named.
   */
  lemma NoActorSpansWorlds(s: State, es: seq<Event>, ttl: int, token: Token, now: Time,
                           shop: Action, platform: Action, res: Resource, res': Resource)
    requires WorldsApart(s) && StaffOnly(s) && forall i :: 0 <= i < |es| ==> GrantsApart(es[i])
    requires shop in SHOP_ACTIONS && platform in PLATFORM_ACTIONS
    requires Resolve(Run(s, es, ttl), token, now).Some?
    ensures
      var actor := Resolve(Run(s, es, ttl), token, now).value;
      Can(false, actor, shop, res).Some? || Can(false, actor, platform, res').Some?
  {
    WorldsStayApart(s, es, ttl);
    StaffOnlyAlways(s, es, ttl);
    ActorHasOneWorld(Run(s, es, ttl), token, now);
    hide Run, Resolve, SHOP_ACTIONS, PLATFORM_ACTIONS, Can;
    OneWorldActor(Resolve(Run(s, es, ttl), token, now).value, shop, platform, res, res');
  }

  lemma ActorHasOneWorld(s: State, token: Token, now: Time)
    requires WorldsApart(s) && StaffOnly(s) && Resolve(s, token, now).Some?
    ensures OneWorld(Resolve(s, token, now).value.roles) && Resolve(s, token, now).value.kind == Admin
  {
    hide CanSignIn;
    var actor := Resolve(s, token, now).value;
    if actor.roles != [] {
      RolesComeFrom(s, token, now);
    }
  }
}
