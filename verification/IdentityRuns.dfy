/**
  Whole runs of the sign-in machine: service calls, the session sweeper and the environment
  (people blocked, memberships changed, logins created) interleave freely, each call atomic.
 */
module IdentityRuns {
  import opened Wrappers
  import opened Authz
  import opened Identity
  import S = SessionStore

  datatype Op =
    | SignIn(email: string, password: string, newToken: Token)
    | PickShop(token: Token, tenant: TenantId)
    | NewPassword(token: Token, current: string, next: string)
    | Confirm(token: Token, password: string)
    | Leave(token: Token)
    | LeaveEverywhere(token: Token)
    | Slide(token: Token, lastSeen: Time)
    | SweepSessions(retention: int)
    | EndSessions(id: IdentityId)
    | SetStatus(id: IdentityId, status: Status)
    | RaiseCosts(below: set<IdentityId>)
    | SetMemberships(id: IdentityId, all: seq<Membership>)
    | SetVendor(id: IdentityId, roles: seq<Role>)
    | CreateLogin(id: IdentityId, email: string, password: string, tenant: TenantId, expires: Time)

  datatype Event = Event(at: Time, op: Op)

  function FirstLogin(s: State, id: IdentityId, email: string, password: string, tenant: TenantId,
                      expires: Time): State {
    if id in s.people || email in s.byEmail then s
    else s.(people := s.people[id := Person(email, Active, Seal(password), true, Some(expires), 0, None, None, None)],
            byEmail := s.byEmail[email := id],
            memberships := s.memberships[id := MembershipsOf(s, id) + [Membership(tenant, Active, [Owner])]])
  }

  /** A hasher with higher costs is deployed: the hashes named are below one of them from now on. */
  function CostsRaised(people: People, below: set<IdentityId>): People {
    map id | id in people :: if id in below then people[id].(hash := Flagged(people[id].hash)) else people[id]
  }

  function Flagged(h: StoredHash): StoredHash {
    if h.Sealed? then h.(weak := true) else h
  }

  function Step(s: State, e: Event, ttl: int): State {
    match e.op
    case SignIn(email, password, token) => Authenticate(s, email, password, token, e.at, ttl).0
    case PickShop(token, t) => SelectShop(s, token, t, e.at).0
    case NewPassword(token, current, next) => ChangePassword(s, token, current, next, e.at).0
    case Confirm(token, password) => Reauth(s, token, password, e.at).0
    case Leave(token) => SignOut(s, token, e.at)
    case LeaveEverywhere(token) => SignOutEverywhere(s, token, e.at).0
    case Slide(token, lastSeen) => s.(sessions := S.Slid(s.sessions, token, lastSeen, e.at, ttl))
    case SweepSessions(retention) => s.(sessions := S.Swept(s.sessions, e.at, retention))
    case EndSessions(id) => s.(sessions := S.RevokedAll(s.sessions, id, e.at))
    case SetStatus(id, status) =>
      if id in s.people then s.(people := s.people[id := s.people[id].(status := status)]) else s
    case RaiseCosts(below) => s.(people := CostsRaised(s.people, below))
    case SetMemberships(id, all) => s.(memberships := s.memberships[id := all])
    case SetVendor(id, roles) => s.(vendors := s.vendors[id := roles])
    case CreateLogin(id, email, password, tenant, expires) => FirstLogin(s, id, email, password, tenant, expires)
  }

  function Run(s: State, es: seq<Event>, ttl: int): State {
    if es == [] then s else Step(Run(s, es[..|es| - 1], ttl), es[|es| - 1], ttl)
  }

  predicate Ordered(es: seq<Event>) {
    forall i, j :: 0 <= i < j < |es| ==> es[i].at <= es[j].at
  }

  // ----- what a step amounts to for one person

  /** The person whose password the event presents, when it gets as far as evaluating it. */
  function Evaluates(s: State, e: Event): Option<(IdentityId, string)> {
    match e.op
    case SignIn(email, password, _) =>
      var address := Strings.TrimSpace(email);
      if address in s.byEmail && s.byEmail[address] in s.people && CanSignIn(s.people[s.byEmail[address]], e.at).None?
      then Some((s.byEmail[address], password)) else None
    case Confirm(token, password) =>
      var session := S.Resolved(s.sessions, token, e.at);
      if session.Some? && session.value.identity in s.people && CanSignIn(s.people[session.value.identity], e.at).None?
      then Some((session.value.identity, password)) else None
    case _ => None
  }

  /** A wrong password for id evaluated by Authenticate or Reauth. */
  predicate WrongGuess(s: State, e: Event, id: IdentityId) {
    var guess := Evaluates(s, e);
    guess.Some? && guess.value.0 == id && id in s.people && !s.people[id].hash.Verifies(guess.value.1)
  }

  predicate SignsIn(s: State, e: Event, id: IdentityId, ttl: int) {
    && e.op.SignIn?
    && var r := Authenticate(s, e.op.email, e.op.password, e.op.newToken, e.at, ttl).1;
       r.Success? && r.value.id == id
  }

  predicate Reauths(s: State, e: Event, id: IdentityId) {
    && e.op.Confirm? && Reauth(s, e.op.token, e.op.password, e.at).1.Success?
    && S.Resolved(s.sessions, e.op.token, e.at).value.identity == id
  }

  predicate ChangesPassword(s: State, e: Event, id: IdentityId) {
    && e.op.NewPassword? && ChangePassword(s, e.op.token, e.op.current, e.op.next, e.at).1.Success?
    && S.Resolved(s.sessions, e.op.token, e.at).value.identity == id
  }

  predicate Succeeds(s: State, e: Event, id: IdentityId, ttl: int) {
    SignsIn(s, e, id, ttl) || Reauths(s, e, id) || ChangesPassword(s, e, id)
  }

  /** Everything a step can do to one person's row. */
  function PersonAfter(s: State, e: Event, id: IdentityId, ttl: int): Person
    requires id in s.people
  {
    var p := s.people[id];
    if SignsIn(s, e, id, ttl) then
      var q := Cleared(p, e.at);
      if p.hash.NeedsRehash() then WithHash(q, Seal(e.op.password)) else q
    else if Reauths(s, e, id) then Cleared(Stamped(p, e.at), e.at)
    else if ChangesPassword(s, e, id) then WithHash(p, Seal(e.op.next))
    else if WrongGuess(s, e, id) then Counted(p, LockFor(p, e.at))
    else if e.op.SetStatus? && e.op.id == id then p.(status := e.op.status)
    else if e.op.RaiseCosts? && id in e.op.below then p.(hash := Flagged(p.hash))
    else p
  }

  lemma StepIsCall(s: State, e: Event, ttl: int)
    ensures e.op.SignIn? ==>
      Step(s, e, ttl) == Authenticate(s, e.op.email, e.op.password, e.op.newToken, e.at, ttl).0
    ensures e.op.Confirm? ==> Step(s, e, ttl) == Reauth(s, e.op.token, e.op.password, e.at).0
    ensures e.op.NewPassword? ==>
      Step(s, e, ttl) == ChangePassword(s, e.op.token, e.op.current, e.op.next, e.at).0
  {
    hide Authenticate, Reauth, ChangePassword;
  }

  lemma SignInPerson(s: State, e: Event, id: IdentityId, ttl: int)
    requires id in s.people && e.op.SignIn?
    ensures id in Step(s, e, ttl).people && Step(s, e, ttl).people[id] == PersonAfter(s, e, id, ttl)
  {
    StepIsCall(s, e, ttl);
    AuthenticatePerson(s, e, id, ttl);
    hide Step, Authenticate, SignsIn, WrongGuess, Cleared, WithHash, Counted, Stamped, LockFor, Seal;
  }

  lemma AuthenticatePerson(s: State, e: Event, id: IdentityId, ttl: int)
    requires id in s.people && e.op.SignIn?
    ensures
      var p, people := s.people[id], Authenticate(s, e.op.email, e.op.password, e.op.newToken, e.at, ttl).0.people;
      && id in people
      && people[id] == (if SignsIn(s, e, id, ttl)
                        then (if p.hash.NeedsRehash() then WithHash(Cleared(p, e.at), Seal(e.op.password))
                        else Cleared(p, e.at))
                        else if WrongGuess(s, e, id) then Counted(p, LockFor(p, e.at)) else p)
  {
    hide Step, Strings.TrimSpace, Actives, S.Inserted, S.Bound, PlatformRolesOf, MembershipsOf, Cleared, WithHash,
         Counted, LockFor, CanSignIn, PasswordDead, Seal;
  }

  lemma ConfirmPerson(s: State, e: Event, id: IdentityId, ttl: int)
    requires id in s.people && e.op.Confirm?
    ensures id in Step(s, e, ttl).people && Step(s, e, ttl).people[id] == PersonAfter(s, e, id, ttl)
  {
    StepIsCall(s, e, ttl);
    ReauthPerson(s, e, id);
    hide Step, Reauth, Reauths, WrongGuess, Cleared, WithHash, Counted, Stamped, LockFor;
  }

  lemma ReauthPerson(s: State, e: Event, id: IdentityId)
    requires id in s.people && e.op.Confirm?
    ensures
      var p, people := s.people[id], Reauth(s, e.op.token, e.op.password, e.at).0.people;
      && id in people
      && people[id] == (if Reauths(s, e, id) then Cleared(Stamped(p, e.at), e.at)
                        else if WrongGuess(s, e, id) then Counted(p, LockFor(p, e.at)) else p)
  {
    hide S.Resolved, Cleared, WithHash, Counted, Stamped, LockFor, CanSignIn;
  }

  lemma NewPasswordPerson(s: State, e: Event, id: IdentityId, ttl: int)
    requires id in s.people && e.op.NewPassword?
    ensures id in Step(s, e, ttl).people && Step(s, e, ttl).people[id] == PersonAfter(s, e, id, ttl)
  {
    hide Step, S.Resolved, S.RevokedAll, Passwd.Acceptable, Cleared, WithHash, Counted, Stamped, LockFor, Seal;
    StepIsCall(s, e, ttl);
  }

  /** Calls and environment steps that leave the people table alone. */
  predicate KeepsPeople(op: Op) {
    !op.SignIn? && !op.Confirm? && !op.NewPassword? && !op.SetStatus? && !op.CreateLogin? && !op.RaiseCosts?
  }

  lemma PeopleKept(s: State, e: Event, ttl: int)
    requires KeepsPeople(e.op)
    ensures Step(s, e, ttl).people == s.people
  {
    hide S.Resolved, S.RevokedAll, S.RevokedOne, S.Bound, S.Slid, S.Swept, MembershipAt, CanSignIn,
         Authenticate, Reauth, ChangePassword, FirstLogin, MembershipsOf;
  }

  lemma NobodyActs(s: State, e: Event, id: IdentityId, ttl: int)
    requires id in s.people && !e.op.SignIn? && !e.op.Confirm? && !e.op.NewPassword?
    ensures PersonAfter(s, e, id, ttl) ==
      if e.op.SetStatus? && e.op.id == id then s.people[id].(status := e.op.status)
      else if e.op.RaiseCosts? && id in e.op.below then s.people[id].(hash := Flagged(s.people[id].hash))
      else s.people[id]
  {
    hide Authenticate, Reauth, ChangePassword, S.Resolved, CanSignIn, Cleared, WithHash, Counted, Stamped, LockFor,
         Seal;
  }

  /** Nothing but these cases changes a person, and nobody is ever removed. */
  lemma StepPerson(s: State, e: Event, id: IdentityId, ttl: int)
    requires id in s.people
    ensures id in Step(s, e, ttl).people && Step(s, e, ttl).people[id] == PersonAfter(s, e, id, ttl)
  {
    hide PersonAfter, Authenticate, Reauth, ChangePassword, SelectShop, SignOutEverywhere, SignOut;
    if e.op.SignIn? {
      SignInPerson(s, e, id, ttl);
    } else if e.op.Confirm? {
      ConfirmPerson(s, e, id, ttl);
    } else if e.op.NewPassword? {
      NewPasswordPerson(s, e, id, ttl);
    } else {
      NobodyActs(s, e, id, ttl);
      if KeepsPeople(e.op) {
        PeopleKept(s, e, ttl);
      }
    }
  }

  lemma ActingKeepsKeys(s: State, e: Event, ttl: int)
    requires e.op.SignIn? || e.op.Confirm? || e.op.NewPassword?
    ensures Step(s, e, ttl).people.Keys == s.people.Keys
  {
    hide Step, Authenticate, Reauth, ChangePassword;
    StepIsCall(s, e, ttl);
    match e.op
    case SignIn(email, password, token) => AuthenticateKeepsKeys(s, email, password, token, e.at, ttl);
    case Confirm(token, password) => ReauthKeepsKeys(s, token, password, e.at);
    case NewPassword(token, current, next) => ChangeKeepsKeys(s, token, current, next, e.at);
  }

  lemma AuthenticateKeepsKeys(s: State, email: string, password: string, token: Token, now: Time, ttl: int)
    ensures Authenticate(s, email, password, token, now, ttl).0.people.Keys == s.people.Keys
  {
    hide Strings.TrimSpace, Actives, S.Bound, S.Inserted, CanSignIn, PlatformRolesOf, MembershipsOf, PasswordDead,
         Failed, Rehashed, SuccessfulLogin;
    UpdatesKeepKeys();
  }

  lemma ReauthKeepsKeys(s: State, token: Token, password: string, now: Time)
    ensures Reauth(s, token, password, now).0.people.Keys == s.people.Keys
  {
    hide S.Resolved, CanSignIn, Failed, SuccessfulLogin, ReauthStamped;
    UpdatesKeepKeys();
  }

  lemma ChangeKeepsKeys(s: State, token: Token, current: string, next: string, now: Time)
    ensures ChangePassword(s, token, current, next, now).0.people.Keys == s.people.Keys
  {
    hide S.Resolved, S.RevokedAll, Passwd.Acceptable, PasswordSet;
    UpdatesKeepKeys();
  }

  /** Each update statement writes only rows that are there. */
  lemma UpdatesKeepKeys()
    ensures forall people, id, p, now :: Failed(people, id, p, now).Keys == people.Keys
    ensures forall people, id, at :: SuccessfulLogin(people, id, at).Keys == people.Keys
    ensures forall people, id, at :: ReauthStamped(people, id, at).Keys == people.Keys
    ensures forall people, id, hash :: PasswordSet(people, id, hash).Keys == people.Keys
    ensures forall people, id, hash, password :: Rehashed(people, id, hash, password).Keys == people.Keys
  {
    hide Cleared, WithHash, Counted, Stamped, LockFor, Seal;
  }

  /** A person who appears in a step is a new login with a clean counter and a forced change. */
  lemma StepNewcomer(s: State, e: Event, id: IdentityId, ttl: int)
    requires id !in s.people && id in Step(s, e, ttl).people
    ensures e.op.CreateLogin? && e.op.id == id
    ensures Step(s, e, ttl).people[id] ==
      Person(e.op.email, Active, Seal(e.op.password), true, Some(e.op.expires), 0, None, None, None)
  {
    hide Authenticate, Reauth, ChangePassword, SelectShop, SignOutEverywhere, SignOut, MembershipsOf, Seal;
    if KeepsPeople(e.op) {
      PeopleKept(s, e, ttl);
    } else if e.op.SignIn? || e.op.Confirm? || e.op.NewPassword? {
      ActingKeepsKeys(s, e, ttl);
    }
  }

  // ----- the lockout bound

  function WrongGuesses(s: State, es: seq<Event>, id: IdentityId, ttl: int): nat {
    if es == [] then 0
    else
      var k := |es| - 1;
      WrongGuesses(s, es[..k], id, ttl) + if WrongGuess(Run(s, es[..k], ttl), es[k], id) then 1 else 0
  }

  predicate NoSuccess(s: State, es: seq<Event>, id: IdentityId, ttl: int) {
    forall n :: 0 <= n < |es| ==> !Succeeds(Run(s, es[..n], ttl), es[n], id, ttl)
  }

  /** How many wrong guesses a failure count and a lock still leave room for until `end`. */
  function Room(failed: nat, lock: Option<Time>, now: Time, end: Time): nat {
    var open := if lock.Some? && lock.value > now then lock.value else now;
    (if failed + 1 < MAX_FAILED_LOGINS then MAX_FAILED_LOGINS - 1 - failed else 0)
    + (if open <= end then 1 + (end - open) / LOCKOUT else 0)
  }

  function RoomFor(s: State, id: IdentityId, now: Time, end: Time): nat {
    if id in s.people then Room(s.people[id].failedLogins, s.people[id].lockedUntil, now, end)
    else Room(0, None, now, end)
  }

  lemma RoomShrinks(failed: nat, lock: Option<Time>, now: Time, later: Time, end: Time)
    requires now <= later
    ensures Room(failed, lock, later, end) <= Room(failed, lock, now, end)
  {
  }

  /** A counted failure uses up room: one slot before the limit, a whole lockout after it. */
  lemma FailureUsesRoom(p: Person, now: Time, end: Time)
    requires now <= end && CanSignIn(p, now).None?
    ensures
      var lock := if p.failedLogins + 1 >= MAX_FAILED_LOGINS then Some(now + LOCKOUT) else p.lockedUntil;
      Room(p.failedLogins + 1, lock, now, end) + 1 <= Room(p.failedLogins, p.lockedUntil, now, end)
  {
  }

  lemma StepUsesRoom(s: State, e: Event, id: IdentityId, ttl: int, end: Time)
    requires e.at <= end && !Succeeds(s, e, id, ttl)
    ensures RoomFor(Step(s, e, ttl), id, e.at, end) + (if WrongGuess(s, e, id) then 1 else 0) <=
      RoomFor(s, id, e.at, end)
  {
    hide Step, SignsIn, Reauths, ChangesPassword, CanSignIn, Room, WrongGuess;
    WrongGuessIsOpen(s, e, id);
    if id in s.people {
      StepPerson(s, e, id, ttl);
      if WrongGuess(s, e, id) {
        FailureUsesRoom(s.people[id], e.at, end);
      }
    } else if id in Step(s, e, ttl).people {
      StepNewcomer(s, e, id, ttl);
    }
  }

  lemma WrongGuessIsOpen(s: State, e: Event, id: IdentityId)
    ensures WrongGuess(s, e, id) ==> id in s.people && CanSignIn(s.people[id], e.at).None?
  {
    hide Strings.TrimSpace, S.Resolved;
  }

  lemma {:induction false} RunUsesRoom(s: State, es: seq<Event>, id: IdentityId, ttl: int, start: Time, now: Time,
                                       end: Time)
    requires Ordered(es) && NoSuccess(s, es, id, ttl) && start <= now <= end
    requires forall i :: 0 <= i < |es| ==> start <= es[i].at <= now
    ensures WrongGuesses(s, es, id, ttl) + RoomFor(Run(s, es, ttl), id, now, end) <= RoomFor(s, id, start, end)
  {
    hide Step, Succeeds, WrongGuess, Room;
    if es == [] {
      RoomForShrinks(s, id, start, now, end);
    } else {
      var k := |es| - 1;
      var e := es[k];
      assert forall n :: 0 <= n < k ==> es[..k][..n] == es[..n];
      RunUsesRoom(s, es[..k], id, ttl, start, e.at, end);
      StepUsesRoom(Run(s, es[..k], ttl), e, id, ttl, end);
      RoomForShrinks(Run(s, es, ttl), id, e.at, now, end);
    }
  }

  lemma RoomForShrinks(s: State, id: IdentityId, now: Time, later: Time, end: Time)
    requires now <= later
    ensures RoomFor(s, id, later, end) <= RoomFor(s, id, now, end)
  {
    hide Room;
    if id in s.people {
      RoomShrinks(s.people[id].failedLogins, s.people[id].lockedUntil, now, later, end);
    } else {
      RoomShrinks(0, None, now, later, end);
    }
  }

  /**
    The lockout bound. In any stretch of a run with no success for a person, from any starting
    state and whatever else happens in between, Authenticate and Reauth together evaluate at
    most 5 + T / 15 min wrong passwords for that person in an interval of length T.
   */
  lemma LockoutBound(s: State, es: seq<Event>, id: IdentityId, ttl: int, start: Time, end: Time)
    requires Ordered(es) && NoSuccess(s, es, id, ttl) && start <= end
    requires forall i :: 0 <= i < |es| ==> start <= es[i].at <= end
    ensures WrongGuesses(s, es, id, ttl) <= MAX_FAILED_LOGINS + (end - start) / LOCKOUT
  {
    RunUsesRoom(s, es, id, ttl, start, end, end);
    RoomAtMost(s, id, start, end);
  }

  lemma RoomAtMost(s: State, id: IdentityId, start: Time, end: Time)
    requires start <= end
    ensures RoomFor(s, id, start, end) <= MAX_FAILED_LOGINS + (end - start) / LOCKOUT
  {
  }

  // ----- what a lock does and how it ends

  predicate LockedAt(s: State, id: IdentityId, now: Time) {
    id in s.people && s.people[id].lockedUntil.Some? && now < s.people[id].lockedUntil.value
  }

  /** During a lock nothing is evaluated, so trying neither extends it nor changes anything. */
  lemma LockedAttemptsChangeNothing(s: State, e: Event, id: IdentityId, ttl: int)
    requires LockedAt(s, id, e.at)
    requires e.op.SignIn? ==>
      Strings.TrimSpace(e.op.email) in s.byEmail && s.byEmail[Strings.TrimSpace(e.op.email)] == id
    requires e.op.Confirm? ==>
      S.Resolved(s.sessions, e.op.token, e.at).Some? && S.Resolved(s.sessions, e.op.token, e.at).value.identity == id
    requires e.op.SignIn? || e.op.Confirm?
    ensures Step(s, e, ttl) == s && !WrongGuess(s, e, id) && !Succeeds(s, e, id, ttl)
  {
    hide Strings.TrimSpace;
  }

  /** The only step that touches a running lock is a successful password change, which lifts it. */
  lemma LockLiftedOnlyByPasswordChange(s: State, e: Event, id: IdentityId, ttl: int)
    requires LockedAt(s, id, e.at)
    ensures id in Step(s, e, ttl).people
    ensures Step(s, e, ttl).people[id].lockedUntil != s.people[id].lockedUntil <==> ChangesPassword(s, e, id)
    ensures ChangesPassword(s, e, id) ==> Step(s, e, ttl).people[id].lockedUntil == None
  {
    StepPerson(s, e, id, ttl);
    WrongGuessIsOpen(s, e, id);
    LockStopsSuccess(s, e, id, ttl);
    hide Step, SignsIn, Reauths, ChangesPassword, WrongGuess;
  }

  lemma LockStopsSuccess(s: State, e: Event, id: IdentityId, ttl: int)
    requires LockedAt(s, id, e.at)
    ensures !SignsIn(s, e, id, ttl) && !Reauths(s, e, id)
  {
    hide Strings.TrimSpace, S.Resolved, Actives, S.Bound, S.Inserted;
  }

  predicate LocksBounded(s: State, now: Time) {
    forall id :: id in s.people && s.people[id].lockedUntil.Some? ==> s.people[id].lockedUntil.value <= now + LOCKOUT
  }

  lemma LocksBoundedStep(s: State, e: Event, ttl: int)
    requires LocksBounded(s, e.at)
    ensures LocksBounded(Step(s, e, ttl), e.at)
  {
    hide Step, SignsIn, Reauths, ChangesPassword, WrongGuess;
    forall id | id in Step(s, e, ttl).people && Step(s, e, ttl).people[id].lockedUntil.Some?
      ensures Step(s, e, ttl).people[id].lockedUntil.value <= e.at + LOCKOUT
    {
      if id in s.people {
        StepPerson(s, e, id, ttl);
      } else {
        StepNewcomer(s, e, id, ttl);
      }
    }
  }

  /** No lock ever reaches further ahead than fifteen minutes: a lockout is never permanent. */
  lemma {:induction false} LocksStayBounded(s: State, es: seq<Event>, ttl: int, start: Time, now: Time)
    requires Ordered(es) && LocksBounded(s, start) && start <= now
    requires forall i :: 0 <= i < |es| ==> start <= es[i].at <= now
    ensures LocksBounded(Run(s, es, ttl), now)
  {
    hide Step;
    if es != [] {
      var k := |es| - 1;
      LocksStayBounded(s, es[..k], ttl, start, es[k].at);
      LocksBoundedStep(Run(s, es[..k], ttl), es[k], ttl);
    }
  }

  /** What a sign-in of this person has to present, and how the person has to stand. */
  predicate EarnsSignIn(s: State, e: Event, id: IdentityId) {
    && e.op.SignIn? && id in s.people
    && Strings.TrimSpace(e.op.email) in s.byEmail && s.byEmail[Strings.TrimSpace(e.op.email)] == id
    && s.people[id].hash.Verifies(e.op.password) && e.op.newToken !in s.sessions
    && s.people[id].status == Active && !LockedAt(s, id, e.at) && !PasswordDead(s.people[id], e.at)
  }

  lemma SignsInIff(s: State, e: Event, id: IdentityId, ttl: int)
    ensures SignsIn(s, e, id, ttl) <==> EarnsSignIn(s, e, id)
  {
    hide Strings.TrimSpace, Actives;
  }

  /**
    What a password change of this person has to present: a live session, the right current
    password, and an acceptable new one that differs. How the person stands is not asked.
   */
  predicate EarnsChange(s: State, e: Event, id: IdentityId) {
    && e.op.NewPassword? && id in s.people
    && e.op.token != "" && e.op.token in s.sessions && S.Live(s.sessions[e.op.token], e.at)
    && s.sessions[e.op.token].identity == id && s.people[id].hash.Verifies(e.op.current)
    && Passwd.Acceptable(e.op.next) && !s.people[id].hash.Verifies(e.op.next)
  }

  lemma ChangesPasswordIff(s: State, e: Event, id: IdentityId)
    ensures ChangesPassword(s, e, id) <==> EarnsChange(s, e, id)
  {
    hide Passwd.Acceptable, S.RevokedAll;
  }

  /** Once the lock has run out, the right password of an active person signs in again. */
  lemma RightPasswordSignsIn(s: State, e: Event, id: IdentityId, ttl: int)
    requires e.op.SignIn? && Strings.TrimSpace(e.op.email) in s.byEmail &&
      s.byEmail[Strings.TrimSpace(e.op.email)] == id
    requires id in s.people && s.people[id].hash.Verifies(e.op.password) && e.op.newToken !in s.sessions
    ensures SignsIn(s, e, id, ttl) <==>
      s.people[id].status == Active && !LockedAt(s, id, e.at) && !PasswordDead(s.people[id], e.at)
  {
    SignsInIff(s, e, id, ttl);
    hide Strings.TrimSpace, SignsIn;
  }

  lemma KeptOrNew(s: State, e: Event, id: IdentityId, ttl: int)
    ensures id in s.people ==> id in Step(s, e, ttl).people && Step(s, e, ttl).people[id].email == s.people[id].email
    ensures id !in s.people && id in Step(s, e, ttl).people ==>
      e.op.CreateLogin? && e.op.id == id && Step(s, e, ttl).people[id].email == e.op.email
  {
    hide Step, SignsIn, Reauths, ChangesPassword, WrongGuess, LockFor, Seal;
    if id in s.people {
      StepPerson(s, e, id, ttl);
    } else if id in Step(s, e, ttl).people {
      StepNewcomer(s, e, id, ttl);
    }
  }

  lemma CallsKeepAddresses(s: State, e: Event, ttl: int)
    requires e.op.SignIn? || e.op.Confirm? || e.op.NewPassword?
    ensures Step(s, e, ttl).byEmail == s.byEmail
  {
    hide Step, Strings.TrimSpace, Actives, CanSignIn, S.Inserted, S.Bound, S.Resolved, S.RevokedAll, MembershipsOf,
         PlatformRolesOf, Failed, Rehashed, SuccessfulLogin, PasswordSet, ReauthStamped, PasswordDead;
    StepIsCall(s, e, ttl);
  }

  lemma AddressesKept(s: State, e: Event, ttl: int)
    ensures Step(s, e, ttl).byEmail ==
      if e.op.CreateLogin? && e.op.id !in s.people && e.op.email !in s.byEmail then s.byEmail[e.op.email := e.op.id]
      else s.byEmail
    ensures e.op.CreateLogin? && (e.op.id in s.people || e.op.email in s.byEmail) ==> Step(s, e, ttl) == s
    ensures e.op.CreateLogin? ==> e.op.id in Step(s, e, ttl).people || e.op.email in s.byEmail
  {
    hide Authenticate, Reauth, ChangePassword, CanSignIn, S.Bound, S.Resolved, S.RevokedAll, S.RevokedOne, S.Slid,
         S.Swept, MembershipAt, MembershipsOf, CostsRaised, Seal;
    if e.op.SignIn? || e.op.Confirm? || e.op.NewPassword? {
      CallsKeepAddresses(s, e, ttl);
    }
  }

  /** Every step keeps the index of addresses: each leads to the one person who has it. */
  lemma IndexKept(s: State, e: Event, ttl: int)
    requires Indexed(s.people, s.byEmail)
    ensures Indexed(Step(s, e, ttl).people, Step(s, e, ttl).byEmail)
  {
    hide Step;
    AddressesKept(s, e, ttl);
    forall id
      ensures id in s.people ==>
        id in Step(s, e, ttl).people && Step(s, e, ttl).people[id].email == s.people[id].email
      ensures id !in s.people && id in Step(s, e, ttl).people ==>
        e.op.CreateLogin? && e.op.id == id && Step(s, e, ttl).people[id].email == e.op.email
    {
      KeptOrNew(s, e, id, ttl);
    }
  }
}
