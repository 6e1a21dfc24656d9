/**
  What each call of the identity service promises, spelt out on the tables: who is let in and
  who is refused with what, what a success leaves behind, and as whom a token acts.
 */
module IdentityCalls {
  import opened Wrappers
  import opened Authz
  import opened Identity
  import opened IdentityRuns
  import Passwd
  import Strings
  import S = SessionStore

  // ----- the tables, read directly

  /** The session is there, not revoked, and not expired. */
  predicate LiveSession(s: State, token: Token, now: Time) {
    token != "" && token in s.sessions && s.sessions[token].revoked.None? && now < s.sessions[token].expires
  }

  /** The person whose live session this is. */
  predicate Owns(s: State, token: Token, now: Time, id: IdentityId) {
    LiveSession(s, token, now) && s.sessions[token].identity == id
  }

  predicate Unlocked(p: Person, now: Time) {
    p.lockedUntil.None? || p.lockedUntil.value <= now
  }

  predicate Knows(p: Person, password: string) {
    p.hash.Sealed? && p.hash.password == password
  }

  predicate IssuedPasswordDead(p: Person, now: Time) {
    p.passwordExpires.Some? && p.passwordExpires.value <= now
  }

  predicate IsVendor(s: State, id: IdentityId) {
    id in s.vendors && s.vendors[id] != []
  }

  /** The first active membership of that shop is at position i. */
  predicate FirstActive(all: seq<Membership>, t: TenantId, i: nat) {
    && i < |all| && all[i].tenant == t && all[i].status == Active
    && forall j :: 0 <= j < i ==> all[j].tenant != t || all[j].status != Active
  }

  /** The only active membership, of whatever shop, is at position i. */
  predicate OnlyActive(all: seq<Membership>, i: nat) {
    && i < |all| && all[i].status == Active
    && forall j :: 0 <= j < |all| && j != i ==> all[j].status != Active
  }

  predicate HasMemberships(s: State, id: IdentityId, all: seq<Membership>) {
    if id in s.memberships then s.memberships[id] == all else all == []
  }

  /** Only this person's row has changed. */
  predicate OnlyPerson(s: State, s': State, id: IdentityId) {
    && s'.people.Keys == s.people.Keys
    && (forall other :: other in s.people && other != id ==> s'.people[other] == s.people[other])
    && s'.byEmail == s.byEmail && s'.memberships == s.memberships && s'.vendors == s.vendors
  }

  // ----- who is let in

  /** Why a person may not act, or that they may. */
  lemma StandingDecides(p: Person, now: Time)
    ensures CanSignIn(p, now) == Some(IsBlocked) <==> p.status == Blocked
    ensures CanSignIn(p, now) == Some(NotActive) <==> p.status != Blocked && p.status != Active
    ensures CanSignIn(p, now) == Some(LockedOut) <==> p.status == Active && !Unlocked(p, now)
    ensures CanSignIn(p, now).None? <==> p.status == Active && Unlocked(p, now)
  {
  }

  lemma MembershipAtFirst(all: seq<Membership>, t: TenantId, i: nat)
    requires FirstActive(all, t, i)
    ensures MembershipAt(all, t) == Some(all[i])
    decreases all
  {
    if i > 0 {
      MembershipAtFirst(all[1..], t, i - 1);
    }
  }

  lemma {:induction false} ActivesOfOne(all: seq<Membership>, i: nat)
    requires OnlyActive(all, i)
    ensures Actives(all) == [all[i]]
  {
    var k := |all| - 1;
    if i == k {
      NoActives(all[..k]);
    } else {
      ActivesOfOne(all[..k], i);
    }
  }

  lemma {:induction false} NoActives(all: seq<Membership>)
    requires forall j :: 0 <= j < |all| ==> all[j].status != Active
    ensures Actives(all) == []
  {
    if all != [] {
      NoActives(all[..|all| - 1]);
    }
  }

  lemma {:induction false} OneOfActives(all: seq<Membership>)
    requires |Actives(all)| == 1
    ensures exists i :: 0 <= i < |all| && OnlyActive(all, i)
  {
    var k := |all| - 1;
    if all[k].status == Active {
      AllInactive(all[..k]);
      assert OnlyActive(all, k);
    } else {
      OneOfActives(all[..k]);
      var i :| 0 <= i < k && OnlyActive(all[..k], i);
      assert OnlyActive(all, i);
    }
  }

  lemma {:induction false} AllInactive(all: seq<Membership>)
    requires Actives(all) == []
    ensures forall j :: 0 <= j < |all| ==> all[j].status != Active
  {
    if all != [] {
      AllInactive(all[..|all| - 1]);
    }
  }

  // ----- signing in

  /** Each refusal of a sign-in has exactly its own reason, and in this order. */
  lemma SignInRefusals(s: State, email: string, password: string, token: Token, now: Time, ttl: int)
    ensures
      var address, r := Strings.TrimSpace(email), Authenticate(s, email, password, token, now, ttl).1;
      if address !in s.byEmail || s.byEmail[address] !in s.people then r == Failure(NoSuchUser)
      else
        var p := s.people[s.byEmail[address]];
        var free := p.status == Active && Unlocked(p, now);
        && (r == Failure(IsBlocked) <==> p.status == Blocked)
        && (r == Failure(NotActive) <==> p.status != Blocked && p.status != Active)
        && (r == Failure(LockedOut) <==> p.status == Active && !Unlocked(p, now))
        && (r == Failure(BadPassword) <==> free && !Knows(p, password))
        && (r == Failure(PasswordExpired) <==> free && Knows(p, password) && IssuedPasswordDead(p, now))
        && (r.Success? <==>
              free && Knows(p, password) && !IssuedPasswordDead(p, now) && token !in s.sessions)
  {
    hide Strings.TrimSpace, Actives, S.Inserted, S.Bound, Failed, SuccessfulLogin, Rehashed;
  }

  /** A sign-in that is refused for anything but its password leaves everything as it was. */
  lemma RefusedSignInLeaves(s: State, email: string, password: string, token: Token, now: Time, ttl: int)
    ensures
      var (s', r) := Authenticate(s, email, password, token, now, ttl);
      r.Failure? && r.error != BadPassword ==> s' == s
  {
    hide Strings.TrimSpace, Actives, S.Inserted, S.Bound, Failed, SuccessfulLogin, Rehashed;
  }

  /**
    What a sign-in leaves: a clean counter and no lock, a strong hash of the same password, and a
    new staff session with a full ttl. A person with a flagged hash also sheds the forced change.
   */
  lemma SignInLeaves(s: State, email: string, password: string, token: Token, now: Time, ttl: int)
    requires Authenticate(s, email, password, token, now, ttl).1.Success?
    ensures
      var (s', r) := Authenticate(s, email, password, token, now, ttl);
      var id := r.value.id;
      && id in s.people && OnlyPerson(s, s', id)
      && var p, q := s.people[id], s'.people[id];
         && q.failedLogins == 0 && q.lockedUntil == None && q.lastLogin == Some(now)
         && q.hash == Sealed(password, false) && q.email == p.email && q.status == p.status
         && q.lastReauth == p.lastReauth
         && q.mustChange == (p.mustChange && !p.hash.weak)
         && q.passwordExpires == (if p.hash.weak then None else p.passwordExpires)
  {
    hide Strings.TrimSpace, Actives, S.Inserted, S.Bound, MembershipsOf, PlatformRolesOf;
  }

  /**
    The session a sign-in issues: the person's, of staff, living for a ttl. A sole active
    membership is bound at once, unless a change is forced or the person is the vendor's.
   */
  lemma SignInIssues(s: State, email: string, password: string, token: Token, now: Time, ttl: int,
                     all: seq<Membership>)
    requires Authenticate(s, email, password, token, now, ttl).1.Success?
    requires HasMemberships(s, Authenticate(s, email, password, token, now, ttl).1.value.id, all)
    ensures
      var (s', r) := Authenticate(s, email, password, token, now, ttl);
      var id := r.value.id;
      && r.value.token == token && token in s'.sessions && s'.sessions == s.sessions[token := s'.sessions[token]]
      && var row := s'.sessions[token];
         && row == S.Row(id, row.tenant, Admin, now, now, now + ttl, None)
         && id in s.people
         && forall t :: row.tenant == Some(t) <==>
              !s.people[id].mustChange && !IsVendor(s, id) &&
                exists i :: 0 <= i < |all| && OnlyActive(all, i) && all[i].tenant == t
  {
    hide Strings.TrimSpace, Actives, SuccessfulLogin, Rehashed, Failed, OnlyActive;
    var (s', r) := Authenticate(s, email, password, token, now, ttl);
    var active := Actives(all);
    assert MembershipsOf(s, r.value.id) == all;
    if i :| 0 <= i < |all| && OnlyActive(all, i) {
      ActivesOfOne(all, i);
      OnlyOne(all, i);
    }
    if |active| == 1 {
      OneOfActives(all);
    }
  }

  lemma OnlyOne(all: seq<Membership>, i: nat)
    requires OnlyActive(all, i)
    ensures forall j :: 0 <= j < |all| && OnlyActive(all, j) ==> j == i
  {
  }

  /** What the caller is told: the active memberships, the vendor roles, and what is still to do. */
  lemma SignInTells(s: State, email: string, password: string, token: Token, now: Time, ttl: int,
                    all: seq<Membership>)
    requires Authenticate(s, email, password, token, now, ttl).1.Success?
    requires HasMemberships(s, Authenticate(s, email, password, token, now, ttl).1.value.id, all)
    ensures
      var told := Authenticate(s, email, password, token, now, ttl).1.value;
      && told.id in s.people && told.mustChange == s.people[told.id].mustChange
      && (forall m :: m in told.memberships <==> m in all && m.status == Active)
      && told.platformRoles == (if told.id in s.vendors then s.vendors[told.id] else [])
      && (told.needsShopSelection <==> TwoActive(all))
  {
    hide Strings.TrimSpace, Actives, SuccessfulLogin, Rehashed, Failed, S.Inserted, S.Bound;
    var told := Authenticate(s, email, password, token, now, ttl).1.value;
    assert MembershipsOf(s, told.id) == all;
    ActivesSound(all);
    CountedActives(all);
  }

  predicate SomeActive(all: seq<Membership>) {
    exists i :: 0 <= i < |all| && all[i].status == Active
  }

  predicate TwoActive(all: seq<Membership>) {
    exists i, j :: 0 <= i < j < |all| && all[i].status == Active && all[j].status == Active
  }

  lemma SomeActiveStep(all: seq<Membership>, last: Membership)
    ensures SomeActive(all + [last]) <==> SomeActive(all) || last.status == Active
  {
    var more := all + [last];
    assert more[|all|] == last && forall i :: 0 <= i < |all| ==> more[i] == all[i];
  }

  lemma TwoActiveStep(all: seq<Membership>, last: Membership)
    ensures TwoActive(all + [last]) <==> TwoActive(all) || (SomeActive(all) && last.status == Active)
  {
    var more := all + [last];
    assert more[|all|] == last && forall i :: 0 <= i < |all| ==> more[i] == all[i];
    if TwoActive(all) {
      var i, j :| 0 <= i < j < |all| && all[i].status == Active && all[j].status == Active;
      assert more[i].status == Active && more[j].status == Active;
    }
    if SomeActive(all) && last.status == Active {
      var i :| 0 <= i < |all| && all[i].status == Active;
      assert more[i].status == Active && more[|all|].status == Active;
    }
  }

  lemma {:induction false} CountedActives(all: seq<Membership>)
    ensures |Actives(all)| > 1 <==> TwoActive(all)
    ensures |Actives(all)| > 0 <==> SomeActive(all)
  {
    if all != [] {
      var k := |all| - 1;
      CountedActives(all[..k]);
      SomeActiveStep(all[..k], all[k]);
      TwoActiveStep(all[..k], all[k]);
      assert all[..k] + [all[k]] == all;
      hide SomeActive, TwoActive;
    }
  }

  // ----- wrong passwords

  /** Exactly when a wrong password is counted: somebody free to act presents what is not theirs. */
  lemma WrongGuessIff(s: State, e: Event, id: IdentityId)
    ensures WrongGuess(s, e, id) <==>
      && id in s.people && s.people[id].status == Active && Unlocked(s.people[id], e.at)
      && match e.op
         case SignIn(email, password, _) =>
           && Strings.TrimSpace(email) in s.byEmail && s.byEmail[Strings.TrimSpace(email)] == id
           && !Knows(s.people[id], password)
         case Confirm(token, password) => Owns(s, token, e.at, id) && !Knows(s.people[id], password)
         case _ => false
  {
    hide Strings.TrimSpace;
  }

  /** One more failure for this person, a lock of fifteen minutes from the fifth on, and nothing else. */
  predicate Counts(s: State, s': State, id: IdentityId, now: Time) {
    && id in s.people && OnlyPerson(s, s', id) && s'.sessions == s.sessions
    && s'.people[id] == s.people[id].(
         failedLogins := s.people[id].failedLogins + 1,
         lockedUntil := if s.people[id].failedLogins + 1 >= 5 then Some(now + 900_000_000_000)
                        else s.people[id].lockedUntil)
  }

  lemma FailureCounts(s: State, id: IdentityId, now: Time)
    requires id in s.people
    ensures Counts(s, s.(people := Failed(s.people, id, s.people[id], now)), id, now)
  {
  }

  lemma WrongSignInCounts(s: State, e: Event, id: IdentityId, ttl: int)
    requires WrongGuess(s, e, id) && e.op.SignIn?
    ensures Counts(s, Step(s, e, ttl), id, e.at)
  {
    FailureCounts(s, id, e.at);
    StepIsCall(s, e, ttl);
    hide Step, Strings.TrimSpace, Actives, S.Inserted, S.Bound, SuccessfulLogin, Rehashed, Failed, Counts;
  }

  lemma WrongReauthCounts(s: State, e: Event, id: IdentityId, ttl: int)
    requires WrongGuess(s, e, id) && e.op.Confirm?
    ensures Counts(s, Step(s, e, ttl), id, e.at)
  {
    FailureCounts(s, id, e.at);
    StepIsCall(s, e, ttl);
    hide Step, SuccessfulLogin, ReauthStamped, Failed, Counts;
  }

  /** It counts one more failure, and from the fifth on locks for fifteen minutes. */
  lemma WrongGuessLeaves(s: State, e: Event, id: IdentityId, ttl: int)
    requires WrongGuess(s, e, id)
    ensures Counts(s, Step(s, e, ttl), id, e.at)
  {
    if e.op.SignIn? {
      WrongSignInCounts(s, e, id, ttl);
    } else {
      WrongReauthCounts(s, e, id, ttl);
    }
    hide Step, Counts;
  }

  predicate CleanSlate(s: State, id: IdentityId) {
    id in s.people ==> s.people[id].failedLogins == 0 && s.people[id].lockedUntil == None
  }

  /** Fewer than five wrong guesses, in any run and however far apart, lock nobody. */
  lemma {:induction false} FewGuessesLockNobody(s: State, es: seq<Event>, id: IdentityId, ttl: int)
    requires CleanSlate(s, id) && WrongGuesses(s, es, id, ttl) < 5
    ensures
      var s' := Run(s, es, ttl);
      id in s'.people ==>
        s'.people[id].lockedUntil == None && s'.people[id].failedLogins <= WrongGuesses(s, es, id, ttl)
  {
    hide Step, WrongGuess;
    if es != [] {
      var k := |es| - 1;
      FewGuessesLockNobody(s, es[..k], id, ttl);
      GuessStep(Run(s, es[..k], ttl), es[k], id, ttl, WrongGuesses(s, es[..k], id, ttl));
    }
  }

  lemma GuessStep(s: State, e: Event, id: IdentityId, ttl: int, n: nat)
    requires id in s.people ==> s.people[id].lockedUntil == None && s.people[id].failedLogins <= n
    requires n + (if WrongGuess(s, e, id) then 1 else 0) < 5
    ensures
      var s' := Step(s, e, ttl);
      id in s'.people ==>
        s'.people[id].lockedUntil == None && s'.people[id].failedLogins <= n + if WrongGuess(s, e, id) then 1 else 0
  {
    hide Step, WrongGuess, SignsIn, Reauths, ChangesPassword;
    if id in s.people {
      StepPerson(s, e, id, ttl);
    } else if id in Step(s, e, ttl).people {
      StepNewcomer(s, e, id, ttl);
    }
  }

  // ----- re-authentication

  lemma ReauthRefusals(s: State, token: Token, password: string, now: Time)
    ensures
      var r := Reauth(s, token, password, now).1;
      if !LiveSession(s, token, now) then r == Failure(NoSession)
      else if s.sessions[token].identity !in s.people then r == Failure(NoSuchUser)
      else
        var p := s.people[s.sessions[token].identity];
        var free := p.status == Active && Unlocked(p, now);
        && (r == Failure(IsBlocked) <==> p.status == Blocked)
        && (r == Failure(NotActive) <==> p.status != Blocked && p.status != Active)
        && (r == Failure(LockedOut) <==> p.status == Active && !Unlocked(p, now))
        && (r == Failure(BadPassword) <==> free && !Knows(p, password))
        && (r.Success? <==> free && Knows(p, password))
  {
    hide Failed, SuccessfulLogin, ReauthStamped;
  }

  /** Who re-authenticates: the owner of a live session, free to act, with the right password. */
  lemma ReauthsIff(s: State, e: Event, id: IdentityId)
    ensures Reauths(s, e, id) <==>
      && e.op.Confirm? && Owns(s, e.op.token, e.at, id)
      && id in s.people && s.people[id].status == Active && !LockedAt(s, id, e.at)
      && Knows(s.people[id], e.op.password)
  {
    if e.op.Confirm? {
      ReauthRefusals(s, e.op.token, e.op.password, e.at);
    }
    hide Reauth;
  }

  /** It is stamped and clears what earlier mistakes had counted, and does nothing else. */
  lemma ReauthLeaves(s: State, e: Event, id: IdentityId, ttl: int)
    requires Reauths(s, e, id)
    ensures
      var s' := Step(s, e, ttl);
      && id in s.people && OnlyPerson(s, s', id) && s'.sessions == s.sessions
      && s'.people[id] == s.people[id].(lastReauth := Some(e.at), failedLogins := 0, lockedUntil := None,
                                        lastLogin := Some(e.at))
  {
    hide S.Resolved;
  }

  /** Any refusal but that of a wrong password leaves everything as it was. */
  lemma RefusedReauthLeaves(s: State, token: Token, password: string, now: Time)
    ensures
      var (s', r) := Reauth(s, token, password, now);
      r.Failure? && r.error != BadPassword ==> s' == s
  {
  }

  // ----- changing the password

  /** The reasons in order; the current password is asked for before the new one is looked at. */
  lemma ChangeRefusals(s: State, token: Token, current: string, next: string, now: Time)
    ensures
      var (s', r) := ChangePassword(s, token, current, next, now);
      && (r.Failure? ==> s' == s)
      && if !LiveSession(s, token, now) then r == Failure(NoSession)
         else if s.sessions[token].identity !in s.people then r == Failure(NoSuchUser)
         else
           var p := s.people[s.sessions[token].identity];
           && (r == Failure(BadPassword) <==> !Knows(p, current))
           && (r == Failure(UnacceptablePassword) <==> Knows(p, current) && !Passwd.Acceptable(next))
           && (r == Failure(SamePassword) <==> Knows(p, current) && Passwd.Acceptable(next) && next == current)
           && (r.Success? <==> Knows(p, current) && Passwd.Acceptable(next) && next != current)
  {
    hide Passwd.Acceptable, S.RevokedAll;
  }

  /**
    A change leaves a strong hash of the new password, nothing forced, no expiry, a clean counter
    and no lock; every session of the person is over, this one included, and nobody else's is.
   */
  lemma ChangeLeaves(s: State, token: Token, current: string, next: string, now: Time, other: Token, at: Time)
    requires ChangePassword(s, token, current, next, now).1.Success?
    ensures
      var s' := ChangePassword(s, token, current, next, now).0;
      && LiveSession(s, token, now)
      && var id := s.sessions[token].identity;
         && id in s.people && OnlyPerson(s, s', id)
         && s'.people[id] == s.people[id].(hash := Sealed(next, false), mustChange := false, passwordExpires := None,
                                           failedLogins := 0, lockedUntil := None)
         && s'.sessions.Keys == s.sessions.Keys
         && (other in s.sessions && s.sessions[other].identity == id ==> !LiveSession(s', other, at))
         && (other in s.sessions && s.sessions[other].identity != id ==> s'.sessions[other] == s.sessions[other])
  {
    hide Passwd.Acceptable;
  }

  // ----- choosing a shop, signing out

  lemma ShopRefusals(s: State, token: Token, t: TenantId, now: Time, all: seq<Membership>)
    requires LiveSession(s, token, now) ==> HasMemberships(s, s.sessions[token].identity, all)
    ensures
      var (s', r) := SelectShop(s, token, t, now);
      && (r.Failure? ==> s' == s)
      && if !LiveSession(s, token, now) then r == Failure(NoSession)
         else if s.sessions[token].identity !in s.people then r == Failure(NoSuchUser)
         else
           var p := s.people[s.sessions[token].identity];
           var free := !p.mustChange && p.status == Active && Unlocked(p, now);
           && (r == Failure(MustChangePassword) <==> p.mustChange)
           && (r == Failure(IsBlocked) <==> !p.mustChange && p.status == Blocked)
           && (r == Failure(NotActive) <==> !p.mustChange && p.status != Blocked && p.status != Active)
           && (r == Failure(LockedOut) <==> !p.mustChange && p.status == Active && !Unlocked(p, now))
           && (r == Failure(NotAMember) <==>
                 free && forall i :: 0 <= i < |all| ==> all[i].tenant != t || all[i].status != Active)
           && (forall i :: 0 <= i < |all| && FirstActive(all, t, i) && free ==> r == Success(all[i]))
  {
    hide S.Bound;
    if LiveSession(s, token, now) {
      assert MembershipsOf(s, s.sessions[token].identity) == all;
      MembershipAtSound(all, t);
      forall i | 0 <= i < |all| && FirstActive(all, t, i) ensures MembershipAt(all, t) == Some(all[i]) {
        MembershipAtFirst(all, t, i);
      }
    }
  }

  /** Signing out ends the session presented and no other; everywhere, exactly its owner's open ones. */
  lemma SignOutsLeave(s: State, token: Token, now: Time, other: Token, at: Time)
    ensures
      var s' := SignOut(s, token, now);
      && s' == s.(sessions := s'.sessions) && !LiveSession(s', token, at)
      && (other != token ==> S.SameAt(s.sessions, s'.sessions, other))
    ensures
      var (s', r) := SignOutEverywhere(s, token, now);
      && s' == s.(sessions := s'.sessions)
      && if !LiveSession(s, token, now) then s' == s && r == Failure(NoSession)
         else
           var id := s.sessions[token].identity;
           && r == Success(|set t | t in s.sessions && s.sessions[t].identity == id && s.sessions[t].revoked.None?|)
           && (other in s.sessions && s.sessions[other].identity == id ==> !LiveSession(s', other, at))
           && (other in s.sessions && s.sessions[other].identity != id ==> s'.sessions[other] == s.sessions[other])
  {
  }

  // ----- as whom a token acts

  /** The roles a person acts with through a session of theirs. */
  ghost predicate RolesAre(s: State, row: S.Row, roles: seq<Role>)
    requires row.identity in s.people
  {
    if s.people[row.identity].mustChange then roles == []
    else if IsVendor(s, row.identity) then roles == s.vendors[row.identity]
    else
      match row.tenant
      case None => roles == []
      case Some(t) =>
        row.identity in s.memberships &&
        exists i :: 0 <= i < |s.memberships[row.identity]| && FirstActive(s.memberships[row.identity], t, i) &&
                    roles == s.memberships[row.identity][i].roles
  }

  /**
    The actor behind a token: its owner, of the session's kind, with the time of the last
    re-authentication, and with exactly the roles of the first that applies: none while a change
    is forced, the vendor's own, none without a shop, those of the active membership in the shop.
   */
  lemma ActorIs(s: State, token: Token, now: Time)
    requires Resolve(s, token, now).Some?
    ensures
      var actor := Resolve(s, token, now).value;
      && LiveSession(s, token, now) && s.sessions[token].identity in s.people
      && actor.id == s.sessions[token].identity && actor.kind == s.sessions[token].kind
      && actor.reauthedAt == s.people[actor.id].lastReauth
      && RolesAre(s, s.sessions[token], actor.roles)
  {
    hide CanSignIn;
    var row := s.sessions[token];
    if row.tenant.Some? {
      FirstFound(MembershipsOf(s, row.identity), row.tenant.value);
    }
  }

  lemma {:induction false} FirstFound(all: seq<Membership>, t: TenantId)
    ensures MembershipAt(all, t).Some? ==>
      exists i :: 0 <= i < |all| && FirstActive(all, t, i) && MembershipAt(all, t) == Some(all[i])
  {
    if all != [] && !(all[0].tenant == t && all[0].status == Active) && MembershipAt(all, t).Some? {
      FirstFound(all[1..], t);
      var i :| 0 <= i < |all[1..]| && FirstActive(all[1..], t, i) && MembershipAt(all[1..], t) == Some(all[1..][i]);
      assert all[i + 1] == all[1..][i];
      assert forall j :: 0 < j < i + 1 ==> all[j] == all[1..][j - 1];
      assert FirstActive(all, t, i + 1);
    }
  }

  // ----- a session from its issue on

  /** A fresh session acts as its owner from the moment of the sign-in until its ttl has run out. */
  lemma SignedInIsSomebody(s: State, e: Event, id: IdentityId, ttl: int, now: Time)
    requires SignsIn(s, e, id, ttl) && e.op.newToken != "" && e.at <= now < e.at + ttl
    ensures
      var actor := Resolve(Step(s, e, ttl), e.op.newToken, now);
      actor.Some? && actor.value.id == id && actor.value.kind == Admin
  {
    var all := if id in s.memberships then s.memberships[id] else [];
    var (email, password, token) := (e.op.email, e.op.password, e.op.newToken);
    SignsInIff(s, e, id, ttl);
    SignInIssues(s, email, password, token, e.at, ttl, all);
    SignInLeaves(s, email, password, token, e.at, ttl);
    StepIsCall(s, e, ttl);
    var s' := Step(s, e, ttl);
    var row := s'.sessions[token];
    if row.tenant.Some? && !s.people[id].mustChange {
      MembershipAtSound(all, row.tenant.value);
    }
    hide Step, Authenticate, SignsIn, EarnsSignIn, MembershipAt, Strings.TrimSpace;
  }

  predicate GoodRow(t: S.Table, token: Token, id: IdentityId, until: Time) {
    && token != "" && token in t && t[token].identity == id && t[token].kind == Admin
    && t[token].revoked.None? && until <= t[token].expires
  }

  /** The token's session is this person's, open, and good until then. */
  predicate GoodUntil(s: State, token: Token, id: IdentityId, until: Time) {
    GoodRow(s.sessions, token, id, until)
  }

  /** The event ends this session, or every one of its owner's. */
  predicate EndsIt(s: State, e: Event, token: Token, id: IdentityId) {
    match e.op
    case Leave(presented) => presented == token
    case LeaveEverywhere(presented) => Owns(s, presented, e.at, id)
    case NewPassword(presented, current, next) =>
      Owns(s, presented, e.at, id) && ChangePassword(s, presented, current, next, e.at).1.Success?
    case EndSessions(owner) => owner == id
    case _ => false
  }

  /** None of the statements that write the table touches the row but to end, prolong or bind it. */
  lemma StatementsKeepGood(t: S.Table, token: Token, id: IdentityId, until: Time, other: Token, owner: IdentityId,
                           lastSeen: Time, tenant: TenantId, now: Time, ttl: int)
    requires GoodRow(t, token, id, until)
    ensures other != token ==> GoodRow(S.RevokedOne(t, other, now), token, id, until)
    ensures until <= now + ttl ==> GoodRow(S.Slid(t, other, lastSeen, now, ttl), token, id, until)
    ensures GoodRow(S.Bound(t, other, tenant), token, id, until)
    ensures other !in t ==> GoodRow(S.Inserted(t, other, owner, Admin, now, ttl), token, id, until)
  {
  }

  lemma SweepsKeepGood(t: S.Table, token: Token, id: IdentityId, until: Time, owner: IdentityId, now: Time,
                       retention: int)
    requires GoodRow(t, token, id, until)
    ensures now <= until ==> GoodRow(S.Swept(t, now, retention), token, id, until)
    ensures owner != id ==> GoodRow(S.RevokedAll(t, owner, now), token, id, until)
  {
  }

  lemma SignInKeepsGood(s: State, e: Event, ttl: int, token: Token, id: IdentityId, until: Time)
    requires GoodUntil(s, token, id, until) && e.op.SignIn?
    ensures GoodUntil(Step(s, e, ttl), token, id, until)
  {
    StepIsCall(s, e, ttl);
    hide Step, Strings.TrimSpace, Actives, Failed, SuccessfulLogin, Rehashed, CanSignIn, PasswordDead;
  }

  lemma CallsKeepGood(s: State, e: Event, ttl: int, token: Token, id: IdentityId, until: Time)
    requires GoodUntil(s, token, id, until) && !EndsIt(s, e, token, id) && (e.op.Confirm? || e.op.NewPassword?)
    ensures GoodUntil(Step(s, e, ttl), token, id, until)
  {
    StepIsCall(s, e, ttl);
    hide Step, Failed, SuccessfulLogin, ReauthStamped, PasswordSet, CanSignIn, Passwd.Acceptable;
  }

  /** Choosing a shop and signing out everywhere. */
  lemma SessionCallsKeepGood(s: State, e: Event, ttl: int, token: Token, id: IdentityId, until: Time)
    requires GoodUntil(s, token, id, until) && !EndsIt(s, e, token, id)
    requires e.op.PickShop? || e.op.LeaveEverywhere? || e.op.Leave?
    ensures GoodUntil(Step(s, e, ttl), token, id, until)
  {
    var t := s.sessions;
    var owner := if e.op.token in t then t[e.op.token].identity else "";
    var tenant := if e.op.PickShop? then e.op.tenant else "";
    StatementsKeepGood(t, token, id, until, e.op.token, owner, 0, tenant, e.at, ttl);
    SweepsKeepGood(t, token, id, until, owner, e.at, 0);
    hide Authenticate, Reauth, ChangePassword, CanSignIn, MembershipAt, MembershipsOf, GoodRow, S.RevokedOne, S.Bound,
         S.RevokedAll, S.Slid, S.Swept;
  }

  /** The environment, the slide and the sweeper. */
  lemma OthersKeepGood(s: State, e: Event, ttl: int, token: Token, id: IdentityId, until: Time)
    requires GoodUntil(s, token, id, until) && !EndsIt(s, e, token, id) && e.at <= until <= e.at + ttl
    requires !e.op.SignIn? && !e.op.Confirm? && !e.op.NewPassword?
    requires !e.op.PickShop? && !e.op.LeaveEverywhere? && !e.op.Leave?
    ensures GoodUntil(Step(s, e, ttl), token, id, until)
  {
    var t := s.sessions;
    match e.op
    case Slide(other, lastSeen) => StatementsKeepGood(t, token, id, until, other, "", lastSeen, "", e.at, ttl);
    case SweepSessions(retention) => SweepsKeepGood(t, token, id, until, "", e.at, retention);
    case EndSessions(owner) => SweepsKeepGood(t, token, id, until, owner, e.at, 0);
    case _ =>
    hide Authenticate, Reauth, ChangePassword, SelectShop, SignOut, SignOutEverywhere, MembershipsOf, CostsRaised, Seal,
         GoodRow, S.RevokedAll, S.Slid, S.Swept;
  }

  lemma GoodStays(s: State, e: Event, ttl: int, token: Token, id: IdentityId, until: Time)
    requires GoodUntil(s, token, id, until) && !EndsIt(s, e, token, id) && e.at <= until <= e.at + ttl
    ensures GoodUntil(Step(s, e, ttl), token, id, until)
  {
    hide Step, GoodUntil, EndsIt;
    if e.op.SignIn? {
      SignInKeepsGood(s, e, ttl, token, id, until);
    } else if e.op.Confirm? || e.op.NewPassword? {
      CallsKeepGood(s, e, ttl, token, id, until);
    } else if e.op.PickShop? || e.op.LeaveEverywhere? || e.op.Leave? {
      SessionCallsKeepGood(s, e, ttl, token, id, until);
    } else {
      OthersKeepGood(s, e, ttl, token, id, until);
    }
  }

  predicate NotEnded(s: State, es: seq<Event>, ttl: int, token: Token, id: IdentityId) {
    forall n :: 0 <= n < |es| ==> !EndsIt(Run(s, es[..n], ttl), es[n], token, id)
  }

  /**
    A session lasts: whatever calls, sweeps and slides follow a sign-in, until its ttl has run out
    the token is a live session of the person who signed in, unless it is signed out or revoked.
   */
  lemma SessionLasts(s: State, e: Event, es: seq<Event>, id: IdentityId, ttl: int)
    requires SignsIn(s, e, id, ttl) && e.op.newToken != "" && NotEnded(Step(s, e, ttl), es, ttl, e.op.newToken, id)
    requires forall i :: 0 <= i < |es| ==> e.at <= es[i].at <= e.at + ttl
    ensures forall at :: at < e.at + ttl ==> Owns(Run(Step(s, e, ttl), es, ttl), e.op.newToken, at, id)
  {
    IssuedGood(s, e, id, ttl);
    GoodLasts(Step(s, e, ttl), es, ttl, e.op.newToken, id, e.at + ttl);
    hide Step, SignsIn;
  }

  lemma {:induction false} GoodLasts(s: State, es: seq<Event>, ttl: int, token: Token, id: IdentityId, until: Time)
    requires GoodUntil(s, token, id, until) && NotEnded(s, es, ttl, token, id)
    requires forall i :: 0 <= i < |es| ==> es[i].at <= until <= es[i].at + ttl
    ensures GoodUntil(Run(s, es, ttl), token, id, until)
  {
    hide Step, EndsIt, GoodUntil;
    if es != [] {
      var k := |es| - 1;
      assert forall n :: 0 <= n < k ==> es[..k][..n] == es[..n];
      GoodLasts(s, es[..k], ttl, token, id, until);
      GoodStays(Run(s, es[..k], ttl), es[k], ttl, token, id, until);
    }
  }

  lemma IssuedGood(s: State, e: Event, id: IdentityId, ttl: int)
    requires SignsIn(s, e, id, ttl) && e.op.newToken != ""
    ensures GoodUntil(Step(s, e, ttl), e.op.newToken, id, e.at + ttl)
  {
    var all := if id in s.memberships then s.memberships[id] else [];
    SignInIssues(s, e.op.email, e.op.password, e.op.newToken, e.at, ttl, all);
    StepIsCall(s, e, ttl);
    hide Step, Authenticate;
  }

  // ----- the first login

  /** A new login is an active owner of its shop alone, with a change forced and a password that dies. */
  lemma FirstLoginLeaves(s: State, id: IdentityId, email: string, password: string, tenant: TenantId, expires: Time)
    ensures id in s.people || email in s.byEmail ==> FirstLogin(s, id, email, password, tenant, expires) == s
    ensures id !in s.people && email !in s.byEmail && id !in s.memberships ==>
      var s' := FirstLogin(s, id, email, password, tenant, expires);
      && s'.people == s.people[id := Person(email, Active, Sealed(password, false), true, Some(expires), 0, None, None,
                                            None)]
      && s'.byEmail == s.byEmail[email := id] && s'.sessions == s.sessions && s'.vendors == s.vendors
      && s'.memberships == s.memberships[id := [Membership(tenant, Active, [Owner])]]
  {
    assert [] + [Membership(tenant, Active, [Owner])] == [Membership(tenant, Active, [Owner])];
  }
}
