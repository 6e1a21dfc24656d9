/**
  Signing in with a password, and what a session then entitles its owner to. Functions first
  say what every call does to the whole state; the service and its repository, as objects with
  updatable fields, are then proved to do exactly that.
 */
module Identity {
  import opened Wrappers
  import opened Strings
  import opened Authz
  import Passwd
  import S = SessionStore

  type IdentityId = S.IdentityId
  type TenantId = S.TenantId
  type Token = S.Token

  const MAX_FAILED_LOGINS: nat := 5
  const LOCKOUT: int := 15 * 60 * S.SECOND

  datatype Status = Active | Suspended | Disabled | Blocked | OtherStatus(name: string)

  /** A stored hash: which password it verifies and whether its parameters are below today's. */
  datatype StoredHash = Sealed(password: string, weak: bool) | Unreadable {

    predicate Verifies(attempt: string) {
      Sealed? && password == attempt
    }

    predicate NeedsRehash() {
      Unreadable? || weak
    }
  }

  /** What the hasher makes now; by Passwd.OwnHashNeedsNoRehash it is never flagged. */
  function Seal(password: string): StoredHash {
    Sealed(password, false)
  }

  datatype Person = Person(
    email: string,
    status: Status,
    hash: StoredHash,
    mustChange: bool,
    passwordExpires: Option<Time>,
    failedLogins: nat,
    lockedUntil: Option<Time>,
    lastLogin: Option<Time>,
    lastReauth: Option<Time>
  )

  datatype Membership = Membership(tenant: TenantId, status: Status, roles: seq<Role>)

  datatype AuthError =
    | NoSuchUser | BadPassword | NotActive | IsBlocked | LockedOut | MustChangePassword
    | PasswordExpired | NotAMember | SamePassword | UnacceptablePassword | NoSession | TokenTaken

  datatype SignedIn = SignedIn(
    token: Token,
    id: IdentityId,
    memberships: seq<Membership>,
    platformRoles: seq<Role>,
    mustChange: bool,
    needsShopSelection: bool
  )

  type People = map<IdentityId, Person>

  datatype State = State(
    people: People,
    byEmail: map<string, IdentityId>,
    memberships: map<IdentityId, seq<Membership>>,
    vendors: map<IdentityId, seq<Role>>,
    sessions: S.Table
  )

  /** The schema's unique index: every address leads to the one person who has it. */
  predicate Indexed(people: People, byEmail: map<string, IdentityId>) {
    && (forall email :: email in byEmail ==> byEmail[email] in people && people[byEmail[email]].email == email)
    && (forall id :: id in people ==> people[id].email in byEmail && byEmail[people[id].email] == id)
  }

  // ----- decisions

  function CanSignIn(p: Person, now: Time): Option<AuthError> {
    match p.status
    case Blocked => Some(IsBlocked)
    case Suspended => Some(NotActive)
    case Disabled => Some(NotActive)
    case OtherStatus(_) => Some(NotActive)
    case Active => if p.lockedUntil.Some? && now < p.lockedUntil.value then Some(LockedOut) else None
  }

  predicate PasswordDead(p: Person, now: Time) {
    p.passwordExpires.Some? && p.passwordExpires.value <= now
  }

  function Actives(all: seq<Membership>): seq<Membership> {
    if all == [] then []
    else
      var last := all[|all| - 1];
      Actives(all[..|all| - 1]) + if last.status == Active then [last] else []
  }

  /** The first active membership of the tenant. */
  function MembershipAt(all: seq<Membership>, t: TenantId): Option<Membership> {
    if all == [] then None
    else if all[0].tenant == t && all[0].status == Active then Some(all[0])
    else MembershipAt(all[1..], t)
  }

  function MembershipsOf(s: State, id: IdentityId): seq<Membership> {
    if id in s.memberships then s.memberships[id] else []
  }

  function PlatformRolesOf(s: State, id: IdentityId): seq<Role> {
    if id in s.vendors then s.vendors[id] else []
  }

  // ----- the repository's update statements, first on one row

  function Counted(p: Person, lockUntil: Option<Time>): Person {
    p.(failedLogins := p.failedLogins + 1, lockedUntil := if lockUntil.Some? then lockUntil else p.lockedUntil)
  }

  function Cleared(p: Person, at: Time): Person {
    p.(failedLogins := 0, lockedUntil := None, lastLogin := Some(at))
  }

  function Stamped(p: Person, at: Time): Person {
    p.(lastReauth := Some(at))
  }

  /** UpdatePassword also releases the forced change and every count against the person. */
  function WithHash(p: Person, hash: StoredHash): Person {
    p.(hash := hash, mustChange := false, passwordExpires := None, failedLogins := 0, lockedUntil := None)
  }

  function FailedLogin(people: People, id: IdentityId, lockUntil: Option<Time>): People {
    if id !in people then people else people[id := Counted(people[id], lockUntil)]
  }

  function SuccessfulLogin(people: People, id: IdentityId, at: Time): People {
    if id !in people then people else people[id := Cleared(people[id], at)]
  }

  function ReauthStamped(people: People, id: IdentityId, at: Time): People {
    if id !in people then people else people[id := Stamped(people[id], at)]
  }

  function PasswordSet(people: People, id: IdentityId, hash: StoredHash): People {
    if id !in people then people else people[id := WithHash(people[id], hash)]
  }

  /** The lock a wrong password earns, once the count reaches the limit. */
  function LockFor(p: Person, now: Time): Option<Time> {
    if p.failedLogins + 1 >= MAX_FAILED_LOGINS then Some(now + LOCKOUT) else None
  }

  /** recordFailure */
  function Failed(people: People, id: IdentityId, p: Person, now: Time): People {
    FailedLogin(people, id, LockFor(p, now))
  }

  /** rehashIfNeeded: the plaintext is in hand, so a weak hash is replaced. */
  function Rehashed(people: People, id: IdentityId, hash: StoredHash, password: string): People {
    if hash.NeedsRehash() then PasswordSet(people, id, Seal(password)) else people
  }

  // ----- the service calls

  function Authenticate(s: State, email: string, password: string, token: Token, now: Time, ttl: int)
    : (State, Result<SignedIn, AuthError>)
  {
    var address := TrimSpace(email);
    if address !in s.byEmail || s.byEmail[address] !in s.people then (s, Failure(NoSuchUser))
    else
      var id := s.byEmail[address];
      var p := s.people[id];
      var refusal := CanSignIn(p, now);
      if refusal.Some? then (s, Failure(refusal.value))
      else if !p.hash.Verifies(password) then (s.(people := Failed(s.people, id, p, now)), Failure(BadPassword))
      else if PasswordDead(p, now) then (s, Failure(PasswordExpired))
      else if token in s.sessions then (s, Failure(TokenTaken))
      else
        var active := Actives(MembershipsOf(s, id));
        var platform := PlatformRolesOf(s, id);
        var issued := S.Inserted(s.sessions, token, id, Admin, now, ttl);
        var sessions :=
          if |active| == 1 && !p.mustChange && platform == [] then S.Bound(issued, token, active[0].tenant) else issued;
        (s.(people := Rehashed(SuccessfulLogin(s.people, id, now), id, p.hash, password), sessions := sessions),
         Success(SignedIn(token, id, active, platform, p.mustChange, |active| > 1)))
  }

  function SelectShop(s: State, token: Token, t: TenantId, now: Time): (State, Result<Membership, AuthError>) {
    var session := S.Resolved(s.sessions, token, now);
    if session.None? then (s, Failure(NoSession))
    else
      var id := session.value.identity;
      if id !in s.people then (s, Failure(NoSuchUser))
      else if s.people[id].mustChange then (s, Failure(MustChangePassword))
      else
        var refusal := CanSignIn(s.people[id], now);
        var m := MembershipAt(MembershipsOf(s, id), t);
        if refusal.Some? then (s, Failure(refusal.value))
        else if m.None? then (s, Failure(NotAMember))
        else (s.(sessions := S.Bound(s.sessions, token, t)), Success(m.value))
  }

  function ChangePassword(s: State, token: Token, current: string, next: string, now: Time)
    : (State, Result<(), AuthError>)
  {
    var session := S.Resolved(s.sessions, token, now);
    if session.None? then (s, Failure(NoSession))
    else
      var id := session.value.identity;
      if id !in s.people then (s, Failure(NoSuchUser))
      else if !s.people[id].hash.Verifies(current) then (s, Failure(BadPassword))
      else if !Passwd.Acceptable(next) then (s, Failure(UnacceptablePassword))
      else if s.people[id].hash.Verifies(next) then (s, Failure(SamePassword))
      else
        (s.(people := PasswordSet(s.people, id, Seal(next)), sessions := S.RevokedAll(s.sessions, id, now)),
         Success(()))
  }

  function Reauth(s: State, token: Token, password: string, now: Time): (State, Result<(), AuthError>) {
    var session := S.Resolved(s.sessions, token, now);
    if session.None? then (s, Failure(NoSession))
    else
      var id := session.value.identity;
      if id !in s.people then (s, Failure(NoSuchUser))
      else
        var p := s.people[id];
        var refusal := CanSignIn(p, now);
        if refusal.Some? then (s, Failure(refusal.value))
        else if !p.hash.Verifies(password) then (s.(people := Failed(s.people, id, p, now)), Failure(BadPassword))
        else (s.(people := SuccessfulLogin(ReauthStamped(s.people, id, now), id, now)), Success(()))
  }

  function SignOut(s: State, token: Token, now: Time): State {
    s.(sessions := S.RevokedOne(s.sessions, token, now))
  }

  function SignOutEverywhere(s: State, token: Token, now: Time): (State, Result<nat, AuthError>) {
    var session := S.Resolved(s.sessions, token, now);
    if session.None? then (s, Failure(NoSession))
    else
      var id := session.value.identity;
      (s.(sessions := S.RevokedAll(s.sessions, id, now)), Success(|S.Ending(s.sessions, id)|))
  }

  /** The actor behind a token, on the path of every authenticated request. */
  function Resolve(s: State, token: Token, now: Time): Option<Actor> {
    var session := S.Resolved(s.sessions, token, now);
    if session.None? || session.value.identity !in s.people then None
    else
      var id := session.value.identity;
      var p := s.people[id];
      var actor := Actor(id, session.value.kind, [], p.lastReauth);
      if CanSignIn(p, now).Some? then None
      else if p.mustChange then Some(actor)
      else if PlatformRolesOf(s, id) != [] then Some(actor.(roles := PlatformRolesOf(s, id)))
      else if session.value.tenant.None? then Some(actor)
      else
        var m := MembershipAt(MembershipsOf(s, id), session.value.tenant.value);
        if m.None? then None else Some(actor.(roles := m.value.roles))
  }

  lemma {:induction false} MembershipAtSound(all: seq<Membership>, t: TenantId)
    ensures MembershipAt(all, t).Some? <==> exists i :: 0 <= i < |all| && all[i].tenant == t && all[i].status == Active
    ensures MembershipAt(all, t).Some? ==>
      var m := MembershipAt(all, t).value;
      m in all && m.tenant == t && m.status == Active
  {
    if all != [] && !(all[0].tenant == t && all[0].status == Active) {
      MembershipAtSound(all[1..], t);
      if i :| 0 <= i < |all| && all[i].tenant == t && all[i].status == Active {
        assert all[1..][i - 1] == all[i];
      }
    }
  }

  lemma {:induction false} ActivesSound(all: seq<Membership>)
    ensures forall m :: m in Actives(all) <==> m in all && m.status == Active
  {
    if all != [] {
      ActivesSound(all[..|all| - 1]);
      assert all == all[..|all| - 1] + [all[|all| - 1]];
    }
  }

  // ----- the service

  class Repository {
    var people: People
    var byEmail: map<string, IdentityId>
    var memberships: map<IdentityId, seq<Membership>>
    var vendors: map<IdentityId, seq<Role>>

    ghost predicate Valid()
      reads this
    {
      Indexed(people, byEmail)
    }

    constructor ()
      ensures Valid()
      ensures people == map[] && byEmail == map[] && memberships == map[] && vendors == map[]
    {
      people, byEmail, memberships, vendors := map[], map[], map[], map[];
    }

    method FindByEmail(email: string) returns (found: Option<(IdentityId, Person)>)
      requires Valid()
      ensures found.Some? <==> exists id :: id in people && people[id].email == email
      ensures found.Some? ==>
        && found.value.0 in people && found.value.1 == people[found.value.0] && found.value.1.email == email
        && forall id :: id in people && people[id].email == email ==> id == found.value.0
    {
      if email in byEmail && byEmail[email] in people {
        return Some((byEmail[email], people[byEmail[email]]));
      }
      return None;
    }

    method MembershipIn(id: IdentityId, t: TenantId) returns (m: Option<Membership>)
      ensures m == MembershipAt(if id in memberships then memberships[id] else [], t)
    {
      var all := if id in memberships then memberships[id] else [];
      var i := 0;
      while i < |all|
        invariant 0 <= i <= |all|
        invariant MembershipAt(all, t) == MembershipAt(all[i..], t)
      {
        if all[i].tenant == t && all[i].status == Active {
          return Some(all[i]);
        }
        i := i + 1;
      }
      return None;
    }

    method RecordFailedLogin(id: IdentityId, lockUntil: Option<Time>)
      modifies this`people
      ensures people == FailedLogin(old(people), id, lockUntil)
      ensures old(Valid()) ==> Valid()
    {
      if id in people {
        var p := people[id];
        p := p.(failedLogins := p.failedLogins + 1);
        if lockUntil.Some? {
          p := p.(lockedUntil := lockUntil);
        }
        people := people[id := p];
      }
    }

    method RecordSuccessfulLogin(id: IdentityId, at: Time)
      modifies this`people
      ensures people == SuccessfulLogin(old(people), id, at)
      ensures old(Valid()) ==> Valid()
    {
      if id in people {
        people := people[id := people[id].(failedLogins := 0, lockedUntil := None, lastLogin := Some(at))];
      }
    }

    method RecordReauth(id: IdentityId, at: Time)
      modifies this`people
      ensures people == ReauthStamped(old(people), id, at)
      ensures old(Valid()) ==> Valid()
    {
      if id in people {
        people := people[id := people[id].(lastReauth := Some(at))];
      }
    }

    method UpdatePassword(id: IdentityId, hash: StoredHash)
      modifies this`people
      ensures people == PasswordSet(old(people), id, hash)
      ensures old(Valid()) ==> Valid()
    {
      if id in people {
        people := people[id := people[id].(hash := hash, mustChange := false, passwordExpires := None,
                                           failedLogins := 0, lockedUntil := None)];
      }
    }
  }

  method ActiveOnly(all: seq<Membership>) returns (active: seq<Membership>)
    ensures active == Actives(all)
  {
    active := [];
    for i := 0 to |all|
      invariant active == Actives(all[..i])
    {
      assert all[..i + 1][..i] == all[..i];
      if all[i].status == Active {
        active := active + [all[i]];
      }
    }
    assert all[..|all|] == all;
  }

  class Service {
    const repo: Repository
    const store: S.Store

    constructor (repo: Repository, store: S.Store)
      ensures this.repo == repo && this.store == store
    {
      this.repo := repo;
      this.store := store;
    }

    function Now(): State
      reads repo, store
    {
      State(repo.people, repo.byEmail, repo.memberships, repo.vendors, store.rows)
    }

    method RecordFailure(id: IdentityId, p: Person, now: Time)
      modifies repo`people
      ensures repo.people == Failed(old(repo.people), id, p, now)
      ensures old(repo.Valid()) ==> repo.Valid()
    {
      var lockUntil := None;
      if p.failedLogins + 1 >= MAX_FAILED_LOGINS {
        lockUntil := Some(now + LOCKOUT);
      }
      repo.RecordFailedLogin(id, lockUntil);
    }

    method RehashIfNeeded(id: IdentityId, p: Person, password: string)
      modifies repo`people
      ensures repo.people == Rehashed(old(repo.people), id, p.hash, password)
      ensures old(repo.Valid()) ==> repo.Valid()
    {
      if p.hash.NeedsRehash() {
        repo.UpdatePassword(id, Seal(password));
      }
    }

    method DoAuthenticate(email: string, password: string, token: Token, now: Time)
      returns (r: Result<SignedIn, AuthError>)
      requires repo.Valid()
      modifies repo`people, store
      ensures repo.Valid()
      ensures (Now(), r) == Authenticate(old(Now()), email, password, token, now, store.ttl)
    {
      hide TrimSpace, Actives;
      var address := TrimSpace(email);
      var found := repo.FindByEmail(address);
      assert address in repo.byEmail ==> found.Some? && found.value.0 == repo.byEmail[address];
      if found.None? {
        return Failure(NoSuchUser);
      }
      var (id, p) := found.value;
      var refusal := CanSignIn(p, now);
      if refusal.Some? {
        return Failure(refusal.value);
      }
      if !p.hash.Verifies(password) {
        RecordFailure(id, p, now);
        return Failure(BadPassword);
      }
      if PasswordDead(p, now) {
        return Failure(PasswordExpired);
      }
      var active := ActiveOnly(MembershipsOf(Now(), id));
      var issued := store.Issue(token, id, Admin, now);
      if !issued {
        return Failure(TokenTaken);
      }
      repo.RecordSuccessfulLogin(id, now);
      RehashIfNeeded(id, p, password);
      var platform := PlatformRolesOf(Now(), id);
      if |active| == 1 && !p.mustChange && platform == [] {
        var _ := store.SelectShop(token, active[0].tenant);
      }
      return Success(SignedIn(token, id, active, platform, p.mustChange, |active| > 1));
    }

    method DoSelectShop(token: Token, t: TenantId, now: Time) returns (r: Result<Membership, AuthError>)
      modifies store
      ensures (Now(), r) == SelectShop(old(Now()), token, t, now)
    {
      var session := store.Resolve(token, now);
      if session.None? {
        return Failure(NoSession);
      }
      var id := session.value.identity;
      if id !in repo.people {
        return Failure(NoSuchUser);
      }
      var p := repo.people[id];
      if p.mustChange {
        return Failure(MustChangePassword);
      }
      var refusal := CanSignIn(p, now);
      if refusal.Some? {
        return Failure(refusal.value);
      }
      var m := repo.MembershipIn(id, t);
      if m.None? {
        return Failure(NotAMember);
      }
      var bound := store.SelectShop(token, t);
      if !bound {
        return Failure(NoSession);
      }
      return Success(m.value);
    }

    method DoChangePassword(token: Token, current: string, next: string, now: Time)
      returns (r: Result<(), AuthError>)
      modifies repo`people, store
      ensures (Now(), r) == ChangePassword(old(Now()), token, current, next, now)
      ensures old(repo.Valid()) ==> repo.Valid()
    {
      hide Passwd.Acceptable;
      var session := store.Resolve(token, now);
      if session.None? {
        return Failure(NoSession);
      }
      var id := session.value.identity;
      if id !in repo.people {
        return Failure(NoSuchUser);
      }
      var p := repo.people[id];
      if !p.hash.Verifies(current) {
        return Failure(BadPassword);
      }
      if !Passwd.Acceptable(next) {
        return Failure(UnacceptablePassword);
      }
      if p.hash.Verifies(next) {
        return Failure(SamePassword);
      }
      repo.UpdatePassword(id, Seal(next));
      var _ := store.RevokeAll(id, now);
      return Success(());
    }

    method DoReauth(token: Token, password: string, now: Time) returns (r: Result<(), AuthError>)
      modifies repo`people
      ensures (Now(), r) == Reauth(old(Now()), token, password, now)
      ensures old(repo.Valid()) ==> repo.Valid()
    {
      var session := store.Resolve(token, now);
      if session.None? {
        return Failure(NoSession);
      }
      var id := session.value.identity;
      if id !in repo.people {
        return Failure(NoSuchUser);
      }
      var p := repo.people[id];
      var refusal := CanSignIn(p, now);
      if refusal.Some? {
        return Failure(refusal.value);
      }
      if !p.hash.Verifies(password) {
        RecordFailure(id, p, now);
        return Failure(BadPassword);
      }
      repo.RecordReauth(id, now);
      repo.RecordSuccessfulLogin(id, now);
      return Success(());
    }

    method DoSignOut(token: Token, now: Time)
      modifies store
      ensures Now() == SignOut(old(Now()), token, now)
    {
      store.Revoke(token, now);
    }

    method DoSignOutEverywhere(token: Token, now: Time) returns (r: Result<nat, AuthError>)
      modifies store
      ensures (Now(), r) == SignOutEverywhere(old(Now()), token, now)
    {
      var session := store.Resolve(token, now);
      if session.None? {
        return Failure(NoSession);
      }
      var count := store.RevokeAll(session.value.identity, now);
      return Success(count);
    }

    method DoResolve(token: Token, now: Time) returns (actor: Option<Actor>)
      ensures actor == Resolve(Now(), token, now)
    {
      var session := store.Resolve(token, now);
      if session.None? || session.value.identity !in repo.people {
        return None;
      }
      var id := session.value.identity;
      var p := repo.people[id];
      if CanSignIn(p, now).Some? {
        return None;
      }
      var a := Actor(id, session.value.kind, [], p.lastReauth);
      if p.mustChange {
        return Some(a);
      }
      var platform := PlatformRolesOf(Now(), id);
      if platform != [] {
        return Some(a.(roles := platform));
      }
      if session.value.tenant.Some? {
        var m := repo.MembershipIn(id, session.value.tenant.value);
        if m.None? {
          return None;
        }
        a := a.(roles := m.value.roles);
      }
      return Some(a);
    }
  }
}
