/** Registration: no route is served that a valid policy, and everything it needs, does not protect. */
module Router {
  import opened Wrappers
  import Authz
  import L = Limiter
  import W = Responses
  import opened Policy
  import opened Middleware
  import opened Admission
  import opened Gatekeeping

  datatype Missing = SessionResolver | SignatureVerifier | OwnerResolver | IdempotencyStore

  datatype Deps = Deps(sessions: bool, verifier: bool, owners: bool, ledger: bool)

  /** A dependency the policy needs. */
  predicate Needs(p: Policy, m: Missing) {
    match m
    case SessionResolver => p.auth == Session || p.auth == SessionOrGuest || p.auth == AdminOnly
    case SignatureVerifier => p.auth == Signature
    case OwnerResolver => !p.ownership.IsZero()
    case IdempotencyStore => p.idempotent
  }

  predicate Configured(d: Deps, m: Missing) {
    match m
    case SessionResolver => d.sessions
    case SignatureVerifier => d.verifier
    case OwnerResolver => d.owners
    case IdempotencyStore => d.ledger
  }

  ghost predicate Supplied(d: Deps, p: Policy) {
    forall m :: Needs(p, m) ==> Configured(d, m)
  }

  method RequirementsFor(d: Deps, p: Policy) returns (missing: seq<Missing>)
    ensures forall m :: m in missing <==> Needs(p, m) && !Configured(d, m)
    ensures missing == [] <==> Supplied(d, p)
  {
    missing := [];
    match p.auth {
      case Session =>
        if !d.sessions { missing := missing + [SessionResolver]; }
      case SessionOrGuest =>
        if !d.sessions { missing := missing + [SessionResolver]; }
      case AdminOnly =>
        if !d.sessions { missing := missing + [SessionResolver]; }
      case Signature =>
        if !d.verifier { missing := missing + [SignatureVerifier]; }
      case _ =>
    }
    if !p.ownership.IsZero() && !d.owners {
      missing := missing + [OwnerResolver];
    }
    if p.idempotent && !d.ledger {
      missing := missing + [IdempotencyStore];
    }
    assert missing != [] ==> missing[0] in missing;
  }

  method Acceptable(d: Deps, p: Policy) returns (accepted: bool)
    ensures accepted <==> Valid(p) && Supplied(d, p)
  {
    var faults := Validate(p);
    var missing := RequirementsFor(d, p);
    accepted := faults == [] && missing == [];
  }

  datatype Route = Route(policy: Policy, work: Work, handler: Handler)

  /** A registered handler is the policy's whole chain around the work, and the policy holds up. */
  ghost predicate Protected(env: Env, d: Deps, route: Route) {
    && Valid(route.policy) && Supplied(d, route.policy)
    && route.handler == Folded(env, route.policy, ChainOf(route.policy), Adapt(route.work))
  }

  /** The policy attached to every pattern's OPTIONS handler. */
  const PREFLIGHT: Policy :=
    Policy("cors.preflight", Public, None, OwnerSource("", ""), [L.Rule(L.PerIP, 600, 60_000 * L.MILLISECOND)],
           false, false, false, false, false, false, 2_000 * L.MILLISECOND)

  const NO_CONTENT: Work := (a: Authz.Actor, r: Request, raw: Option<string>) => W.Responds(W.NoContent())

  lemma PreflightIsValid(d: Deps)
    ensures Valid(PREFLIGHT) && Supplied(d, PREFLIGHT)
  {
  }

  const OPTIONS: string := "OPTIONS"

  class Table {
    const env: Env
    const deps: Deps
    var mux: map<(string, string), Route>
    var preflighted: set<string>

    /** Every handler is protected, and every pattern on the mux answers OPTIONS. */
    ghost predicate Guarded()
      reads this
    {
      GuardedBut({})
    }

    ghost predicate GuardedBut(pending: set<string>)
      reads this
    {
      && (forall at :: at in mux ==> Protected(env, deps, mux[at]))
      && (forall at :: at in mux ==> at.1 in preflighted || at.1 in pending)
      && (forall pattern :: pattern in preflighted ==>
            (OPTIONS, pattern) in mux && mux[(OPTIONS, pattern)].policy == PREFLIGHT &&
            mux[(OPTIONS, pattern)].work == NO_CONTENT)
    }

    constructor (env: Env, deps: Deps)
      ensures this.env == env && this.deps == deps && mux == map[] && preflighted == {} && Guarded()
    {
      this.env, this.deps := env, deps;
      mux, preflighted := map[], {};
    }

    /** Folds the chain around the work and puts it on the mux. */
    method Install(verb: string, pattern: string, p: Policy, work: Work)
      requires Valid(p) && Supplied(deps, p)
      modifies this`mux
      ensures mux.Keys == old(mux).Keys + {(verb, pattern)}
      ensures forall at :: at in old(mux) && at != (verb, pattern) ==> mux[at] == old(mux)[at]
      ensures mux[(verb, pattern)].policy == p && mux[(verb, pattern)].work == work
      ensures Protected(env, deps, mux[(verb, pattern)])
    {
      var handler := Fold(env, p, work);
      hide Folded, Valid, Supplied, ChainOf;
      mux := mux[(verb, pattern) := Route(p, work, handler)];
    }

    /** The first route on a pattern brings its OPTIONS handler. */
    method RegisterPreflight(pattern: string)
      requires GuardedBut({pattern})
      modifies this
      ensures Guarded() && preflighted == old(preflighted) + {pattern}
      ensures mux.Keys == old(mux).Keys + {(OPTIONS, pattern)}
      ensures forall at :: at in old(mux) && at != (OPTIONS, pattern) ==> mux[at] == old(mux)[at]
      ensures pattern in old(preflighted) ==> mux == old(mux)
    {
      hide Valid, Supplied, Protected;
      if pattern !in preflighted {
        preflighted := preflighted + {pattern};
        PreflightIsValid(deps);
        Install(OPTIONS, pattern, PREFLIGHT, NO_CONTENT);
      }
    }

    /** Registers a route, or refuses it: the source panics at startup instead of returning false. */
    method Register(verb: string, pattern: string, p: Policy, work: Work) returns (accepted: bool)
      requires Guarded() && verb != OPTIONS
      modifies this
      ensures Guarded()
      ensures accepted <==> Valid(p) && Supplied(deps, p)
      ensures accepted ==>
        (verb, pattern) in mux && mux[(verb, pattern)].policy == p && mux[(verb, pattern)].work == work
      ensures accepted ==> mux.Keys == old(mux).Keys + {(verb, pattern), (OPTIONS, pattern)}
      ensures forall at :: at in old(mux) && at != (verb, pattern) && at != (OPTIONS, pattern) ==>
        at in mux && mux[at] == old(mux)[at]
      ensures !accepted ==> mux == old(mux) && preflighted == old(preflighted)
    {
      hide Valid, Supplied, Protected;
      accepted := Acceptable(deps, p);
      if accepted {
        InstallPending(verb, pattern, p, work);
        hide GuardedBut;
        RegisterPreflight(pattern);
      }
    }

    /** The route is on the mux; its pattern may still lack an OPTIONS handler. */
    method InstallPending(verb: string, pattern: string, p: Policy, work: Work)
      requires Guarded() && verb != OPTIONS && Valid(p) && Supplied(deps, p)
      modifies this`mux
      ensures GuardedBut({pattern})
      ensures mux.Keys == old(mux).Keys + {(verb, pattern)}
      ensures mux[(verb, pattern)].policy == p && mux[(verb, pattern)].work == work
      ensures forall at :: at in old(mux) && at != (verb, pattern) ==> mux[at] == old(mux)[at]
    {
      hide Valid, Supplied, Protected;
      Install(verb, pattern, p, work);
    }
  }

  /**
    A preflight is answered at the CORS step: nothing is asked, not even the limiter, so the
    preflight policy's own limit is never counted.
   */
  lemma PreflightAsksNothing(env: Env, p: Policy, h: Work, r: Request)
    requires env.minted && r.verb == "OPTIONS" && !p.rawBody
    ensures Admission.Served(env, p, h, r).Replied? && Admission.Served(env, p, h, r).reply == NoContent
    ensures forall n :: n in Admission.Served(env, p, h, r).log ==> !n.Asked? && !n.AskedLimiter? && !n.Ran?
  {
    hide Folded, ActorOf, RawOf, Admission.Served, FirstRefusing;
    ServedMeans(env, p, h, r);
    PreflightObjects(env, p, r);
    FirstObjectionStays(env, p, r, 2, |ORDER|);
    hide Objection, FirstObjection, Earned;
    var log := Admission.Served(env, p, h, r).log;
    forall i | 0 <= i < |log| && (log[i].Asked? || log[i].AskedLimiter?) ensures ClearTo(env, p, r, 2) {
      QuestionsComeLater(env, p, r, log, i);
    }
  }

  lemma PreflightObjects(env: Env, p: Policy, r: Request)
    requires r.verb == "OPTIONS" && !p.rawBody
    ensures FirstObjection(env, p, r, 2) == Some(Say(NoContent)) && Objection(env, p, r, ORDER[1]).Some?
  {
    hide ActorOf, FirstRefusing, MayAct, MayReach;
    assert FirstObjection(env, p, r, 0).None?;
    assert FirstObjection(env, p, r, 1) == Objection(env, p, r, BodyLimit);
    assert FirstObjection(env, p, r, 2) == Objection(env, p, r, Preflight);
  }

  /**
    A route that was accepted with a permission, called in any way at all, runs its work only
    for staff who hold a role granting it.
   */
  lemma RegisteredPermissionHolds(env: Env, d: Deps, route: Route, r: Request)
    requires Protected(env, d, route) && route.policy.permission.Some?
    requires HandlerRan(route.handler(Start(r)).log)
    ensures
      var a := ActorOf(env, route.policy, r);
      a.kind == Authz.Admin && Authz.HoldsGrantingRole(a.roles, route.policy.permission.value)
  {
    hide Folded, Authz.HoldsGrantingRole, Valid, ActorOf, HandlerRan;
    PermissionMeansGrantedStaff(env, route.policy, route.work, r);
  }

  /** An accepted route replies to an admitted request with the ending of the very work registered. */
  lemma RegisteredWorkReplies(env: Env, d: Deps, route: Route, r: Request)
    requires Protected(env, d, route) && Admitted(env, route.policy, r)
    requires W.Play(route.work(ActorOf(env, route.policy, r), r, RawOf(env, route.policy))).Wrote?
    ensures
      var o := route.handler(Start(r));
      && HandlerRan(o.log) && o.Replied?
      && o.reply == Handled(route.work(ActorOf(env, route.policy, r), r, RawOf(env, route.policy)))
  {
    hide Folded, Valid, ActorOf, RawOf, W.Play, Objection, FirstObjection, Earned;
    ClearIff(env, route.policy, r, |ORDER|);
    ClearIsAdmitted(env, route.policy, r);
    ServedMeans(env, route.policy, route.work, r);
  }

  /** An accepted route never asks a dependency the router does not have. */
  lemma RegisteredAsksWhatIsThere(env: Env, d: Deps, route: Route, r: Request)
    requires Protected(env, d, route)
    ensures
      var log := route.handler(Start(r)).log;
      && (Asked(Signed) in log ==> d.verifier) && (Asked(SessionLoad) in log ==> d.sessions)
      && (Asked(Owned) in log ==> d.owners) && (Asked(Ledger) in log ==> d.ledger)
  {
    hide Folded;
    OnlyDeclaredIsAsked(env, route.policy, route.work, r);
    assert !Has(route.policy, AuthUnset);
    var log := route.handler(Start(r)).log;
    if Asked(Signed) in log {
      assert Declared(route.policy, Asked(Signed)) && Needs(route.policy, SignatureVerifier);
    }
    if Asked(SessionLoad) in log {
      assert Declared(route.policy, Asked(SessionLoad)) && Needs(route.policy, SessionResolver);
    }
    if Asked(Owned) in log {
      assert Declared(route.policy, Asked(Owned)) && Needs(route.policy, OwnerResolver);
    }
    if Asked(Ledger) in log {
      assert Declared(route.policy, Asked(Ledger)) && Needs(route.policy, IdempotencyStore);
    }
  }

  /** Were it ever reached, the OPTIONS handler would answer an empty 204. */
  lemma PreflightWork(a: Authz.Actor, r: Request, raw: Option<string>)
    ensures W.Play(NO_CONTENT(a, r, raw)).Wrote?
    ensures W.Sent(W.Play(NO_CONTENT(a, r, raw)).calls).status == 204
  {
    W.UsualAnswers("", "");
    hide W.Play, W.Sent;
  }
}
