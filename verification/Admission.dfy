/**
  What the folded chain means. A route admits a request exactly when none of the checks its
  policy declares objects, each check stated on its own from the request, the policy and the
  answers the outside world gives; the first objection, in a fixed order, is the reply.
 */
module Admission {
  import opened Wrappers
  import opened Authz
  import opened Policy
  import opened Middleware
  import Strings
  import L = Limiter
  import I = Idempotency
  import R = StoredResponse
  import W = Responses

  // ----- what is declared

  datatype Halt = Say(reply: Reply) | Panic

  /** Who is asking. */
  function ActorOf(env: Env, p: Policy, r: Request): Actor {
    match p.auth
    case Public => ANONYMOUS
    case Signature =>
      if p.rawBody && env.body.Read? && env.verifier(r.signature, env.body.raw).Some?
      then env.verifier(r.signature, env.body.raw).value else ANONYMOUS
    case _ =>
      if r.sessionCookie != "" && env.sessions(r.sessionCookie).Known?
      then env.sessions(r.sessionCookie).actor else ANONYMOUS
  }

  predicate LetsThrough(env: Env, n: nat, rule: L.Rule, key: string) {
    && env.limiter(n, rule, key).Counted?
    && env.limiter(n, rule, key).outcome.Answered?
    && env.limiter(n, rule, key).outcome.answer.allowed
  }

  /** What the limiter's answer to the n-th question says when it does not let the request through. */
  function LimitHalt(env: Env, n: nat, rule: L.Rule, key: string): Halt {
    match env.limiter(n, rule, key)
    case Counted(Answered(a)) => Say(Refused(RateLimited(a.retryAfter / 1_000_000_000)))
    case Counted(DividesByZero) => Panic
    case _ => Say(Refused(ServiceUnavailable))
  }

  /** The first rule, if any, that does not let the request through. */
  function FirstRefusing(env: Env, n: nat, rules: seq<L.Rule>, key: string): (i: nat)
    ensures i <= |rules| && (i < |rules| ==> !LetsThrough(env, n + i, rules[i], key))
    ensures forall j :: 0 <= j < i ==> LetsThrough(env, n + j, rules[j], key)
    decreases |rules|
  {
    if rules == [] || !LetsThrough(env, n, rules[0], key) then 0
    else
      var i := FirstRefusing(env, n + 1, rules[1..], key);
      assert forall j :: 1 <= j < i + 1 ==> rules[j] == rules[1..][j - 1];
      i + 1
  }

  function RulesObject(env: Env, n: nat, rules: seq<L.Rule>, key: string): Option<Halt> {
    var i := FirstRefusing(env, n, rules, key);
    if i == |rules| then None else Some(LimitHalt(env, n + i, rules[i], key))
  }

  function Client(env: Env, r: Request): string {
    env.host(ClientAddress(env, r))
  }

  function ClientRules(p: Policy): seq<L.Rule> {
    RulesFor(p.rules, L.PerIP)
  }

  function SubjectRules(p: Policy): seq<L.Rule> {
    RulesFor(p.rules, L.PerSubject)
  }

  predicate Meets(auth: AuthMode, a: Actor) {
    match auth
    case Public => true
    case Signature => true
    case SessionOrGuest => a.kind == Customer || a.kind == Guest
    case Session => a.kind == Customer && a.id != ""
    case AdminOnly => a.kind == Admin && a.id != ""
    case _ => false
  }

  predicate IsStaff(a: Actor) {
    a.kind == Admin || a.kind == System
  }

  predicate MayAct(env: Env, a: Actor, action: Action) {
    !env.cancelledAtPermission && IsStaff(a) && HoldsGrantingRole(a.roles, action)
  }

  predicate MayReach(env: Env, p: Policy, a: Actor, owner: string) {
    && !env.cancelledAtOwnership
    && if IsStaff(a) then HoldsGrantingRole(a.roles, OwnershipAction(p))
       else (a.kind == Customer || a.kind == Guest) && OwnedKind(p.ownership.kind) && a.id != "" && owner == a.id
  }

  function ResourceId(p: Policy, r: Request): string {
    if p.ownership.param in r.params then r.params[p.ownership.param] else ""
  }

  /** What one declared check says about the request, on its own; `None` is no objection. */
  function Objection(env: Env, p: Policy, r: Request, c: Check): Option<Halt> {
    var a := ActorOf(env, p, r);
    match c
    case BodyLimit =>
      if !p.rawBody || env.body.Read? then None
      else Some(Say(Refused(if env.body.Oversized? then PayloadTooLarge else BadRequest)))
    case Preflight => if r.verb == "OPTIONS" then Some(Say(NoContent)) else None
    case ClientLimit =>
      var byIp := RulesObject(env, 0, ClientRules(p), p.name + ":" + Client(env, r));
      if byIp.Some? then byIp
      else
        RulesObject(env, |ClientRules(p)|, SubjectRules(p),
                    p.name + ":" + if r.rateSubject == "" then Client(env, r) else r.rateSubject)
    case Signed =>
      if p.auth != Signature then None
      else if !p.rawBody then Some(Say(Refused(Internal)))
      else if env.body.Read? && env.verifier(r.signature, env.body.raw).None? then Some(Say(Refused(BadRequest)))
      else None
    case SessionLoad =>
      if p.auth != Signature && p.auth != Public && r.sessionCookie != "" && env.sessions(r.sessionCookie).SessionsDown?
      then Some(Say(Refused(ServiceUnavailable))) else None
    case Csrf =>
      if p.csrf && !SafeVerb(r.verb) && !(r.csrfHeader != "" && r.csrfCookie == Some(r.csrfHeader))
      then Some(Say(Refused(Forbidden))) else None
    case Authenticated =>
      if Meets(p.auth, a) then None
      else Some(Say(Refused(if p.auth.Unset? || p.auth.OutOfRange? then NotFound else NotSignedIn)))
    case Permitted =>
      if p.permission.Some? && !MayAct(env, a, p.permission.value) then Some(Say(Refused(Forbidden))) else None
    case Owned =>
      if p.ownership.IsZero() then None
      else if ResourceId(p, r) == "" then Some(Say(Refused(NotFound)))
      else
        (match env.owners(p.ownership.kind, ResourceId(p, r))
         case OwnersDown => Some(Say(Refused(ServiceUnavailable)))
         case NoSuchResource => Some(Say(Refused(NotFound)))
         case OwnedBy(owner) => if MayReach(env, p, a, owner) then None else Some(Say(Refused(NotFound))))
    case Reauthed =>
      if p.reauth && !ReauthedWithin(a, env.now, env.reauthWindow) then Some(Say(Refused(ReauthRequired))) else None
    case ActorLimit =>
      RulesObject(env, |ClientRules(p)| + |SubjectRules(p)|, RulesFor(p.rules, L.PerActor),
                  p.name + ":" + if a.id == "" then Client(env, r) else a.id)
    case Ledger =>
      if !p.idempotent then None
      else if r.idempotencyKey == "" || Strings.ByteLength(r.idempotencyKey) > I.MAX_KEY then
        Some(Say(Refused(BadRequest)))
      else
        match env.ledger(a.id, r.idempotencyKey)
        case Claimed => None
        case Stored(response) => if W.Sendable(response.status) then Some(Say(Replayed(response))) else Some(Panic)
        case _ => Some(Say(Refused(ServiceUnavailable)))
  }

  /** The first of the first n checks to object. */
  function FirstObjection(env: Env, p: Policy, r: Request, n: nat): Option<Halt>
    requires n <= |ORDER|
  {
    if n == 0 then None
    else
      var earlier := FirstObjection(env, p, r, n - 1);
      if earlier.Some? then earlier else Objection(env, p, r, ORDER[n - 1])
  }

  predicate Admitted(env: Env, p: Policy, r: Request) {
    env.minted && forall c :: c in ORDER ==> Objection(env, p, r, c).None?
  }

  /** None of the checks before position n objects. */
  predicate ClearTo(env: Env, p: Policy, r: Request, n: nat)
    requires n <= |ORDER|
  {
    forall k :: 0 <= k < n ==> Objection(env, p, r, ORDER[k]).None?
  }

  lemma {:induction false} ClearIff(env: Env, p: Policy, r: Request, n: nat)
    requires n <= |ORDER|
    ensures FirstObjection(env, p, r, n).None? <==> ClearTo(env, p, r, n)
  {
    hide Objection;
    if n > 0 {
      ClearIff(env, p, r, n - 1);
    }
  }

  lemma {:induction false} FirstObjectionStays(env: Env, p: Policy, r: Request, m: nat, n: nat)
    requires m <= n <= |ORDER| && FirstObjection(env, p, r, m).Some?
    ensures FirstObjection(env, p, r, n) == FirstObjection(env, p, r, m)
    decreases n
  {
    hide Objection;
    if m < n {
      FirstObjectionStays(env, p, r, m, n - 1);
    }
  }

  // ----- the gates, run one after another

  predicate AllGates(layers: seq<Layer>) {
    forall i :: 0 <= i < |layers| ==> IsGate(layers[i])
  }

  function Sieve(env: Env, p: Policy, layers: seq<Layer>, c: Ctx): Gate
    requires AllGates(layers)
  {
    if layers == [] then Pass(c)
    else
      match GateOf(env, p, layers[0], c)
      case Stop(o) => Stop(o)
      case Pass(c') => Sieve(env, p, layers[1..], c')
  }

  lemma {:induction false} SieveAppend(env: Env, p: Policy, a: seq<Layer>, b: seq<Layer>, c: Ctx)
    requires AllGates(a) && AllGates(b)
    ensures Sieve(env, p, a + b, c) ==
      match Sieve(env, p, a, c) case Stop(o) => Stop(o) case Pass(c') => Sieve(env, p, b, c')
  {
    hide GateOf;
    if a == [] {
      assert a + b == b;
    } else {
      assert (a + b)[1..] == a[1..] + b;
      var g := GateOf(env, p, a[0], c);
      if g.Pass? {
        SieveAppend(env, p, a[1..], b, g.ctx);
      }
    }
  }

  /** Folding gates around a handler is running them in order and then the handler. */
  lemma {:induction false} FoldedGates(env: Env, p: Policy, layers: seq<Layer>, h: Handler, c: Ctx)
    requires AllGates(layers)
    ensures Folded(env, p, layers, h)(c) == match Sieve(env, p, layers, c) case Stop(o) => o case Pass(c') => h(c')
  {
    hide GateOf;
    if layers != [] {
      var g := GateOf(env, p, layers[0], c);
      if g.Pass? {
        FoldedGates(env, p, layers[1..], h, g.ctx);
      }
    }
  }

  lemma {:induction false} FoldedAppend(env: Env, p: Policy, a: seq<Layer>, b: seq<Layer>, h: Handler)
    ensures Folded(env, p, a + b, h) == Folded(env, p, a, Folded(env, p, b, h))
  {
    hide Apply;
    if a == [] {
      assert a + b == b;
    } else {
      assert (a + b)[1..] == a[1..] + b;
      FoldedAppend(env, p, a[1..], b, h);
    }
  }

  // ----- one check at a time

  const GATES: nat := 11

  /** How long a request may take: what its policy says, or the router's own limit. */
  function TimeAllowed(env: Env, p: Policy): int {
    if p.timeout > 0 then p.timeout else env.requestTimeout
  }

  /** The context once the first n checks have passed. */
  predicate Fit(env: Env, p: Policy, r: Request, c: Ctx, n: nat) {
    && c.request == r && c.address == ClientAddress(env, r)
    && (n >= 1 && p.rawBody ==> env.body.Read?)
    && (n >= 1 ==> c.deadline == TimeAllowed(env, p))
    && c.raw == (if n >= 1 && p.rawBody then Some(env.body.raw) else None)
    && (if n <= 3 then c.actor.None?
        else if n == 4 && p.auth != Signature then c.actor.None?
        else ActorFrom(c) == ActorOf(env, p, r))
    && (n <= 2 ==> c.asked == 0)
    && (3 <= n <= 10 ==> c.asked == |ClientRules(p)| + |SubjectRules(p)|)
  }

  /** The checks that ask the outside world anything. */
  predicate AsksOutside(c: Check) {
    c == ClientLimit || c == Signed || c == SessionLoad || c == Owned || c == ActorLimit || c == Ledger
  }

  predicate IsAsk(n: Note, check: Check) {
    (n.Asked? || n.AskedLimiter?) && n.check == check && AsksOutside(check)
  }

  /** Only questions of this check have been added to the log. */
  predicate Adds(before: seq<Note>, after: seq<Note>, check: Check) {
    before <= after && forall i :: |before| <= i < |after| ==> IsAsk(after[i], check)
  }

  /** The gate's verdict is the check's. */
  predicate Verdict(g: Gate, log: seq<Note>, check: Check, objection: Option<Halt>) {
    match objection
    case None => g.Pass? && Adds(log, g.ctx.log, check)
    case Some(Say(reply)) => g.Stop? && g.outcome.Replied? && g.outcome.reply == reply &&
      Adds(log, g.outcome.log, check)
    case Some(Panic) => g.Stop? && g.outcome.Panicked? && !g.outcome.abort && Adds(log, g.outcome.log, check)
  }

  lemma {:induction false} RulesVerdict(env: Env, check: Check, rules: seq<L.Rule>, key: string, c: Ctx)
    requires AsksOutside(check)
    ensures
      var g := ApplyRules(env, check, rules, key, c);
      && Verdict(g, c.log, check, RulesObject(env, c.asked, rules, key))
      && (g.Pass? ==> g.ctx == c.(asked := c.asked + |rules|, log := g.ctx.log))
    decreases |rules|
  {
    hide LetsThrough, LimitHalt, RulesObject, ApplyRules, Verdict;
    if rules == [] {
      NoRules(env, check, key, c);
    } else if !LetsThrough(env, c.asked, rules[0], key) {
      RuleRefuses(env, check, rules, key, c);
    } else {
      RuleLets(env, check, rules, key, c);
      var asked := Noting(c, AskedLimiter(check, rules[0], key)).(asked := c.asked + 1);
      RulesVerdict(env, check, rules[1..], key, asked);
      RulesObjectStep(env, c.asked, rules, key);
      VerdictLater(ApplyRules(env, check, rules, key, c), c.log, AskedLimiter(check, rules[0], key), check,
                   RulesObject(env, c.asked, rules, key));
    }
  }

  lemma NoRules(env: Env, check: Check, key: string, c: Ctx)
    ensures ApplyRules(env, check, [], key, c) == Pass(c)
    ensures Verdict(Pass(c), c.log, check, RulesObject(env, c.asked, [], key))
  {
  }

  lemma RuleRefuses(env: Env, check: Check, rules: seq<L.Rule>, key: string, c: Ctx)
    requires rules != [] && !LetsThrough(env, c.asked, rules[0], key) && AsksOutside(check)
    ensures ApplyRules(env, check, rules, key, c).Stop?
    ensures Verdict(ApplyRules(env, check, rules, key, c), c.log, check, RulesObject(env, c.asked, rules, key))
  {
    assert FirstRefusing(env, c.asked, rules, key) == 0;
    hide FirstRefusing;
  }

  lemma RuleLets(env: Env, check: Check, rules: seq<L.Rule>, key: string, c: Ctx)
    requires rules != [] && LetsThrough(env, c.asked, rules[0], key)
    ensures
      var asked := Noting(c, AskedLimiter(check, rules[0], key)).(asked := c.asked + 1);
      ApplyRules(env, check, rules, key, c) == ApplyRules(env, check, rules[1..], key, asked)
  {
  }

  lemma VerdictLater(g: Gate, log: seq<Note>, n: Note, check: Check, objection: Option<Halt>)
    requires IsAsk(n, check) && Verdict(g, log + [n], check, objection)
    ensures Verdict(g, log, check, objection)
  {
    hide IsAsk;
  }

  lemma RulesObjectStep(env: Env, n: nat, rules: seq<L.Rule>, key: string)
    requires rules != [] && LetsThrough(env, n, rules[0], key)
    ensures RulesObject(env, n, rules, key) == RulesObject(env, n + 1, rules[1..], key)
  {
    hide LetsThrough, LimitHalt;
  }

  lemma GatesOnly(p: Policy, n: nat)
    requires n < GATES
    ensures AllGates(LayersFor(p, ORDER[n]))
  {
  }

  lemma {:induction false} LayersAreGates(p: Policy, n: nat)
    requires n <= GATES
    ensures AllGates(Layers(p, n))
  {
    hide LayersFor, IsGate;
    if n > 0 {
      LayersAreGates(p, n - 1);
      GatesOnly(p, n - 1);
    }
  }

  lemma SieveOne(env: Env, p: Policy, l: Layer, c: Ctx)
    requires IsGate(l)
    ensures Sieve(env, p, [l], c) == GateOf(env, p, l, c)
  {
    hide GateOf;
    assert [l][1..] == [];
  }

  lemma NothingSieves(env: Env, p: Policy, c: Ctx)
    ensures Sieve(env, p, [], c) == Pass(c)
  {
  }

  lemma SieveTwo(env: Env, p: Policy, l: Layer, m: Layer, c: Ctx)
    requires IsGate(l) && IsGate(m)
    ensures Sieve(env, p, [l, m], c) ==
      match GateOf(env, p, l, c) case Stop(o) => Stop(o) case Pass(c') => GateOf(env, p, m, c')
  {
    hide GateOf;
    assert [l, m] == [l] + [m];
    SieveAppend(env, p, [l], [m], c);
    SieveOne(env, p, l, c);
    var g := GateOf(env, p, l, c);
    if g.Pass? {
      SieveOne(env, p, m, g.ctx);
    }
  }

  /** What running the layers of check n from a fitting context comes to. */
  predicate CheckDone(env: Env, p: Policy, r: Request, c: Ctx, n: nat, g: Gate)
    requires n < GATES
  {
    && Verdict(g, c.log, ORDER[n], Objection(env, p, r, ORDER[n]))
    && (g.Pass? ==> Fit(env, p, r, g.ctx, n + 1))
  }

  lemma BodyDone(env: Env, p: Policy, r: Request, c: Ctx)
    requires Fit(env, p, r, c, 0)
    ensures AllGates(LayersFor(p, BodyLimit)) && CheckDone(env, p, r, c, 0, Sieve(env, p, LayersFor(p, BodyLimit), c))
  {
    SieveTwo(env, p, LTimeout, LBodyLimit, c);
    hide Sieve, ClientAddress, ActorOf, RulesFor,
         RulesObject, MayAct, MayReach, ReauthedWithin, ClientRules, SubjectRules;
  }

  lemma PreflightDone(env: Env, p: Policy, r: Request, c: Ctx)
    requires Fit(env, p, r, c, 1)
    ensures AllGates(LayersFor(p, Preflight)) && CheckDone(env, p, r, c, 1, Sieve(env, p, LayersFor(p, Preflight), c))
  {
    SieveTwo(env, p, LSecurityHeaders, LCors, c);
    hide Sieve, ClientAddress, ActorOf, RulesFor,
         RulesObject, MayAct, MayReach, ReauthedWithin, ClientRules, SubjectRules;
  }

  lemma ClientLimitVerdict(env: Env, p: Policy, r: Request, c: Ctx)
    requires c.request == r && c.address == ClientAddress(env, r) && c.asked == 0
    ensures
      var g := LimitClient(env, p, c);
      && Verdict(g, c.log, ClientLimit, Objection(env, p, r, ClientLimit))
      && (g.Pass? ==> g.ctx == c.(asked := |ClientRules(p)| + |SubjectRules(p)|, log := g.ctx.log))
  {
    hide ClientAddress, ActorOf, RulesFor, ApplyRules, RulesObject, Adds;
    var key := p.name + ":" + Client(env, r);
    RulesVerdict(env, ClientLimit, ClientRules(p), key, c);
    var g := ApplyRules(env, ClientLimit, ClientRules(p), key, c);
    if g.Pass? {
      var key' := p.name + ":" + if r.rateSubject == "" then Client(env, r) else r.rateSubject;
      RulesVerdict(env, ClientLimit, SubjectRules(p), key', g.ctx);
      VerdictAfter(ApplyRules(env, ClientLimit, SubjectRules(p), key', g.ctx), c.log, g.ctx.log, ClientLimit,
                   RulesObject(env, |ClientRules(p)|, SubjectRules(p), key'));
    }
  }

  lemma ClientLimitDone(env: Env, p: Policy, r: Request, c: Ctx)
    requires Fit(env, p, r, c, 2)
    ensures AllGates(LayersFor(p, ClientLimit)) &&
      CheckDone(env, p, r, c, 2, Sieve(env, p, LayersFor(p, ClientLimit), c))
  {
    SieveOne(env, p, LRateLimitIp, c);
    ClientLimitVerdict(env, p, r, c);
    hide Sieve, ClientAddress, ActorOf, RulesFor, LimitClient, Objection, Verdict, ClientRules, SubjectRules;
  }

  lemma VerdictAfter(g: Gate, log: seq<Note>, between: seq<Note>, check: Check, objection: Option<Halt>)
    requires Adds(log, between, check) && Verdict(g, between, check, objection)
    ensures Verdict(g, log, check, objection)
  {
    hide IsAsk;
  }

  lemma SignedVerdict(env: Env, p: Policy, r: Request, c: Ctx)
    requires Fit(env, p, r, c, 3) && p.auth == Signature
    ensures CheckDone(env, p, r, c, 3, VerifySignature(env, c))
  {
    hide ClientAddress, RulesFor, RulesObject, MayAct, MayReach, ClientRules, SubjectRules, ReauthedWithin;
  }

  lemma SignedUndeclared(env: Env, p: Policy, r: Request, c: Ctx)
    requires Fit(env, p, r, c, 3) && !(p.auth == Signature)
    ensures CheckDone(env, p, r, c, 3, Pass(c))
  {
    hide ClientAddress, RulesFor, RulesObject, MayAct, MayReach, ClientRules, SubjectRules, ReauthedWithin;
  }

  lemma SignedDone(env: Env, p: Policy, r: Request, c: Ctx)
    requires Fit(env, p, r, c, 3)
    ensures AllGates(LayersFor(p, Signed)) &&
      CheckDone(env, p, r, c, 3, Sieve(env, p, LayersFor(p, Signed), c))
  {
    hide Sieve, Fit, CheckDone, VerifySignature;
    if p.auth == Signature {
      SieveOne(env, p, LVerifySignature, c);
      SignedVerdict(env, p, r, c);
    } else {
      NothingSieves(env, p, c);
      SignedUndeclared(env, p, r, c);
    }
  }

  lemma SessionVerdict(env: Env, p: Policy, r: Request, c: Ctx)
    requires Fit(env, p, r, c, 4) && p.auth != Signature && p.auth != Public
    ensures CheckDone(env, p, r, c, 4, LoadSession(env, c))
  {
    hide ClientAddress, RulesFor, ClientRules, SubjectRules;
  }

  lemma NoSessionNeeded(env: Env, p: Policy, r: Request, c: Ctx)
    requires Fit(env, p, r, c, 4) && (p.auth == Signature || p.auth == Public)
    ensures CheckDone(env, p, r, c, 4, Pass(c))
  {
    hide ClientAddress, RulesFor, ClientRules, SubjectRules;
  }

  lemma SessionDone(env: Env, p: Policy, r: Request, c: Ctx)
    requires Fit(env, p, r, c, 4)
    ensures AllGates(LayersFor(p, SessionLoad)) &&
      CheckDone(env, p, r, c, 4, Sieve(env, p, LayersFor(p, SessionLoad), c))
  {
    hide Sieve, Fit, CheckDone, LoadSession;
    if p.auth != Signature && p.auth != Public {
      SieveOne(env, p, LLoadSession, c);
      SessionVerdict(env, p, r, c);
    } else {
      NothingSieves(env, p, c);
      NoSessionNeeded(env, p, r, c);
    }
  }

  lemma CsrfVerdict(env: Env, p: Policy, r: Request, c: Ctx)
    requires Fit(env, p, r, c, 5) && p.csrf
    ensures CheckDone(env, p, r, c, 5, CheckCsrf(c))
  {
    hide ClientAddress, RulesFor, RulesObject, MayAct, MayReach, ClientRules, SubjectRules, ReauthedWithin,
         ActorOf;
  }

  lemma CsrfUndeclared(env: Env, p: Policy, r: Request, c: Ctx)
    requires Fit(env, p, r, c, 5) && !(p.csrf)
    ensures CheckDone(env, p, r, c, 5, Pass(c))
  {
    hide ClientAddress, RulesFor, RulesObject, MayAct, MayReach, ClientRules, SubjectRules, ReauthedWithin,
         ActorOf;
  }

  lemma CsrfDone(env: Env, p: Policy, r: Request, c: Ctx)
    requires Fit(env, p, r, c, 5)
    ensures AllGates(LayersFor(p, Csrf)) &&
      CheckDone(env, p, r, c, 5, Sieve(env, p, LayersFor(p, Csrf), c))
  {
    hide Sieve, Fit, CheckDone, CheckCsrf;
    if p.csrf {
      SieveOne(env, p, LCsrf, c);
      CsrfVerdict(env, p, r, c);
    } else {
      NothingSieves(env, p, c);
      CsrfUndeclared(env, p, r, c);
    }
  }

  lemma AuthenticatedVerdict(env: Env, p: Policy, r: Request, c: Ctx)
    requires Fit(env, p, r, c, 6)
    ensures CheckDone(env, p, r, c, 6, RequireAuth(p, c))
  {
    hide ClientAddress, RulesFor, RulesObject, MayAct, MayReach, ClientRules, SubjectRules, ReauthedWithin,
         ActorOf;
  }

  lemma AuthenticatedDone(env: Env, p: Policy, r: Request, c: Ctx)
    requires Fit(env, p, r, c, 6)
    ensures AllGates(LayersFor(p, Authenticated)) &&
      CheckDone(env, p, r, c, 6, Sieve(env, p, LayersFor(p, Authenticated), c))
  {
    hide Sieve, Fit, CheckDone, RequireAuth;
    SieveOne(env, p, LRequireAuth, c);
    AuthenticatedVerdict(env, p, r, c);
  }

  lemma PermittedDone(env: Env, p: Policy, r: Request, c: Ctx)
    requires Fit(env, p, r, c, 7)
    ensures AllGates(LayersFor(p, Permitted)) && CheckDone(env, p, r, c, 7, Sieve(env, p, LayersFor(p, Permitted), c))
  {
    if p.permission.Some? {
      SieveOne(env, p, LRequirePermission(p.permission.value), c);
      CanIff(env.cancelledAtPermission, ActorFrom(c), p.permission.value, ANY_RESOURCE);
    }
    NothingSieves(env, p, c);
    hide Sieve, ClientAddress, RulesFor, ActorOf, Can, HoldsGrantingRole,
         RulesObject, MayReach, ReauthedWithin, ClientRules, SubjectRules;
  }

  lemma OwnedDone(env: Env, p: Policy, r: Request, c: Ctx)
    requires Fit(env, p, r, c, 8)
    ensures AllGates(LayersFor(p, Owned)) && CheckDone(env, p, r, c, 8, Sieve(env, p, LayersFor(p, Owned), c))
  {
    if !p.ownership.IsZero() {
      SieveOne(env, p, LRequireOwnership, c);
      OwnershipDone(env, p, r, c);
    }
    hide Sieve, GateOf, Objection, Fit, Verdict;
    if p.ownership.IsZero() {
      NothingOwned(env, p, r, c);
    }
  }

  lemma NothingOwned(env: Env, p: Policy, r: Request, c: Ctx)
    requires Fit(env, p, r, c, 8) && p.ownership.IsZero()
    ensures CheckDone(env, p, r, c, 8, Sieve(env, p, [], c))
  {
    hide ClientAddress, RulesFor, ActorOf,
         RulesObject, MayAct, MayReach, ReauthedWithin, ClientRules, SubjectRules;
  }

  lemma OwnershipDone(env: Env, p: Policy, r: Request, c: Ctx)
    requires Fit(env, p, r, c, 8) && !p.ownership.IsZero()
    ensures CheckDone(env, p, r, c, 8, RequireOwnership(env, p, c))
  {
    hide ClientAddress, RulesFor, ActorOf, Can, HoldsGrantingRole, OwnershipAction,
         RulesObject, MayAct, ReauthedWithin, ClientRules, SubjectRules;
    var id := ResourceId(p, r);
    if id != "" && env.owners(p.ownership.kind, id).OwnedBy? {
      var owner := env.owners(p.ownership.kind, id).id;
      CanIff(env.cancelledAtOwnership, ActorFrom(c), OwnershipAction(p), Resource(p.ownership.kind, id, owner));
    }
  }

  lemma ReauthedVerdict(env: Env, p: Policy, r: Request, c: Ctx)
    requires Fit(env, p, r, c, 9) && p.reauth
    ensures CheckDone(env, p, r, c, 9, RequireReauth(env, c))
  {
    hide ClientAddress, RulesFor, RulesObject, MayAct, MayReach, ClientRules, SubjectRules, ReauthedWithin,
         ActorOf;
  }

  lemma ReauthedUndeclared(env: Env, p: Policy, r: Request, c: Ctx)
    requires Fit(env, p, r, c, 9) && !(p.reauth)
    ensures CheckDone(env, p, r, c, 9, Pass(c))
  {
    hide ClientAddress, RulesFor, RulesObject, MayAct, MayReach, ClientRules, SubjectRules, ReauthedWithin,
         ActorOf;
  }

  lemma ReauthedDone(env: Env, p: Policy, r: Request, c: Ctx)
    requires Fit(env, p, r, c, 9)
    ensures AllGates(LayersFor(p, Reauthed)) &&
      CheckDone(env, p, r, c, 9, Sieve(env, p, LayersFor(p, Reauthed), c))
  {
    hide Sieve, Fit, CheckDone, RequireReauth;
    if p.reauth {
      SieveOne(env, p, LRequireReauth, c);
      ReauthedVerdict(env, p, r, c);
    } else {
      NothingSieves(env, p, c);
      ReauthedUndeclared(env, p, r, c);
    }
  }

  lemma ActorLimitVerdict(env: Env, p: Policy, r: Request, c: Ctx)
    requires c.address == ClientAddress(env, r) && ActorFrom(c) == ActorOf(env, p, r)
    requires c.asked == |ClientRules(p)| + |SubjectRules(p)|
    ensures
      var g := LimitActor(env, p, c);
      && Verdict(g, c.log, ActorLimit, Objection(env, p, r, ActorLimit))
      && (g.Pass? ==> g.ctx == c.(asked := g.ctx.asked, log := g.ctx.log))
  {
    hide ClientAddress, ActorOf, RulesFor, ApplyRules, RulesObject, Verdict, ClientRules, SubjectRules;
    var a := ActorOf(env, p, r);
    RulesVerdict(env, ActorLimit, RulesFor(p.rules, L.PerActor),
                 p.name + ":" + if a.id == "" then Client(env, r) else a.id, c);
  }

  lemma ActorLimitDone(env: Env, p: Policy, r: Request, c: Ctx)
    requires Fit(env, p, r, c, 10)
    ensures AllGates(LayersFor(p, ActorLimit)) &&
      CheckDone(env, p, r, c, 10, Sieve(env, p, LayersFor(p, ActorLimit), c))
  {
    SieveOne(env, p, LRateLimitActor, c);
    ActorLimitVerdict(env, p, r, c);
    hide Sieve, ClientAddress, ActorOf, RulesFor, LimitActor, Objection, Verdict, ClientRules, SubjectRules;
  }

  lemma OneCheck(env: Env, p: Policy, r: Request, c: Ctx, n: nat)
    requires n < GATES && Fit(env, p, r, c, n)
    ensures AllGates(LayersFor(p, ORDER[n])) && CheckDone(env, p, r, c, n, Sieve(env, p, LayersFor(p, ORDER[n]), c))
  {
    hide Fit, CheckDone, Sieve, LayersFor, Objection, AllGates;
    match n
    case 0 => BodyDone(env, p, r, c);
    case 1 => PreflightDone(env, p, r, c);
    case 2 => ClientLimitDone(env, p, r, c);
    case 3 => SignedDone(env, p, r, c);
    case 4 => SessionDone(env, p, r, c);
    case 5 => CsrfDone(env, p, r, c);
    case 6 => AuthenticatedDone(env, p, r, c);
    case 7 => PermittedDone(env, p, r, c);
    case 8 => OwnedDone(env, p, r, c);
    case 9 => ReauthedDone(env, p, r, c);
    case 10 => ActorLimitDone(env, p, r, c);
  }

  // ----- the whole chain

  function Start(r: Request): Ctx {
    Ctx(r, r.remote, 0, None, None, 0, [])
  }

  /** The context that reaches the first declared check. */
  function Entry(env: Env, r: Request): Ctx {
    Start(r).(address := ClientAddress(env, r))
  }

  /** Every question in the log was asked with no earlier objection outstanding. */
  predicate Earned(env: Env, p: Policy, r: Request, log: seq<Note>) {
    && (forall i, n :: 0 <= i < |log| && 0 <= n < |ORDER| && IsAsk(log[i], ORDER[n]) ==> ClearTo(env, p, r, n))
    && (forall i :: 0 <= i < |log| && (log[i].Asked? || log[i].AskedLimiter?) ==> AsksOutside(log[i].check))
  }

  predicate OnlyAsks(log: seq<Note>) {
    forall i :: 0 <= i < |log| ==> (log[i].Asked? || log[i].AskedLimiter?) && AsksOutside(log[i].check)
  }

  /** The first n checks, run in order, object exactly as declared. */
  predicate Sieved(env: Env, p: Policy, r: Request, n: nat, g: Gate)
    requires n <= GATES
  {
    match FirstObjection(env, p, r, n)
    case None => g.Pass? && Fit(env, p, r, g.ctx, n) && Earned(env, p, r, g.ctx.log) && OnlyAsks(g.ctx.log)
    case Some(halt) =>
      && g.Stop? && Earned(env, p, r, g.outcome.log) && OnlyAsks(g.outcome.log)
      && match halt
         case Say(reply) => g.outcome.Replied? && g.outcome.reply == reply
         case Panic => g.outcome.Panicked? && !g.outcome.abort
  }

  lemma EarnedMore(env: Env, p: Policy, r: Request, log: seq<Note>, more: seq<Note>, n: nat)
    requires n < GATES && Earned(env, p, r, log) && OnlyAsks(log) && Adds(log, more, ORDER[n]) && ClearTo(env, p, r, n)
    ensures Earned(env, p, r, more) && OnlyAsks(more)
  {
    hide Objection, ClearTo;
    forall i, m | 0 <= i < |more| && 0 <= m < |ORDER| && IsAsk(more[i], ORDER[m]) ensures ClearTo(env, p, r, m) {
      if i < |log| {
        assert more[i] == log[i];
      } else {
        assert IsAsk(more[i], ORDER[n]);
        SameCheck(m, n);
      }
    }
  }

  lemma SameCheck(m: nat, n: nat)
    requires m < |ORDER| && n < |ORDER| && ORDER[m] == ORDER[n]
    ensures m == n
  {
  }

  lemma {:induction false} SieveMeans(env: Env, p: Policy, r: Request, n: nat)
    requires n <= GATES
    ensures AllGates(Layers(p, n)) && Sieved(env, p, r, n, Sieve(env, p, Layers(p, n), Entry(env, r)))
  {
    hide Sieve, LayersFor, AllGates, Sieved;
    LayersAreGates(p, n);
    if n == 0 {
      NothingSieved(env, p, r);
    } else {
      SieveMeans(env, p, r, n - 1);
      SieveStep(env, p, r, n - 1);
    }
  }

  lemma SieveStep(env: Env, p: Policy, r: Request, n: nat)
    requires n < GATES && AllGates(Layers(p, n)) && AllGates(Layers(p, n + 1))
    requires Sieved(env, p, r, n, Sieve(env, p, Layers(p, n), Entry(env, r)))
    ensures Sieved(env, p, r, n + 1, Sieve(env, p, Layers(p, n + 1), Entry(env, r)))
  {
    hide Sieve, Objection, LayersFor, Fit, Verdict, Earned, AllGates, OnlyAsks;
    var g := Sieve(env, p, Layers(p, n), Entry(env, r));
    GatesOnly(p, n);
    SieveAppend(env, p, Layers(p, n), LayersFor(p, ORDER[n]), Entry(env, r));
    if g.Pass? {
      ClearIff(env, p, r, n);
      OneCheck(env, p, r, g.ctx, n);
      hide CheckDone, Sieved;
      NextSieved(env, p, r, n, g.ctx, Sieve(env, p, LayersFor(p, ORDER[n]), g.ctx));
    }
  }

  lemma NothingSieved(env: Env, p: Policy, r: Request)
    ensures Sieved(env, p, r, 0, Sieve(env, p, [], Entry(env, r)))
  {
    hide ClientAddress, ActorOf;
  }

  lemma NextSieved(env: Env, p: Policy, r: Request, n: nat, c: Ctx, g: Gate)
    requires n < GATES && FirstObjection(env, p, r, n).None? && ClearTo(env, p, r, n)
    requires Earned(env, p, r, c.log) && OnlyAsks(c.log) && CheckDone(env, p, r, c, n, g)
    ensures Sieved(env, p, r, n + 1, g)
  {
    hide Objection, Fit, Earned, OnlyAsks, Adds, ClearTo;
    EarnedMore(env, p, r, c.log, if g.Pass? then g.ctx.log else g.outcome.log, n);
  }

  // ----- the ledger and the handler

  function RawOf(env: Env, p: Policy): Option<string> {
    if p.rawBody && env.body.Read? then Some(env.body.raw) else None
  }

  predicate NoRuns(log: seq<Note>) {
    forall i :: 0 <= i < |log| ==> !log[i].Ran?
  }

  predicate RunsOnce(log: seq<Note>, a: Actor) {
    exists i :: 0 <= i < |log| && log[i] == Ran(a) && forall j :: 0 <= j < |log| && j != i ==> !log[j].Ran?
  }

  predicate NoLines(log: seq<Note>) {
    forall i :: 0 <= i < |log| ==> !log[i].Line?
  }

  /** What the handler's ending becomes. */
  predicate Ends(o: Outcome, ending: W.Ending) {
    match W.Play(ending)
    case Wrote(_) => o.Replied? && o.reply == Handled(ending)
    case Crashed(abort) => o.Panicked? && o.abort == abort
  }

  /** The outcome inside the access log: the first objection, or the handler run once. */
  predicate Answered(env: Env, p: Policy, r: Request, h: Work, o: Outcome) {
    && Earned(env, p, r, o.log) && NoLines(o.log)
    && match FirstObjection(env, p, r, |ORDER|)
       case Some(Say(reply)) => o.Replied? && o.reply == reply && NoRuns(o.log)
       case Some(Panic) => o.Panicked? && !o.abort && NoRuns(o.log)
       case None => RunsOnce(o.log, ActorOf(env, p, r)) && Ends(o, h(ActorOf(env, p, r), r, RawOf(env, p)))
  }

  lemma RunLogged(env: Env, p: Policy, r: Request, log: seq<Note>, a: Actor, more: seq<Note>)
    requires Earned(env, p, r, log) && OnlyAsks(log) && |more| <= 1 && forall i :: 0 <= i < |more| ==> more[i].Saved?
    ensures
      var all := log + [Ran(a)] + more;
      Earned(env, p, r, all) && NoLines(all) && RunsOnce(all, a)
  {
    hide ClearTo;
    var all := log + [Ran(a)] + more;
    assert all[|log|] == Ran(a);
  }

  lemma LedgerAsked(env: Env, p: Policy, r: Request, log: seq<Note>)
    requires Earned(env, p, r, log) && OnlyAsks(log) && ClearTo(env, p, r, GATES)
    ensures
      var all := log + [Asked(Ledger)];
      Earned(env, p, r, all) && OnlyAsks(all)
  {
    hide Objection;
    var all := log + [Asked(Ledger)];
    forall i, n | 0 <= i < |all| && 0 <= n < |ORDER| && IsAsk(all[i], ORDER[n]) ensures ClearTo(env, p, r, n) {
      if i == |log| {
        SameCheck(n, GATES);
      }
    }
  }

  lemma HandlerAnswers(env: Env, p: Policy, r: Request, h: Work, c: Ctx)
    requires Fit(env, p, r, c, GATES) && Earned(env, p, r, c.log) && OnlyAsks(c.log)
    requires FirstObjection(env, p, r, |ORDER|).None?
    ensures Answered(env, p, r, h, Adapt(h)(c))
  {
    hide FirstObjection, Earned, OnlyAsks, NoLines, RunsOnce, ActorOf, ClientAddress;
    RunLogged(env, p, r, c.log, ActorFrom(c), []);
    assert c.log + [Ran(ActorFrom(c))] + [] == c.log + [Ran(ActorFrom(c))];
  }

  lemma SavedAnswers(env: Env, p: Policy, r: Request, h: Work, c: Ctx, response: R.Response)
    requires Fit(env, p, r, c, GATES) && Earned(env, p, r, c.log) && OnlyAsks(c.log)
    requires FirstObjection(env, p, r, |ORDER|).None? && Adapt(h)(c).Replied?
    ensures Answered(env, p, r, h, Replied(Adapt(h)(c).reply, Adapt(h)(c).log + [Saved(response)]))
  {
    hide FirstObjection, Earned, OnlyAsks, NoLines, RunsOnce, ActorOf, ClientAddress;
    RunLogged(env, p, r, c.log, ActorFrom(c), [Saved(response)]);
  }

  lemma QuestionsAreNoRuns(log: seq<Note>)
    requires OnlyAsks(log)
    ensures NoRuns(log) && NoLines(log)
  {
  }

  lemma ReplayingAnswers(env: Env, p: Policy, r: Request, h: Work, c: Ctx)
    requires p.idempotent && Fit(env, p, r, c, GATES) && Earned(env, p, r, c.log) && OnlyAsks(c.log)
    requires FirstObjection(env, p, r, GATES).None?
    ensures Answered(env, p, r, h, Replaying(env, Adapt(h))(c))
  {
    hide Earned, OnlyAsks, NoLines, RunsOnce, NoRuns, ActorOf, ClientAddress, Ends, RawOf, W.Recorded, Calls, Adapt;
    ClearIff(env, p, r, GATES);
    QuestionsAreNoRuns(c.log);
    LedgerAsked(env, p, r, c.log);
    var asked := Noting(c, Asked(Ledger));
    QuestionsAreNoRuns(asked.log);
    LedgerObjects(env, p, r);
    if FirstObjection(env, p, r, |ORDER|).None? {
      hide Answered;
      AskedFits(env, p, r, c);
      HandlerAnswers(env, p, r, h, asked);
      var o := Adapt(h)(asked);
      if o.Replied? {
        SavedAnswers(env, p, r, h, asked, W.Recorded(Calls(o.reply)));
      }
    }
  }

  lemma LedgerObjects(env: Env, p: Policy, r: Request)
    requires FirstObjection(env, p, r, GATES).None?
    ensures FirstObjection(env, p, r, |ORDER|) == Objection(env, p, r, Ledger)
  {
    hide Objection;
  }

  lemma AskedFits(env: Env, p: Policy, r: Request, c: Ctx)
    requires Fit(env, p, r, c, GATES)
    ensures Fit(env, p, r, Noting(c, Asked(Ledger)), GATES)
  {
    hide ActorOf, ClientAddress;
  }

  /** The chain from the first declared check inwards. */
  function Inner(env: Env, p: Policy, h: Work): Handler {
    Folded(env, p, Layers(p, |ORDER|), Adapt(h))
  }

  /** What follows the gates: the ledger, where declared, and the handler. */
  function Tail(env: Env, p: Policy, h: Work): Handler {
    if p.idempotent then Replaying(env, Adapt(h)) else Adapt(h)
  }

  lemma InnerIsSieve(env: Env, p: Policy, h: Work, c: Ctx)
    ensures AllGates(Layers(p, GATES))
    ensures Inner(env, p, h)(c) ==
      match Sieve(env, p, Layers(p, GATES), c)
      case Stop(o) => o
      case Pass(c') => Tail(env, p, h)(c')
  {
    LayersAreGates(p, GATES);
    LastLayers(p);
    hide Sieve, Adapt, Replaying, Folded, Layers, LayersFor;
    var tail := Folded(env, p, LayersFor(p, Ledger), Adapt(h));
    FoldedAppend(env, p, Layers(p, GATES), LayersFor(p, Ledger), Adapt(h));
    assert Inner(env, p, h) == Folded(env, p, Layers(p, GATES), tail);
    FoldedGates(env, p, Layers(p, GATES), tail, c);
    FoldedLedger(env, p, h);
    assert tail == Tail(env, p, h);
  }

  lemma LastLayers(p: Policy)
    ensures Layers(p, |ORDER|) == Layers(p, GATES) + LayersFor(p, Ledger)
  {
    hide LayersFor;
  }

  lemma FoldedLedger(env: Env, p: Policy, h: Work)
    ensures Folded(env, p, LayersFor(p, Ledger), Adapt(h)) == Tail(env, p, h)
  {
    hide Adapt, Replaying;
    FoldedOne(env, p, LIdempotency, Adapt(h));
  }

  lemma InnerAnswers(env: Env, p: Policy, r: Request, h: Work)
    ensures Answered(env, p, r, h, Inner(env, p, h)(Entry(env, r)))
  {
    hide Sieve, Adapt, Replaying, Inner, Fit, Earned, OnlyAsks, Entry, Answered, Layers, FirstObjection;
    SieveMeans(env, p, r, GATES);
    InnerIsSieve(env, p, h, Entry(env, r));
    OnlyTheLedgerIsLeft(env, p, r);
    var g := Sieve(env, p, Layers(p, GATES), Entry(env, r));
    var o := Inner(env, p, h)(Entry(env, r));
    if g.Stop? {
      StoppedAnswers(env, p, r, h, g.outcome);
    } else if p.idempotent {
      ReplayingAnswers(env, p, r, h, g.ctx);
      assert o == Replaying(env, Adapt(h))(g.ctx);
    } else {
      HandlerAnswers(env, p, r, h, g.ctx);
      assert o == Adapt(h)(g.ctx);
    }
  }

  lemma StoppedAnswers(env: Env, p: Policy, r: Request, h: Work, o: Outcome)
    requires Sieved(env, p, r, GATES, Stop(o))
    requires FirstObjection(env, p, r, |ORDER|) == FirstObjection(env, p, r, GATES)
    ensures Answered(env, p, r, h, o)
  {
    hide FirstObjection, Earned, OnlyAsks, NoRuns, NoLines;
    QuestionsAreNoRuns(o.log);
  }

  lemma OnlyTheLedgerIsLeft(env: Env, p: Policy, r: Request)
    ensures FirstObjection(env, p, r, GATES).Some? ==>
      FirstObjection(env, p, r, |ORDER|) == FirstObjection(env, p, r, GATES)
    ensures FirstObjection(env, p, r, GATES).None? && !p.idempotent ==> FirstObjection(env, p, r, |ORDER|).None?
  {
    hide ActorOf;
  }

  /** The route's handler: the whole chain folded around the work. */
  function Served(env: Env, p: Policy, h: Work, r: Request): Outcome {
    Folded(env, p, ChainOf(p), Adapt(h))(Start(r))
  }

  lemma ServedIsLogged(env: Env, p: Policy, h: Work, r: Request)
    ensures Served(env, p, h, r) ==
      if env.minted then Recovering(Logging(Inner(env, p, h)))(Entry(env, r))
      else Replied(Refused(ServiceUnavailable), [])
  {
    hide Layers, Recovering, Logging, Adapt, ClientAddress;
    FoldedAppend(env, p, FRONT, Layers(p, |ORDER|), Adapt(h));
    FrontFolds(env, p, Inner(env, p, h), r);
  }

  lemma FrontFolds(env: Env, p: Policy, next: Handler, r: Request)
    ensures Folded(env, p, FRONT, next)(Start(r)) ==
      if env.minted then Recovering(Logging(next))(Entry(env, r)) else Replied(Refused(ServiceUnavailable), [])
  {
    hide Recovering, Logging, ClientAddress, Folded, Sieve;
    var gates, inner: seq<Layer> := [LRequestId, LRealIp], [LRecoverer, LAccessLog];
    assert FRONT == gates + inner;
    FoldedAppend(env, p, gates, inner, next);
    FoldedGates(env, p, gates, Folded(env, p, inner, next), Start(r));
    SieveTwo(env, p, LRequestId, LRealIp, Start(r));
    FoldedTwo(env, p, LRecoverer, LAccessLog, next);
  }

  lemma FoldedTwo(env: Env, p: Policy, l: Layer, m: Layer, next: Handler)
    ensures Folded(env, p, [l, m], next) == Apply(env, p, l, Apply(env, p, m, next))
  {
    hide Apply;
    FoldedOne(env, p, m, next);
    assert [l, m][1..] == [m];
    assert Folded(env, p, [l, m], next) == Apply(env, p, l, Folded(env, p, [m], next));
  }

  lemma FoldedOne(env: Env, p: Policy, l: Layer, next: Handler)
    ensures Folded(env, p, [l], next) == Apply(env, p, l, next)
  {
    hide Apply;
    assert [l][1..] == [];
    assert Folded(env, p, [l], next) == Apply(env, p, l, Folded(env, p, [], next));
  }

  /**
    The folded chain means its declaration. The reply is the first objection's, in the order
    the checks are declared; with no objection the handler runs, once, as the declared actor,
    and the reply is its own. A panic, the handler's or the limiter's, becomes a 500 unless it
    deliberately aborts. Nothing is asked of the outside world while an earlier check objects.
   */
  lemma ServedMeans(env: Env, p: Policy, h: Work, r: Request)
    requires env.minted
    ensures
      var o := Served(env, p, h, r);
      && Earned(env, p, r, o.log)
      && match FirstObjection(env, p, r, |ORDER|)
         case Some(Say(reply)) => o.Replied? && o.reply == reply && NoRuns(o.log)
         case Some(Panic) => o.Replied? && o.reply == Refused(Internal) && NoRuns(o.log)
         case None =>
           && RunsOnce(o.log, ActorOf(env, p, r))
           && var e := h(ActorOf(env, p, r), r, RawOf(env, p));
              match W.Play(e)
              case Wrote(_) => o.Replied? && o.reply == Handled(e)
              case Crashed(abort) => if abort then o.Panicked? else o.Replied? && o.reply == Refused(Internal)
  {
    hide Served, Inner, Entry, FirstObjection, Earned, NoRuns, RunsOnce, NoLines, ActorOf, RawOf, Calls, LoggedStatus;
    ServedIsLogged(env, p, h, r);
    InnerAnswers(env, p, r, h);
    var o := Inner(env, p, h)(Entry(env, r));
    if o.Replied? {
      LineKeeps(env, p, r, o.log, LoggedStatus(Calls(o.reply)), ActorOf(env, p, r));
    }
  }

  lemma LineKeeps(env: Env, p: Policy, r: Request, log: seq<Note>, status: nat, a: Actor)
    requires Earned(env, p, r, log)
    ensures Earned(env, p, r, log + [Line(status)])
    ensures NoRuns(log) ==> NoRuns(log + [Line(status)])
    ensures RunsOnce(log, a) ==> RunsOnce(log + [Line(status)], a)
  {
    hide ClearTo;
    var all := log + [Line(status)];
    if RunsOnce(log, a) {
      var i :| 0 <= i < |log| && log[i] == Ran(a) && forall j :: 0 <= j < |log| && j != i ==> !log[j].Ran?;
      assert all[i] == Ran(a);
    }
  }

  /** Neither the limiter nor the handler panics on the request, nor is there a status to panic on. */
  predicate ComesBack(env: Env, p: Policy, r: Request, h: Work) {
    match FirstObjection(env, p, r, |ORDER|)
    case Some(Say(_)) => true
    case Some(Panic) => false
    case None => W.Play(h(ActorOf(env, p, r), r, RawOf(env, p))).Wrote?
  }

  /**
    The access log has exactly one line, the last, with the status the client was sent, for every
    request that is given an identifier and comes back; one that panics, or has no identifier,
    leaves no line.
   */
  lemma AccessLogged(env: Env, p: Policy, h: Work, r: Request)
    ensures
      var o := Served(env, p, h, r);
      if env.minted && ComesBack(env, p, r, h)
      then o.Replied? && o.log != [] && NoLines(o.log[..|o.log| - 1]) &&
           o.log[|o.log| - 1] == Line(W.Sent(Calls(o.reply)).status)
      else NoLines(o.log)
  {
    hide Served, Inner, Entry, FirstObjection, Earned, NoRuns, RunsOnce, ActorOf, RawOf, Calls, W.Sent, LoggedStatus,
         W.Play;
    ServedIsLogged(env, p, h, r);
    InnerAnswers(env, p, r, h);
    if env.minted && ComesBack(env, p, r, h) {
      LoggedIsSent(Served(env, p, h, r).reply);
    }
  }

  /** The recorder's last status is the one sent, for every reply there is. */
  lemma LoggedIsSent(reply: Reply)
    ensures LoggedStatus(Calls(reply)) == W.Sent(Calls(reply)).status
  {
    StatusesStand(reply);
    W.RecordedAndSent(Calls(reply));
    hide W.Recorded, W.Committed, W.FirstStatus, W.LastStatus, Calls;
  }

  /** Every reply, the chain's own or a handler's, lets its first status stand. */
  lemma StatusesStand(reply: Reply)
    ensures W.StatusStands(Calls(reply))
  {
    hide W.ReplayCalls, W.Play, W.Recorded, W.Sent, W.StatusStands, W.HeadersSent, W.Pending;
    match reply
    case Refused(code) =>
      W.DataAfterStatus([], Status(code), []);
      assert Calls(reply) == [] + [W.WriteHeader(Status(code))] + [W.Write([])];
      OneStatusStands(Calls(reply), Status(code));
    case NoContent =>
      W.StatusAfterHeaders([], 204);
      assert Calls(reply) == [] + [W.WriteHeader(204)];
      OneStatusStands(Calls(reply), 204);
    case Replayed(response) =>
      if W.Sendable(response.status) {
        W.ReplayIsStored(response);
      } else {
        NothingStands();
      }
    case Handled(e) =>
      if W.Play(e).Wrote? {
        W.PlayedIsIntended(e);
      } else {
        NothingStands();
      }
  }

  lemma OneStatusStands(calls: seq<W.Call>, code: W.StatusCode)
    requires W.FirstStatus(calls) == Some(code) && W.LastStatus(calls) == Some(code)
    ensures W.StatusStands(calls)
  {
  }

  lemma NothingStands()
    ensures W.StatusStands([])
  {
  }

  /** Whatever admits it, a request whose handler panics gets a 500 and leaves no access line. */
  lemma PanicIsNotLogged(env: Env, p: Policy, h: Work, r: Request)
    requires env.minted && FirstObjection(env, p, r, |ORDER|).None?
    requires W.Play(h(ActorOf(env, p, r), r, RawOf(env, p))) == W.Crashed(false)
    ensures
      var o := Served(env, p, h, r);
      HandlerRan(o.log) && NoLines(o.log) && o.Replied? && o.reply == Refused(Internal)
  {
    hide Served, FirstObjection, ActorOf, RawOf, Earned, NoLines, LoggedStatus, Calls, W.Sent, W.Play;
    ServedMeans(env, p, h, r);
    AccessLogged(env, p, h, r);
  }

  /** Such a request exists: a valid public route, a quiet world, and a handler that panics. */
  lemma PanicLeavesNoLine()
    ensures
      var p := Policy("public", Public, None, OwnerSource("", ""), [], true, false, false, false, false, false, 0);
      var env := Env({}, 0, 0, true, Read(""), s => s, (n, rule, key) => LimiterDown, (sig, raw) => None,
                     cookie => NotASession, (kind, id) => NoSuchResource, false, false, 0, (id, key) => I.Claimed);
      var r := Request("GET", "", "", "", None, "", "", "", "", map[]);
      var o := Served(env, p, (a, q, raw) => W.Panics(false), r);
      && Valid(p) && HandlerRan(o.log) && NoLines(o.log) && o.Replied? && o.reply == Refused(Internal)
  {
    var p := Policy("public", Public, None, OwnerSource("", ""), [], true, false, false, false, false, false, 0);
    var env := Env({}, 0, 0, true, Read(""), s => s, (n, rule, key) => LimiterDown, (sig, raw) => None,
                   cookie => NotASession, (kind, id) => NoSuchResource, false, false, 0, (id, key) => I.Claimed);
    var r := Request("GET", "", "", "", None, "", "", "", "", map[]);
    var h: Work := (a, q, raw) => W.Panics(false);
    hide Served, FirstObjection, ActorOf, RawOf, HandlerRan, NoLines;
    PublicPasses(env, p, r);
    PanicIsNotLogged(env, p, h, r);
  }

  lemma PublicPasses(env: Env, p: Policy, r: Request)
    requires p.auth == Public && p.permission.None? && p.ownership.IsZero() && p.rules == [] && !p.rawBody && !p.csrf
    requires !p.reauth && !p.idempotent && r.verb == "GET"
    ensures FirstObjection(env, p, r, |ORDER|).None?
  {
    hide ActorOf;
    ClearIff(env, p, r, |ORDER|);
  }

  // ----- what is kept for replay

  /** The log asks the ledger to keep this response and no other. */
  ghost predicate Keeps(log: seq<Note>, kept: Option<R.Response>) {
    forall response :: Saved(response) in log <==> kept == Some(response)
  }

  /** The response to keep: of an admitted request on an idempotent route, what a success wrote. */
  function Kept(env: Env, p: Policy, h: Work, r: Request): Option<R.Response> {
    var e := h(ActorOf(env, p, r), r, RawOf(env, p));
    if p.idempotent && FirstObjection(env, p, r, |ORDER|).None? && W.Succeeds(e)
    then Some(W.Sent(Calls(Handled(e)))) else None
  }

  lemma QuestionsKeepNothing(log: seq<Note>)
    requires OnlyAsks(log)
    ensures Keeps(log, None)
  {
  }

  lemma OthersKeepNothing(log: seq<Note>, n: Note, kept: Option<R.Response>)
    requires !n.Saved?
    ensures Keeps(log + [n], kept) <==> Keeps(log, kept)
  {
    assert forall response :: Saved(response) in log + [n] <==> Saved(response) in log;
  }

  lemma HandlerKeepsNothing(h: Work, c: Ctx)
    requires OnlyAsks(c.log)
    ensures Keeps(Adapt(h)(c).log, None)
  {
    QuestionsKeepNothing(c.log);
    OthersKeepNothing(c.log, Ran(ActorFrom(c)), None);
    hide W.Play;
  }

  lemma ReplayingKeeps(env: Env, p: Policy, h: Work, r: Request, c: Ctx)
    requires p.idempotent && Fit(env, p, r, c, GATES) && OnlyAsks(c.log) && FirstObjection(env, p, r, GATES).None?
    ensures Keeps(Replaying(env, Adapt(h))(c).log, Kept(env, p, h, r))
  {
    hide OnlyAsks, Keeps, ActorOf, ClientAddress, W.Play, W.Succeeds, W.Recorded, Calls, FirstObjection;
    var asked := Noting(c, Asked(Ledger));
    var e := h(ActorOf(env, p, r), r, RawOf(env, p));
    QuestionsKeepNothing(c.log);
    OthersKeepNothing(c.log, Asked(Ledger), None);
    LedgerObjects(env, p, r);
    AskedFits(env, p, r, c);
    if Objection(env, p, r, Ledger).None? {
      OthersKeepNothing(asked.log, Ran(ActorFrom(c)), None);
      W.SucceedsIff(e);
      if W.Play(e).Wrote? {
        KeptIsWritten(e, Adapt(h)(asked).log);
      }
    }
  }

  lemma KeptIsWritten(e: W.Ending, log: seq<Note>)
    requires W.Play(e).Wrote? && Keeps(log, None)
    ensures Calls(Handled(e)) == W.Play(e).calls
    ensures W.Succeeds(e) ==> W.Recorded(Calls(Handled(e))) == W.Sent(Calls(Handled(e)))
    ensures Keeps(log + [Saved(W.Recorded(W.Play(e).calls))], Some(W.Recorded(W.Play(e).calls)))
  {
    if W.Succeeds(e) {
      I.KeptIsSent(e);
    }
    hide W.Play, W.Succeeds, W.Recorded, W.Sent;
  }

  lemma InnerKeeps(env: Env, p: Policy, h: Work, r: Request)
    ensures Keeps(Inner(env, p, h)(Entry(env, r)).log, Kept(env, p, h, r))
  {
    hide Sieve, Adapt, Replaying, Inner, Fit, Earned, OnlyAsks, Entry, Layers, FirstObjection, Keeps, W.Succeeds;
    SieveMeans(env, p, r, GATES);
    InnerIsSieve(env, p, h, Entry(env, r));
    OnlyTheLedgerIsLeft(env, p, r);
    var g := Sieve(env, p, Layers(p, GATES), Entry(env, r));
    if g.Stop? {
      QuestionsKeepNothing(g.outcome.log);
    } else if p.idempotent {
      ReplayingKeeps(env, p, h, r, g.ctx);
    } else {
      HandlerKeepsNothing(h, g.ctx);
    }
  }

  /**
    What the ledger is asked to keep is what the client was sent: a response is saved exactly when
    the request is admitted, the route is idempotent and the handler ends in success.
   */
  lemma SavedIsSent(env: Env, p: Policy, h: Work, r: Request, response: R.Response)
    ensures
      var o := Served(env, p, h, r);
      Saved(response) in o.log <==>
        && p.idempotent && Admitted(env, p, r) && W.Succeeds(h(ActorOf(env, p, r), r, RawOf(env, p)))
        && o.Replied? && response == W.Sent(Calls(o.reply))
  {
    hide Served, Inner, Entry, FirstObjection, Objection, Earned, NoRuns, RunsOnce, NoLines, ActorOf, RawOf, Calls,
         LoggedStatus, W.Play, W.Succeeds, W.Sent;
    ServedIsLogged(env, p, h, r);
    InnerKeeps(env, p, h, r);
    InnerAnswers(env, p, r, h);
    ClearIff(env, p, r, |ORDER|);
    ClearIsAdmitted(env, p, r);
    var e := h(ActorOf(env, p, r), r, RawOf(env, p));
    W.SucceedsIff(e);
    var o := Inner(env, p, h)(Entry(env, r));
    if env.minted && o.Replied? {
      OthersKeepNothing(o.log, Line(LoggedStatus(Calls(o.reply))), Kept(env, p, h, r));
    }
  }

  // ----- what follows for every valid policy

  predicate HandlerRan(log: seq<Note>) {
    exists i :: 0 <= i < |log| && log[i].Ran?
  }

  lemma HandlerRunsIff(env: Env, p: Policy, h: Work, r: Request)
    ensures HandlerRan(Served(env, p, h, r).log) <==> Admitted(env, p, r)
  {
    hide Served, Objection, Earned, FirstObjection, Folded;
    ClearIff(env, p, r, |ORDER|);
    if env.minted {
      ServedMeans(env, p, h, r);
      ClearIsAdmitted(env, p, r);
    } else {
      ServedIsLogged(env, p, h, r);
    }
  }

  lemma ClearIsAdmitted(env: Env, p: Policy, r: Request)
    ensures ClearTo(env, p, r, |ORDER|) <==> forall c :: c in ORDER ==> Objection(env, p, r, c).None?
  {
    hide Objection;
  }

  /** A permission admits only staff who hold a role that grants it, whatever else the policy says. */
  lemma PermissionMeansGrantedStaff(env: Env, p: Policy, h: Work, r: Request)
    requires Valid(p) && p.permission.Some? && HandlerRan(Served(env, p, h, r).log)
    ensures
      var a := ActorOf(env, p, r);
      a.kind == Admin && a.id != "" && HoldsGrantingRole(a.roles, p.permission.value)
  {
    HandlerRunsIff(env, p, h, r);
    hide Served, HandlerRan, HoldsGrantingRole;
    assert Authenticated in ORDER && Permitted in ORDER;
    assert Objection(env, p, r, Authenticated).None? && Objection(env, p, r, Permitted).None?;
    assert !Has(p, SignatureWithAuthorization);
    hide Valid, Has;
  }

  /** A customer's ownership route admits only the owner on record. */
  lemma OwnershipMeansOwner(env: Env, p: Policy, h: Work, r: Request)
    requires !p.ownership.IsZero() && (p.auth == Session || p.auth == SessionOrGuest)
    requires HandlerRan(Served(env, p, h, r).log)
    ensures
      var a := ActorOf(env, p, r);
      && a.id != "" && OwnedKind(p.ownership.kind) && ResourceId(p, r) != ""
      && env.owners(p.ownership.kind, ResourceId(p, r)) == OwnedBy(a.id)
  {
    HandlerRunsIff(env, p, h, r);
    hide Served, HandlerRan, ActorOf;
    assert Authenticated in ORDER && Owned in ORDER;
    assert Objection(env, p, r, Authenticated).None? && Objection(env, p, r, Owned).None?;
  }

  lemma {:induction false} FirstObjectionFrom(env: Env, p: Policy, r: Request, n: nat) returns (k: nat)
    requires n <= |ORDER| && FirstObjection(env, p, r, n).Some?
    ensures k < n && ClearTo(env, p, r, k) && Objection(env, p, r, ORDER[k]) == FirstObjection(env, p, r, n)
  {
    hide Objection;
    if FirstObjection(env, p, r, n - 1).Some? {
      k := FirstObjectionFrom(env, p, r, n - 1);
    } else {
      k := n - 1;
      ClearIff(env, p, r, n - 1);
    }
  }

  /**
    Only someone who may perform the action is asked for their password again: a re-auth
    refusal goes to a signed-in member of staff whose permission and ownership checks passed.
   */
  lemma ReauthOnlyAfterAuthority(env: Env, p: Policy, h: Work, r: Request)
    requires Valid(p) && Served(env, p, h, r).Replied? && Served(env, p, h, r).reply == Refused(ReauthRequired)
    ensures
      var a := ActorOf(env, p, r);
      && p.reauth && a.kind == Admin && a.id != "" && !ReauthedWithin(a, env.now, env.reauthWindow)
      && (p.permission.Some? ==> MayAct(env, a, p.permission.value))
      && Objection(env, p, r, Owned).None?
  {
    hide Served, Earned, RunsOnce, NoRuns, FirstObjection, Folded, MayAct, MayReach, ActorOf, RawOf, W.Play, Logging,
         Recovering, FirstRefusing;
    ServedIsLogged(env, p, h, r);
    if env.minted {
      ServedMeans(env, p, h, r);
      var k := FirstObjectionFrom(env, p, r, |ORDER|);
      OnlyReauthAsks(env, p, r, k);
      assert Objection(env, p, r, ORDER[6]).None? && Objection(env, p, r, ORDER[7]).None?
          && Objection(env, p, r, ORDER[8]).None?;
      assert !Has(p, StaffControlOnPublic);
    }
  }

  lemma OnlyReauthAsks(env: Env, p: Policy, r: Request, k: nat)
    requires k < |ORDER| && Objection(env, p, r, ORDER[k]) == Some(Say(Refused(ReauthRequired)))
    ensures k == 9
  {
    hide ActorOf, MayAct, MayReach, FirstRefusing;
  }

  /** A question by the n-th check means that none of the checks before it objects. */
  lemma AskedMeansClear(env: Env, p: Policy, h: Work, r: Request, check: Check, n: nat)
    requires Asked(check) in Served(env, p, h, r).log && n < |ORDER| && ORDER[n] == check && AsksOutside(check)
    ensures ClearTo(env, p, r, n)
  {
    hide Served, RunsOnce, NoRuns, FirstObjection, ActorOf, RawOf, ClearTo;
    ServedIsLogged(env, p, h, r);
    if env.minted {
      ServedMeans(env, p, h, r);
      var log := Served(env, p, h, r).log;
      var i :| 0 <= i < |log| && log[i] == Asked(check);
      assert IsAsk(log[i], ORDER[n]);
    }
  }

  /** The session store is asked only once every address and subject limit has let the request through. */
  lemma LimitBeforeSession(env: Env, p: Policy, h: Work, r: Request)
    requires Asked(SessionLoad) in Served(env, p, h, r).log
    ensures
      var byIp, bySubject := ClientRules(p), SubjectRules(p);
      && (forall i :: 0 <= i < |byIp| ==> LetsThrough(env, i, byIp[i], p.name + ":" + Client(env, r)))
      && (forall i :: 0 <= i < |bySubject| ==>
            LetsThrough(env, |byIp| + i, bySubject[i],
                        p.name + ":" + if r.rateSubject == "" then Client(env, r) else r.rateSubject))
  {
    AskedMeansClear(env, p, h, r, SessionLoad, 4);
    hide Served, ActorOf, RulesFor, LetsThrough;
    assert Objection(env, p, r, ORDER[2]).None?;
  }

  /** A forwarded address that no trusted proxy vouches for changes no verdict. */
  lemma {:induction false} ForgedAddressChangesNothing(env: Env, p: Policy, r: Request, forged: string, n: nat)
    requires n <= |ORDER| && env.host(r.remote) !in env.trusted
    ensures FirstObjection(env, p, r.(forwarded := forged), n) == FirstObjection(env, p, r, n)
  {
    hide Objection;
    if n > 0 {
      ForgedAddressChangesNothing(env, p, r, forged, n - 1);
      SameObjection(env, p, r, forged, ORDER[n - 1]);
    }
  }

  lemma SameObjection(env: Env, p: Policy, r: Request, forged: string, c: Check)
    requires env.host(r.remote) !in env.trusted
    ensures Objection(env, p, r.(forwarded := forged), c) == Objection(env, p, r, c)
  {
    hide FirstRefusing, RulesObject, RulesFor, ActorOf, MayAct, MayReach, Meets, ReauthedWithin, SafeVerb;
    ActorUnmoved(env, p, r, forged);
    assert ClientAddress(env, r.(forwarded := forged)) == ClientAddress(env, r);
  }

  lemma ActorUnmoved(env: Env, p: Policy, r: Request, forged: string)
    ensures ActorOf(env, p, r.(forwarded := forged)) == ActorOf(env, p, r)
  {
  }

  /** The ledger is consulted only for a request every other check admits. */
  lemma LedgerIsLast(env: Env, p: Policy, h: Work, r: Request, c: Check)
    requires Asked(Ledger) in Served(env, p, h, r).log && c != Ledger
    ensures Objection(env, p, r, c).None?
  {
    AskedMeansClear(env, p, h, r, Ledger, GATES);
    hide Served, Objection;
    EveryCheckHasAPlace(c);
  }

  lemma EveryCheckHasAPlace(c: Check)
    ensures exists k :: 0 <= k < |ORDER| && ORDER[k] == c && (c != Ledger ==> k < GATES)
  {
    assert ORDER[0] == BodyLimit && ORDER[1] == Preflight && ORDER[2] == ClientLimit && ORDER[3] == Signed
        && ORDER[4] == SessionLoad && ORDER[5] == Csrf && ORDER[6] == Authenticated && ORDER[7] == Permitted
        && ORDER[8] == Owned && ORDER[9] == Reauthed && ORDER[10] == ActorLimit && ORDER[11] == Ledger;
  }

  /** Any question at all means the request got past the preflight step. */
  lemma QuestionsComeLater(env: Env, p: Policy, r: Request, log: seq<Note>, i: nat)
    requires Earned(env, p, r, log) && i < |log| && (log[i].Asked? || log[i].AskedLimiter?)
    ensures ClearTo(env, p, r, 2)
  {
    hide Objection;
    EveryCheckHasAPlace(log[i].check);
    var k :| 0 <= k < |ORDER| && ORDER[k] == log[i].check;
    assert IsAsk(log[i], ORDER[k]);
  }
}
