/**
  What the chain lets through and what it refuses, said of requests and answers directly: the
  forged write, the stale re-authentication, the unsigned webhook, the client behind a proxy.
 */
module Gatekeeping {
  import opened Wrappers
  import opened Authz
  import opened Policy
  import opened Middleware
  import opened Admission
  import Strings
  import L = Limiter
  import I = Idempotency
  import W = Responses

  // ----- the order of the steps

  lemma OneMoreCheck(p: Policy, n: nat, before: seq<Layer>, added: seq<Layer>, after: seq<Layer>)
    requires n < |ORDER| && Layers(p, n) == before && LayersFor(p, ORDER[n]) == added && after == before + added
    ensures Layers(p, n + 1) == after
  {
    hide LayersFor;
  }

  /** The steps before anything is asked about who is calling. */
  lemma OuterLayers(p: Policy)
    ensures Layers(p, 3) == [LTimeout, LBodyLimit, LSecurityHeaders, LCors, LRateLimitIp]
  {
    assert Layers(p, 0) == [];
    hide Layers;
    OneMoreCheck(p, 0, [], [LTimeout, LBodyLimit], [LTimeout, LBodyLimit]);
    OneMoreCheck(p, 1, [LTimeout, LBodyLimit], [LSecurityHeaders, LCors],
                 [LTimeout, LBodyLimit, LSecurityHeaders, LCors]);
    OneMoreCheck(p, 2, [LTimeout, LBodyLimit, LSecurityHeaders, LCors], [LRateLimitIp],
                 [LTimeout, LBodyLimit, LSecurityHeaders, LCors, LRateLimitIp]);
  }

  lemma SessionLayers(p: Policy)
    requires p.auth == AdminOnly && p.csrf
    ensures Layers(p, 7) ==
      [LTimeout, LBodyLimit, LSecurityHeaders, LCors, LRateLimitIp, LLoadSession, LCsrf, LRequireAuth]
  {
    hide Layers;
    OuterLayers(p);
    var l3 := [LTimeout, LBodyLimit, LSecurityHeaders, LCors, LRateLimitIp];
    OneMoreCheck(p, 3, l3, [], l3);
    OneMoreCheck(p, 4, l3, [LLoadSession], l3 + [LLoadSession]);
    OneMoreCheck(p, 5, l3 + [LLoadSession], [LCsrf], l3 + [LLoadSession, LCsrf]);
    OneMoreCheck(p, 6, l3 + [LLoadSession, LCsrf], [LRequireAuth], l3 + [LLoadSession, LCsrf, LRequireAuth]);
  }

  lemma InnerLayers(p: Policy, l7: seq<Layer>)
    requires Layers(p, 7) == l7 && p.permission.Some? && !p.ownership.IsZero() && p.reauth && p.idempotent
    ensures Layers(p, 12) ==
      l7 + [LRequirePermission(p.permission.value), LRequireOwnership, LRequireReauth, LRateLimitActor, LIdempotency]
  {
    hide Layers;
    var permission := LRequirePermission(p.permission.value);
    OneMoreCheck(p, 7, l7, [permission], l7 + [permission]);
    OneMoreCheck(p, 8, l7 + [permission], [LRequireOwnership], l7 + [permission, LRequireOwnership]);
    var l9 := l7 + [permission, LRequireOwnership];
    OneMoreCheck(p, 9, l9, [LRequireReauth], l9 + [LRequireReauth]);
    OneMoreCheck(p, 10, l9 + [LRequireReauth], [LRateLimitActor], l9 + [LRequireReauth, LRateLimitActor]);
    OneMoreCheck(p, 11, l9 + [LRequireReauth, LRateLimitActor], [LIdempotency],
                 l9 + [LRequireReauth, LRateLimitActor, LIdempotency]);
  }

  /** Every protection declared, for a route with sessions: the order of the steps in full. */
  lemma FullChain(p: Policy)
    requires p.auth == AdminOnly && p.csrf && p.permission.Some? && !p.ownership.IsZero() && p.reauth && p.idempotent
    ensures ChainOf(p) == [
      LRequestId, LRealIp, LRecoverer, LAccessLog, LTimeout, LBodyLimit, LSecurityHeaders, LCors, LRateLimitIp,
      LLoadSession, LCsrf, LRequireAuth, LRequirePermission(p.permission.value), LRequireOwnership, LRequireReauth,
      LRateLimitActor, LIdempotency]
  {
    hide Layers;
    SessionLayers(p);
    InnerLayers(p, Layers(p, 7));
  }

  /** A webhook's: its signature is verified where others load a session. */
  lemma WebhookChain(p: Policy)
    requires p.auth == Signature && !p.csrf && p.permission.None? && p.ownership.IsZero() && !p.reauth && !p.idempotent
    ensures ChainOf(p) == [
      LRequestId, LRealIp, LRecoverer, LAccessLog, LTimeout, LBodyLimit, LSecurityHeaders, LCors, LRateLimitIp,
      LVerifySignature, LRequireAuth, LRateLimitActor]
  {
    hide Layers;
    OuterLayers(p);
    var l3 := [LTimeout, LBodyLimit, LSecurityHeaders, LCors, LRateLimitIp];
    var l4 := l3 + [LVerifySignature];
    OneMoreCheck(p, 3, l3, [LVerifySignature], l4);
    OneMoreCheck(p, 4, l4, [], l4);
    OneMoreCheck(p, 5, l4, [], l4);
    OneMoreCheck(p, 6, l4, [LRequireAuth], l4 + [LRequireAuth]);
    var l7 := l4 + [LRequireAuth];
    OneMoreCheck(p, 7, l7, [], l7);
    OneMoreCheck(p, 8, l7, [], l7);
    OneMoreCheck(p, 9, l7, [], l7);
    OneMoreCheck(p, 10, l7, [LRateLimitActor], l7 + [LRateLimitActor]);
    OneMoreCheck(p, 11, l7 + [LRateLimitActor], [], l7 + [LRateLimitActor]);
  }

  lemma {:induction false} RulesForAppend(a: seq<L.Rule>, b: seq<L.Rule>, scope: L.Scope)
    ensures RulesFor(a + b, scope) == RulesFor(a, scope) + RulesFor(b, scope)
  {
    if b == [] {
      assert a + b == a;
    } else {
      var k := |b| - 1;
      assert (a + b)[..|a + b| - 1] == a + b[..k];
      RulesForAppend(a, b[..k], scope);
    }
  }

  /** A rule alone is kept or not by its scope; with the above, rules keep their order and number. */
  lemma RulesForOne(rule: L.Rule, scope: L.Scope)
    ensures RulesFor([rule], scope) == if rule.scope == scope then [rule] else []
  {
    assert [rule][..0] == [];
  }

  // ----- refusals

  /** What each refusal is sent as. */
  lemma RefusalStatus(c: Code)
    ensures
      var status := W.Sent(Calls(Refused(c))).status;
      && 400 <= status < 600
      && (status == 400 <==> c.BadRequest?) && (status == 401 <==> c.NotSignedIn?)
      && (status == 403 <==> c.Forbidden? || c.ReauthRequired?) && (status == 404 <==> c.NotFound?)
      && (status == 413 <==> c.PayloadTooLarge?) && (status == 429 <==> c.RateLimited?)
      && (status == 500 <==> c.Internal?) && (status == 503 <==> c.ServiceUnavailable?)
  {
    W.DataAfterStatus([], Status(c), []);
    assert Calls(Refused(c)) == [] + [W.WriteHeader(Status(c))] + [W.Write([])];
    W.RecordedAndSent(Calls(Refused(c)));
    hide W.Recorded, W.Committed, W.FirstStatus, W.LastStatus, W.HeadersSent, Calls;
  }

  // ----- the forged write

  predicate ReadsOnly(verb: string) {
    verb == "GET" || verb == "HEAD" || verb == "OPTIONS"
  }

  /** The double-submit token: the header's value is there and is the cookie's. */
  predicate TokenMatches(r: Request) {
    r.csrfHeader != "" && r.csrfCookie == Some(r.csrfHeader)
  }

  /** The check objects exactly to a write whose token does not match, with a 403. */
  lemma CsrfObjects(env: Env, p: Policy, r: Request)
    ensures Objection(env, p, r, Csrf) ==
      if p.csrf && r.verb !in ["GET", "HEAD", "OPTIONS"] && !TokenMatches(r) then Some(Say(Refused(Forbidden)))
      else None
  {
    hide ActorOf;
  }

  /** A write reaches the handler of a protected route only with the matching token. */
  lemma NoForgedWrite(env: Env, p: Policy, h: Work, r: Request)
    requires p.csrf && !ReadsOnly(r.verb) && HandlerRan(Served(env, p, h, r).log)
    ensures TokenMatches(r)
  {
    HandlerRunsIff(env, p, h, r);
    assert Csrf in ORDER;
    CsrfObjects(env, p, r);
    hide Served, HandlerRan, Objection;
  }

  // ----- who is asking

  /** A route for signed-in people runs only for whom the session store knows by the cookie. */
  lemma SignedInMeansSession(env: Env, p: Policy, h: Work, r: Request)
    requires (p.auth == Session || p.auth == AdminOnly) && HandlerRan(Served(env, p, h, r).log)
    ensures
      && r.sessionCookie != "" && env.sessions(r.sessionCookie).Known?
      && var a := env.sessions(r.sessionCookie).actor;
         a == ActorOf(env, p, r) && a.id != "" && a.kind == if p.auth == Session then Customer else Admin
  {
    HandlerRunsIff(env, p, h, r);
    hide Served, HandlerRan;
    assert Authenticated in ORDER;
    assert Objection(env, p, r, Authenticated).None?;
  }

  /** Without a session that is known everybody is a guest: nobody in particular, with no roles. */
  lemma NobodyIsAGuest(env: Env, p: Policy, r: Request)
    requires p.auth == Session || p.auth == SessionOrGuest || p.auth == AdminOnly
    requires r.sessionCookie == "" || env.sessions(r.sessionCookie).NotASession?
    ensures ActorOf(env, p, r) == Actor("", Guest, [], None)
    ensures p.auth == SessionOrGuest <==> Objection(env, p, r, Authenticated).None?
  {
  }

  /** A webhook runs only on a body the verifier has vouched for, as whom it says. */
  lemma WebhookMeansVerified(env: Env, p: Policy, h: Work, r: Request)
    requires p.auth == Signature && HandlerRan(Served(env, p, h, r).log)
    ensures p.rawBody && env.body.Read? && env.verifier(r.signature, env.body.raw) == Some(ActorOf(env, p, r))
  {
    HandlerRunsIff(env, p, h, r);
    hide Served, HandlerRan;
    assert BodyLimit in ORDER && Signed in ORDER;
    assert Objection(env, p, r, BodyLimit).None? && Objection(env, p, r, Signed).None?;
  }

  /** A sensitive action runs only within the window of a re-authentication. */
  lemma ReauthIsRecent(env: Env, p: Policy, h: Work, r: Request)
    requires p.reauth && HandlerRan(Served(env, p, h, r).log)
    ensures
      var at := ActorOf(env, p, r).reauthedAt;
      env.reauthWindow > 0 && at.Some? && at.value <= env.now <= at.value + env.reauthWindow
  {
    HandlerRunsIff(env, p, h, r);
    ReauthWindow(ActorOf(env, p, r), env.now, env.reauthWindow);
    hide Served, HandlerRan, ActorOf, ReauthedWithin;
    assert Reauthed in ORDER;
    assert Objection(env, p, r, Reauthed).None?;
  }

  /** And an admitted one is refused for nothing else: in the window the check never objects. */
  lemma RecentReauthPasses(env: Env, p: Policy, r: Request, at: Time)
    requires ActorOf(env, p, r).reauthedAt == Some(at)
    requires env.reauthWindow > 0 && at <= env.now <= at + env.reauthWindow
    ensures Objection(env, p, r, Reauthed).None?
  {
    ReauthWindow(ActorOf(env, p, r), env.now, env.reauthWindow);
    hide ActorOf, ReauthedWithin;
  }

  /** The read permission of a resource kind is the action of that name. */
  lemma ReadActionIs(kind: string)
    ensures ActionName(ReadAction(kind)) == kind + ":read"
  {
    assert "order" + ":read" == "order:read" && "catalog" + ":read" == "catalog:read";
    assert "inventory" + ":read" == "inventory:read" && "customer" + ":read" == "customer:read";
    assert "purchasing" + ":read" == "purchasing:read" && "report" + ":read" == "report:read";
    assert "document" + ":read" == "document:read" && "client" + ":read" == "client:read";
    assert "subscription" + ":read" == "subscription:read";
  }

  /** The action an ownership route asks of staff: its own, or the reading of its kind. */
  predicate RouteAction(p: Policy, action: Action) {
    if p.permission.Some? then action == p.permission.value else ActionName(action) == p.ownership.kind + ":read"
  }

  /** Staff reach an owned resource only with a role that grants that action. */
  lemma OwnershipForStaff(env: Env, p: Policy, h: Work, r: Request)
    requires p.auth == AdminOnly && !p.ownership.IsZero() && HandlerRan(Served(env, p, h, r).log)
    ensures exists action :: RouteAction(p, action) && HoldsGrantingRole(ActorOf(env, p, r).roles, action)
  {
    HandlerRunsIff(env, p, h, r);
    ReadActionIs(p.ownership.kind);
    hide Served, HandlerRan, ActorOf, ActionName, ReadAction, HoldsGrantingRole;
    assert Authenticated in ORDER && Owned in ORDER;
    assert Objection(env, p, r, Authenticated).None? && Objection(env, p, r, Owned).None?;
    assert RouteAction(p, OwnershipAction(p));
  }

  // ----- where the request comes from

  /** Up to the first comma, if there is one. */
  lemma FirstPart(first: string, rest: string)
    requires Strings.Lacks(first, ',')
    ensures first[..Strings.IndexOf(first, ',')] == first
    ensures (first + "," + rest)[..Strings.IndexOf(first + "," + rest, ',')] == first
  {
    Strings.IndexOfAfter(first, ',', "," + rest);
    Strings.IndexOfAfter(first, ',', "");
    assert first + "" == first && first + "," + rest == first + ("," + rest);
    assert Strings.IndexOf("," + rest, ',') == 0;
  }

  /** Behind a trusted proxy the client is the first of the addresses forwarded, blanks removed. */
  lemma ForwardedClient(env: Env, r: Request, before: string, client: string, after: string, rest: string)
    requires env.host(r.remote) in env.trusted
    requires Strings.AllSpaces(before) && Strings.AllSpaces(after) && client != "" && Strings.NoSpaceAtEnds(client)
    requires Strings.Lacks(before + client + after, ',')
    requires r.forwarded == before + client + after || r.forwarded == before + client + after + "," + rest
    ensures ClientAddress(env, r) == client
  {
    Strings.TrimPadded(before, client, after);
    hide Strings.TrimSpace, Strings.IndexOf, Strings.AllSpaces, Strings.NoSpaceAtEnds;
    FirstPart(before + client + after, rest);
  }

  /** Without one, or with nothing forwarded, it is the peer itself. */
  lemma PeerIsClient(env: Env, r: Request)
    requires env.host(r.remote) !in env.trusted || r.forwarded == ""
    ensures ClientAddress(env, r) == r.remote
  {
  }

  // ----- the idempotency key

  /** A key is needed, and at most 128 bytes of it are taken. */
  lemma KeyIsNeeded(env: Env, p: Policy, h: Work, r: Request)
    requires p.idempotent && HandlerRan(Served(env, p, h, r).log)
    ensures 1 <= Strings.ByteLength(r.idempotencyKey) <= 128
    ensures env.ledger(ActorOf(env, p, r).id, r.idempotencyKey) == I.Claimed
  {
    HandlerRunsIff(env, p, h, r);
    hide Served, HandlerRan, ActorOf;
    assert Ledger in ORDER;
    assert Objection(env, p, r, Ledger).None?;
  }

  // ----- what is asked of the outside world

  /** The note is a question only where the policy declares it, and of the limiter only about its own rules. */
  predicate Declared(p: Policy, n: Note) {
    match n
    case Asked(check) =>
      (match check
       case Signed => p.auth == Signature
       case SessionLoad => p.auth != Signature && p.auth != Public
       case Owned => !p.ownership.IsZero()
       case Ledger => p.idempotent
       case _ => false)
    case AskedLimiter(_, rule, _) => rule in p.rules
    case _ => true
  }

  predicate AllDeclared(p: Policy, log: seq<Note>) {
    forall i :: 0 <= i < |log| ==> Declared(p, log[i])
  }

  predicate GateDeclared(p: Policy, g: Gate) {
    AllDeclared(p, if g.Pass? then g.ctx.log else g.outcome.log)
  }

  /** A step that the policy's translation contains. */
  predicate Stated(p: Policy, l: Layer) {
    match l
    case LVerifySignature => p.auth == Signature
    case LLoadSession => p.auth != Signature && p.auth != Public
    case LRequireOwnership => !p.ownership.IsZero()
    case LIdempotency => p.idempotent
    case _ => true
  }

  lemma LayersForStated(p: Policy, c: Check)
    ensures forall i :: 0 <= i < |LayersFor(p, c)| ==> Stated(p, LayersFor(p, c)[i])
  {
  }

  lemma {:induction false} LayersStated(p: Policy, n: nat)
    requires n <= |ORDER|
    ensures forall i :: 0 <= i < |Layers(p, n)| ==> Stated(p, Layers(p, n)[i])
  {
    hide LayersFor, Stated;
    if n > 0 {
      LayersStated(p, n - 1);
      LayersForStated(p, ORDER[n - 1]);
    }
  }

  lemma {:induction false} RulesDeclared(env: Env, p: Policy, check: Check, rules: seq<L.Rule>, key: string, c: Ctx)
    requires (forall i :: 0 <= i < |rules| ==> rules[i] in p.rules) && AllDeclared(p, c.log)
    ensures GateDeclared(p, ApplyRules(env, check, rules, key, c))
    decreases |rules|
  {
    if rules != [] {
      var asked := Noting(c, AskedLimiter(check, rules[0], key)).(asked := c.asked + 1);
      RulesDeclared(env, p, check, rules[1..], key, asked);
    }
  }

  lemma {:induction false} RulesForIn(rules: seq<L.Rule>, scope: L.Scope)
    ensures forall i :: 0 <= i < |RulesFor(rules, scope)| ==> RulesFor(rules, scope)[i] in rules
  {
    if rules != [] {
      RulesForIn(rules[..|rules| - 1], scope);
    }
  }

  lemma LimitsDeclared(env: Env, p: Policy, c: Ctx)
    requires AllDeclared(p, c.log)
    ensures GateDeclared(p, LimitClient(env, p, c)) && GateDeclared(p, LimitActor(env, p, c))
  {
    hide ApplyRules, RulesFor, ClientAddress, AllDeclared;
    RulesForIn(p.rules, L.PerIP);
    RulesForIn(p.rules, L.PerSubject);
    RulesForIn(p.rules, L.PerActor);
    var client := env.host(c.address);
    RulesDeclared(env, p, ClientLimit, RulesFor(p.rules, L.PerIP), p.name + ":" + client, c);
    var g := ApplyRules(env, ClientLimit, RulesFor(p.rules, L.PerIP), p.name + ":" + client, c);
    if g.Pass? {
      var subject := if g.ctx.request.rateSubject == "" then client else g.ctx.request.rateSubject;
      RulesDeclared(env, p, ClientLimit, RulesFor(p.rules, L.PerSubject), p.name + ":" + subject, g.ctx);
    }
    var id := ActorFrom(c).id;
    RulesDeclared(env, p, ActorLimit, RulesFor(p.rules, L.PerActor),
                  p.name + ":" + if id == "" then env.host(c.address) else id, c);
  }

  /** The steps that ask one question, or none. */
  lemma QuestionsDeclared(env: Env, p: Policy, c: Ctx)
    requires AllDeclared(p, c.log)
    ensures p.auth == Signature ==> GateDeclared(p, VerifySignature(env, c))
    ensures p.auth != Signature && p.auth != Public ==> GateDeclared(p, LoadSession(env, c))
    ensures !p.ownership.IsZero() ==> GateDeclared(p, RequireOwnership(env, p, c))
  {
    if p.auth == Signature {
      OneMoreNote(p, c.log, Asked(Signed));
    } else if p.auth != Public {
      OneMoreNote(p, c.log, Asked(SessionLoad));
    }
    if !p.ownership.IsZero() {
      OneMoreNote(p, c.log, Asked(Owned));
    }
    hide AllDeclared, Can, OwnershipAction;
  }

  predicate Questions(l: Layer) {
    l.LRateLimitIp? || l.LRateLimitActor? || l.LVerifySignature? || l.LLoadSession? || l.LRequireOwnership?
  }

  /** The other steps ask nothing. */
  lemma OthersAskNothing(env: Env, p: Policy, l: Layer, c: Ctx)
    requires IsGate(l) && !Questions(l)
    ensures
      var g := GateOf(env, p, l, c);
      (if g.Pass? then g.ctx.log else g.outcome.log) == c.log
  {
    hide LimitClient, LimitActor, VerifySignature, LoadSession, RequireOwnership, ClientAddress, Can, ReauthedWithin,
         SafeVerb;
  }

  lemma QuestionDeclares(env: Env, p: Policy, l: Layer, c: Ctx)
    requires Questions(l) && IsGate(l) && Stated(p, l) && AllDeclared(p, c.log)
    ensures GateDeclared(p, GateOf(env, p, l, c))
  {
    LimitsDeclared(env, p, c);
    QuestionsDeclared(env, p, c);
    hide LimitClient, LimitActor, VerifySignature, LoadSession, RequireOwnership, RequirePermission, RequireAuth,
         RequireReauth, CheckCsrf, Cors, LimitBody, Deadline, RealIp, RequestId, GateDeclared, AllDeclared;
  }

  lemma GateDeclares(env: Env, p: Policy, l: Layer, c: Ctx)
    requires IsGate(l) && Stated(p, l) && AllDeclared(p, c.log)
    ensures GateDeclared(p, GateOf(env, p, l, c))
  {
    hide GateOf, AllDeclared, Stated, IsGate;
    if Questions(l) {
      QuestionDeclares(env, p, l, c);
    } else {
      OthersAskNothing(env, p, l, c);
    }
  }

  lemma {:induction false} SieveDeclares(env: Env, p: Policy, layers: seq<Layer>, c: Ctx)
    requires AllGates(layers) && (forall i :: 0 <= i < |layers| ==> Stated(p, layers[i])) && AllDeclared(p, c.log)
    ensures GateDeclared(p, Sieve(env, p, layers, c))
  {
    hide GateOf, Stated, AllDeclared;
    if layers != [] {
      GateDeclares(env, p, layers[0], c);
      var g := GateOf(env, p, layers[0], c);
      if g.Pass? {
        SieveDeclares(env, p, layers[1..], g.ctx);
      }
    }
  }

  lemma OneMoreNote(p: Policy, log: seq<Note>, n: Note)
    requires AllDeclared(p, log) && Declared(p, n)
    ensures AllDeclared(p, log + [n])
  {
  }

  lemma HandlerDeclares(p: Policy, h: Work, c: Ctx)
    requires AllDeclared(p, c.log)
    ensures AllDeclared(p, Adapt(h)(c).log)
  {
    OneMoreNote(p, c.log, Ran(ActorFrom(c)));
    hide W.Play, AllDeclared;
  }

  lemma TailDeclares(env: Env, p: Policy, h: Work, c: Ctx)
    requires AllDeclared(p, c.log)
    ensures AllDeclared(p, Tail(env, p, h)(c).log)
  {
    hide W.Play, W.Recorded, Calls, Adapt, AllDeclared;
    HandlerDeclares(p, h, c);
    if p.idempotent {
      var asked := Noting(c, Asked(Ledger));
      OneMoreNote(p, c.log, Asked(Ledger));
      HandlerDeclares(p, h, asked);
      var o := Adapt(h)(asked);
      if o.Replied? {
        OneMoreNote(p, o.log, Saved(W.Recorded(Calls(o.reply))));
      }
    }
  }

  lemma InnerDeclares(env: Env, p: Policy, h: Work, r: Request)
    ensures AllDeclared(p, Inner(env, p, h)(Entry(env, r)).log)
  {
    hide Sieve, Layers, Tail, Inner, ClientAddress, Stated;
    InnerIsSieve(env, p, h, Entry(env, r));
    LayersStated(p, GATES);
    SieveDeclares(env, p, Layers(p, GATES), Entry(env, r));
    var g := Sieve(env, p, Layers(p, GATES), Entry(env, r));
    if g.Pass? {
      TailDeclares(env, p, h, g.ctx);
    }
  }

  /** Nothing is asked that the policy does not declare, whatever the request. */
  lemma OnlyDeclaredIsAsked(env: Env, p: Policy, h: Work, r: Request)
    ensures AllDeclared(p, Served(env, p, h, r).log)
  {
    hide Served, Inner, Entry, Calls, LoggedStatus;
    ServedIsLogged(env, p, h, r);
    InnerDeclares(env, p, h, r);
  }

  /** What reaches the handler may take as long as its policy says, or as the router's own limit. */
  lemma DeadlineIsThePolicys(env: Env, p: Policy, r: Request)
    ensures AllGates(Layers(p, GATES))
    ensures
      var g := Sieve(env, p, Layers(p, GATES), Entry(env, r));
      g.Pass? ==> g.ctx.deadline == if p.timeout > 0 then p.timeout else env.requestTimeout
  {
    SieveMeans(env, p, r, GATES);
    hide Sieve, Layers, FirstObjection, Earned, OnlyAsks, ActorOf, AllGates;
  }
}
