/**
  The middleware chain: each step either answers the request itself or passes it on. A policy
  is translated into a list of steps and the list is folded around the handler.

  Everything outside the router (limiter, session store, owner lookup, clock and so on) is an
  answer in `Env`; what was asked, and in which order, is kept in the context's log.
 */
module Middleware {
  import opened Wrappers
  import opened Authz
  import opened Strings
  import opened Policy
  import L = Limiter
  import I = Idempotency
  import R = StoredResponse
  import W = Responses

  // ----- requests, answers and replies

  datatype Request = Request(
    verb: string,
    remote: string,
    forwarded: string,
    sessionCookie: string,
    csrfCookie: Option<string>,
    csrfHeader: string,
    rateSubject: string,
    signature: string,
    idempotencyKey: string,
    params: map<string, string>
  )

  datatype BodyRead = Read(raw: string) | Oversized | Broken

  datatype LimiterAnswer = Counted(outcome: L.Outcome) | LimiterDown

  datatype SessionAnswer = Known(actor: Actor) | NotASession | SessionsDown

  datatype OwnerAnswer = OwnedBy(id: string) | NoSuchResource | OwnersDown

  datatype Env = Env(
    trusted: set<string>,
    reauthWindow: int,
    requestTimeout: int,
    minted: bool,
    body: BodyRead,
    host: string -> string,
    limiter: (nat, L.Rule, string) -> LimiterAnswer,
    verifier: (string, string) -> Option<Actor>,
    sessions: string -> SessionAnswer,
    owners: (string, string) -> OwnerAnswer,
    cancelledAtPermission: bool,
    cancelledAtOwnership: bool,
    now: Time,
    ledger: (string, string) -> I.Found
  )

  datatype Code =
    | BadRequest | NotSignedIn | Forbidden | NotFound | RateLimited(seconds: int) | ReauthRequired
    | PayloadTooLarge | ServiceUnavailable | Internal

  function Status(c: Code): W.StatusCode {
    match c
    case BadRequest => 400
    case NotSignedIn => 401
    case Forbidden => 403
    case NotFound => 404
    case RateLimited(_) => 429
    case ReauthRequired => 403
    case PayloadTooLarge => 413
    case ServiceUnavailable => 503
    case Internal => 500
  }

  datatype Reply = Refused(code: Code) | NoContent | Replayed(response: R.Response) | Handled(ending: W.Ending)

  /** What a reply writes; of the chain's own refusals the envelope is left out. */
  function Calls(reply: Reply): seq<W.Call> {
    match reply
    case Refused(code) => [W.WriteHeader(Status(code))] + [W.Write([])]
    case NoContent => [W.WriteHeader(204)]
    case Replayed(r) => if W.Sendable(r.status) then W.ReplayCalls(r) else []
    case Handled(e) => (match W.Play(e) case Wrote(calls) => calls case Crashed(_) => [])
  }

  /** The protections a request can fail, in the order they are applied. */
  datatype Check =
    | BodyLimit | Preflight | ClientLimit | Signed | SessionLoad | Csrf
    | Authenticated | Permitted | Owned | Reauthed | ActorLimit | Ledger

  const ORDER: seq<Check> := [
    BodyLimit, Preflight, ClientLimit, Signed, SessionLoad, Csrf,
    Authenticated, Permitted, Owned, Reauthed, ActorLimit, Ledger
  ]

  datatype Note =
    | Asked(check: Check)
    | AskedLimiter(check: Check, rule: L.Rule, key: string)
    | Ran(actor: Actor)
    | Saved(response: R.Response)
    | Line(status: nat)

  datatype Outcome = Replied(reply: Reply, log: seq<Note>) | Panicked(abort: bool, log: seq<Note>)

  datatype Ctx = Ctx(
    request: Request,
    address: string,
    deadline: int,
    raw: Option<string>,
    actor: Option<Actor>,
    asked: nat,
    log: seq<Note>
  )

  function ActorFrom(c: Ctx): Actor {
    if c.actor.Some? then c.actor.value else ANONYMOUS
  }

  type Handler = Ctx -> Outcome

  // ----- steps that decide before the rest of the chain runs

  datatype Gate = Pass(ctx: Ctx) | Stop(outcome: Outcome)

  function Refuse(c: Ctx, code: Code): Gate {
    Stop(Replied(Refused(code), c.log))
  }

  function Noting(c: Ctx, n: Note): Ctx {
    c.(log := c.log + [n])
  }

  function RequestId(env: Env, c: Ctx): Gate {
    if env.minted then Pass(c) else Refuse(c, ServiceUnavailable)
  }

  /** A forwarded address counts only when the peer is a trusted proxy; its first entry is the client. */
  function ClientAddress(env: Env, r: Request): string {
    if env.trusted != {} && env.host(r.remote) in env.trusted && r.forwarded != ""
    then TrimSpace(r.forwarded[..IndexOf(r.forwarded, ',')])
    else r.remote
  }

  function RealIp(env: Env, c: Ctx): Gate {
    Pass(c.(address := ClientAddress(env, c.request)))
  }

  function Deadline(env: Env, p: Policy, c: Ctx): Gate {
    Pass(c.(deadline := if p.timeout <= 0 then env.requestTimeout else p.timeout))
  }

  function LimitBody(env: Env, p: Policy, c: Ctx): Gate {
    if !p.rawBody then Pass(c)
    else
      match env.body
      case Oversized => Refuse(c, PayloadTooLarge)
      case Broken => Refuse(c, BadRequest)
      case Read(raw) => Pass(c.(raw := Some(raw)))
  }

  function Cors(c: Ctx): Gate {
    if c.request.verb == "OPTIONS" then Stop(Replied(NoContent, c.log)) else Pass(c)
  }

  function RulesFor(rules: seq<L.Rule>, scope: L.Scope): seq<L.Rule> {
    if rules == [] then []
    else
      var last := rules[|rules| - 1];
      RulesFor(rules[..|rules| - 1], scope) + if last.scope == scope then [last] else []
  }

  method RulesForScope(p: Policy, scope: L.Scope) returns (out: seq<L.Rule>)
    ensures out == RulesFor(p.rules, scope)
    ensures forall r :: r in out <==> r in p.rules && r.scope == scope
  {
    out := [];
    for i := 0 to |p.rules|
      invariant out == RulesFor(p.rules[..i], scope)
      invariant forall r :: r in out <==> r in p.rules[..i] && r.scope == scope
    {
      assert p.rules[..i + 1][..i] == p.rules[..i];
      if p.rules[i].scope == scope {
        out := out + [p.rules[i]];
      }
    }
    assert p.rules[..|p.rules|] == p.rules;
  }

  /** Every rule in turn, up to the first that does not let the request through. */
  function ApplyRules(env: Env, check: Check, rules: seq<L.Rule>, key: string, c: Ctx): Gate {
    if rules == [] then Pass(c)
    else
      var asked := Noting(c, AskedLimiter(check, rules[0], key)).(asked := c.asked + 1);
      match env.limiter(c.asked, rules[0], key)
      case LimiterDown => Refuse(asked, ServiceUnavailable)
      case Counted(Rejected(_)) => Refuse(asked, ServiceUnavailable)
      case Counted(DividesByZero) => Stop(Panicked(false, asked.log))
      case Counted(Answered(a)) =>
        if a.allowed then ApplyRules(env, check, rules[1..], key, asked)
        else Refuse(asked, RateLimited(a.retryAfter / 1_000_000_000))
  }

  function LimitClient(env: Env, p: Policy, c: Ctx): Gate {
    var client := env.host(c.address);
    match ApplyRules(env, ClientLimit, RulesFor(p.rules, L.PerIP), p.name + ":" + client, c)
    case Stop(o) => Stop(o)
    case Pass(c') =>
      var subject := if c'.request.rateSubject == "" then client else c'.request.rateSubject;
      ApplyRules(env, ClientLimit, RulesFor(p.rules, L.PerSubject), p.name + ":" + subject, c')
  }

  function LimitActor(env: Env, p: Policy, c: Ctx): Gate {
    var id := ActorFrom(c).id;
    var key := if id == "" then env.host(c.address) else id;
    ApplyRules(env, ActorLimit, RulesFor(p.rules, L.PerActor), p.name + ":" + key, c)
  }

  function VerifySignature(env: Env, c: Ctx): Gate {
    if c.raw.None? then Refuse(c, Internal)
    else
      var asked := Noting(c, Asked(Signed));
      match env.verifier(c.request.signature, c.raw.value)
      case None => Refuse(asked, BadRequest)
      case Some(actor) => Pass(asked.(actor := Some(actor)))
  }

  function LoadSession(env: Env, c: Ctx): Gate {
    if c.request.sessionCookie == "" then Pass(c.(actor := Some(ANONYMOUS)))
    else
      var asked := Noting(c, Asked(SessionLoad));
      match env.sessions(c.request.sessionCookie)
      case Known(actor) => Pass(asked.(actor := Some(actor)))
      case NotASession => Pass(asked.(actor := Some(ANONYMOUS)))
      case SessionsDown => Refuse(asked, ServiceUnavailable)
  }

  predicate SafeVerb(verb: string) {
    verb == "GET" || verb == "HEAD" || verb == "OPTIONS"
  }

  function CheckCsrf(c: Ctx): Gate {
    var r := c.request;
    if SafeVerb(r.verb) then Pass(c)
    else if r.csrfCookie.None? || r.csrfCookie.value == "" || r.csrfHeader == "" then Refuse(c, Forbidden)
    else if r.csrfCookie.value != r.csrfHeader then Refuse(c, Forbidden)
    else Pass(c)
  }

  function RequireAuth(p: Policy, c: Ctx): Gate {
    var a := ActorFrom(c);
    match p.auth
    case Public => Pass(c)
    case Signature => Pass(c)
    case SessionOrGuest => if a.kind != Customer && a.kind != Guest then Refuse(c, NotSignedIn) else Pass(c)
    case Session => if a.kind != Customer || !IsAuthenticated(a) then Refuse(c, NotSignedIn) else Pass(c)
    case AdminOnly => if a.kind != Admin || !IsAuthenticated(a) then Refuse(c, NotSignedIn) else Pass(c)
    case _ => Refuse(c, NotFound)
  }

  const ANY_RESOURCE := Resource("*", "", "")

  function RequirePermission(env: Env, action: Action, c: Ctx): Gate {
    if Can(env.cancelledAtPermission, ActorFrom(c), action, ANY_RESOURCE).Some? then Refuse(c, Forbidden) else Pass(c)
  }

  /** The read action of a resource kind, by its name. */
  function ReadAction(kind: string): Action {
    match kind
    case "order" => OrderRead
    case "catalog" => CatalogRead
    case "inventory" => InventoryRead
    case "customer" => CustomerRead
    case "purchasing" => PurchasingRead
    case "report" => ReportRead
    case "document" => DocumentRead
    case "client" => ClientRead
    case "subscription" => SubscriptionRead
    case _ => OtherAction(kind + ":read")
  }

  function OwnershipAction(p: Policy): Action {
    if p.permission.Some? then p.permission.value else ReadAction(p.ownership.kind)
  }

  function RequireOwnership(env: Env, p: Policy, c: Ctx): Gate {
    var id := if p.ownership.param in c.request.params then c.request.params[p.ownership.param] else "";
    if id == "" then Refuse(c, NotFound)
    else
      var asked := Noting(c, Asked(Owned));
      match env.owners(p.ownership.kind, id)
      case NoSuchResource => Refuse(asked, NotFound)
      case OwnersDown => Refuse(asked, ServiceUnavailable)
      case OwnedBy(owner) =>
        if Can(env.cancelledAtOwnership, ActorFrom(c), OwnershipAction(p), Resource(p.ownership.kind, id, owner)).Some?
        then Refuse(asked, NotFound) else Pass(asked)
  }

  function RequireReauth(env: Env, c: Ctx): Gate {
    if ReauthedWithin(ActorFrom(c), env.now, env.reauthWindow) then Pass(c) else Refuse(c, ReauthRequired)
  }

  // ----- the steps as middleware

  function Gated(gate: Ctx -> Gate, next: Handler): Handler {
    (c: Ctx) =>
      match gate(c)
      case Stop(o) => o
      case Pass(c') => next(c')
  }

  function Recovering(next: Handler): Handler {
    (c: Ctx) =>
      match next(c)
      case Panicked(abort, log) => if abort then Panicked(true, log) else Replied(Refused(Internal), log)
      case Replied(reply, log) => Replied(reply, log)
  }

  /** The status the access log's recorder ends up with: the last one set, or 200. */
  function LoggedStatus(calls: seq<W.Call>): nat {
    var status := W.Recorded(calls).status;
    if status == 0 then 200 else status
  }

  /** One line per request that comes back; a panic passes straight through. */
  function Logging(next: Handler): Handler {
    (c: Ctx) =>
      match next(c)
      case Panicked(abort, log) => Panicked(abort, log)
      case Replied(reply, log) => Replied(reply, log + [Line(LoggedStatus(Calls(reply)))])
  }

  function Replaying(env: Env, next: Handler): Handler {
    (c: Ctx) =>
      var key := c.request.idempotencyKey;
      if key == "" || ByteLength(key) > I.MAX_KEY then Replied(Refused(BadRequest), c.log)
      else
        var asked := Noting(c, Asked(Ledger));
        match env.ledger(ActorFrom(c).id, key)
        case InFlight => Replied(Refused(ServiceUnavailable), asked.log)
        case Undecodable => Replied(Refused(ServiceUnavailable), asked.log)
        case Stored(response) =>
          // net/http panics on a status out of range.
          if W.Sendable(response.status) then Replied(Replayed(response), asked.log) else Panicked(false, asked.log)
        case Claimed =>
          match next(asked)
          case Panicked(abort, log) => Panicked(abort, log)
          case Replied(reply, log) =>
            var r := W.Recorded(Calls(reply));
            Replied(reply, if I.Successful(r.status) then log + [Saved(r)] else log)
  }

  datatype Layer =
    | LRequestId | LRealIp | LRecoverer | LAccessLog | LTimeout | LBodyLimit | LSecurityHeaders | LCors
    | LRateLimitIp | LVerifySignature | LLoadSession | LCsrf | LRequireAuth | LRequirePermission(action: Action)
    | LRequireOwnership | LRequireReauth | LRateLimitActor | LIdempotency

  predicate IsGate(l: Layer) {
    !l.LRecoverer? && !l.LAccessLog? && !l.LIdempotency?
  }

  function GateOf(env: Env, p: Policy, l: Layer, c: Ctx): Gate
    requires IsGate(l)
  {
    match l
    case LRequestId => RequestId(env, c)
    case LRealIp => RealIp(env, c)
    case LTimeout => Deadline(env, p, c)
    case LBodyLimit => LimitBody(env, p, c)
    case LSecurityHeaders => Pass(c)
    case LCors => Cors(c)
    case LRateLimitIp => LimitClient(env, p, c)
    case LVerifySignature => VerifySignature(env, c)
    case LLoadSession => LoadSession(env, c)
    case LCsrf => CheckCsrf(c)
    case LRequireAuth => RequireAuth(p, c)
    case LRequirePermission(action) => RequirePermission(env, action, c)
    case LRequireOwnership => RequireOwnership(env, p, c)
    case LRequireReauth => RequireReauth(env, c)
    case LRateLimitActor => LimitActor(env, p, c)
  }

  function Apply(env: Env, p: Policy, l: Layer, next: Handler): Handler {
    match l
    case LRecoverer => Recovering(next)
    case LAccessLog => Logging(next)
    case LIdempotency => Replaying(env, next)
    case _ => Gated(c => GateOf(env, p, l, c), next)
  }

  // ----- translation and folding

  const FRONT: seq<Layer> := [LRequestId, LRealIp, LRecoverer, LAccessLog]

  /** The steps that carry out one check, where the policy declares it. */
  function LayersFor(p: Policy, c: Check): seq<Layer> {
    match c
    case BodyLimit => [LTimeout, LBodyLimit]
    case Preflight => [LSecurityHeaders, LCors]
    case ClientLimit => [LRateLimitIp]
    case Signed => if p.auth == Signature then [LVerifySignature] else []
    case SessionLoad => if p.auth != Signature && p.auth != Public then [LLoadSession] else []
    case Csrf => if p.csrf then [LCsrf] else []
    case Authenticated => [LRequireAuth]
    case Permitted => if p.permission.Some? then [LRequirePermission(p.permission.value)] else []
    case Owned => if !p.ownership.IsZero() then [LRequireOwnership] else []
    case Reauthed => if p.reauth then [LRequireReauth] else []
    case ActorLimit => [LRateLimitActor]
    case Ledger => if p.idempotent then [LIdempotency] else []
  }

  /** The steps of the first n checks. */
  function Layers(p: Policy, n: nat): seq<Layer>
    requires n <= |ORDER|
  {
    if n == 0 then [] else Layers(p, n - 1) + LayersFor(p, ORDER[n - 1])
  }

  function ChainOf(p: Policy): seq<Layer> {
    FRONT + Layers(p, |ORDER|)
  }

  lemma NextLayers(p: Policy, n: nat, mw: seq<Layer>, more: seq<Layer>)
    requires n < |ORDER| && mw == FRONT + Layers(p, n) && more == mw + LayersFor(p, ORDER[n])
    ensures more == FRONT + Layers(p, n + 1)
  {
    hide LayersFor;
  }

  method Chain(p: Policy) returns (mw: seq<Layer>)
    ensures mw == ChainOf(p)
  {
    hide Layers;
    mw := FrontChain(p);
    ghost var before := mw;
    mw := mw + [LRequireAuth];
    NextLayers(p, 6, before, mw);
    before := mw;
    if p.permission.Some? {
      mw := mw + [LRequirePermission(p.permission.value)];
    }
    NextLayers(p, 7, before, mw);
    before := mw;
    if !p.ownership.IsZero() {
      mw := mw + [LRequireOwnership];
    }
    NextLayers(p, 8, before, mw);
    before := mw;
    if p.reauth {
      mw := mw + [LRequireReauth];
    }
    NextLayers(p, 9, before, mw);
    before := mw;
    mw := mw + [LRateLimitActor];
    NextLayers(p, 10, before, mw);
    before := mw;
    if p.idempotent {
      mw := mw + [LIdempotency];
    }
    NextLayers(p, 11, before, mw);
  }

  /** The steps up to the one that resolves who is asking. */
  method FrontChain(p: Policy) returns (mw: seq<Layer>)
    ensures mw == FRONT + Layers(p, 6)
  {
    hide Layers;
    mw := OuterChain(p);
    ghost var before := mw;
    if p.auth == Signature {
      mw := mw + [LVerifySignature];
    }
    NextLayers(p, 3, before, mw);
    before := mw;
    if p.auth != Signature && p.auth != Public {
      mw := mw + [LLoadSession];
    }
    NextLayers(p, 4, before, mw);
    before := mw;
    if p.csrf {
      mw := mw + [LCsrf];
    }
    NextLayers(p, 5, before, mw);
  }

  /** The steps that come before anything is known of the caller. */
  method OuterChain(p: Policy) returns (mw: seq<Layer>)
    ensures mw == FRONT + Layers(p, 3)
  {
    assert Layers(p, 0) == [];
    hide Layers;
    mw := [LRequestId];
    mw := mw + [LRealIp];
    mw := mw + [LRecoverer];
    mw := mw + [LAccessLog];
    ghost var before := mw;
    mw := mw + [LTimeout];
    mw := mw + [LBodyLimit];
    NextLayers(p, 0, before, mw);
    before := mw;
    mw := mw + [LSecurityHeaders];
    mw := mw + [LCors];
    NextLayers(p, 1, before, mw);
    before := mw;
    mw := mw + [LRateLimitIp];
    NextLayers(p, 2, before, mw);
  }

  function Folded(env: Env, p: Policy, layers: seq<Layer>, h: Handler): Handler {
    if layers == [] then h else Apply(env, p, layers[0], Folded(env, p, layers[1..], h))
  }

  /** A handler sees who is asking, the request, and the raw body where the policy buffers it. */
  type Work = (Actor, Request, Option<string>) -> W.Ending

  function Adapt(h: Work): Handler {
    (c: Ctx) =>
      var log := c.log + [Ran(ActorFrom(c))];
      var e := h(ActorFrom(c), c.request, c.raw);
      match W.Play(e)
      case Wrote(_) => Replied(Handled(e), log)
      case Crashed(abort) => Panicked(abort, log)
  }

  method Fold(env: Env, p: Policy, h: Work) returns (handler: Handler)
    ensures handler == Folded(env, p, ChainOf(p), Adapt(h))
  {
    var chain := Chain(p);
    handler := Adapt(h);
    var i := |chain|;
    while i > 0
      invariant 0 <= i <= |chain|
      invariant handler == Folded(env, p, chain[i..], Adapt(h))
    {
      i := i - 1;
      assert chain[i..][1..] == chain[i + 1..];
      handler := Apply(env, p, chain[i], handler);
    }
  }
}
