/** Roles, the actions they grant, and the enforcer that decides on one actor, action and resource. */
module Authz {
  import opened Wrappers

  type Time = int

  datatype ActorType = Unset | Guest | Customer | Admin | System | Provider | OtherType(name: string)

  datatype Role =
    | Owner | ClientAdmin | Manager | DataEntry | CounterSales | Delivery
    | Viewer | Support | Ops | Finance | Catalog | Marketing | Purchasing
    | SaaSAdmin | SaaSSupport
    | OtherRole(code: string)

  datatype Action =
    | OrderRead | OrderWrite | CatalogRead | CatalogWrite | InventoryRead | InventoryWrite
    | RefundWrite | PricingWrite | TaxWrite | CustomerRead | PurchasingRead | PurchasingWrite
    | MarketingWrite | MarketingExport | LoyaltyWrite | ReportRead | UserManage
    | DeliveryUpdate | PaymentVerify | DocumentRead | DocumentExport
    | ClientRead | ClientManage | SubscriptionRead | SubscriptionManage | PlatformOperate
    | SupportSessionRequest
    | OtherAction(name: string)

  datatype Actor = Actor(id: string, kind: ActorType, roles: seq<Role>, reauthedAt: Option<Time>)

  const ANONYMOUS := Actor("", Guest, [], None)

  datatype Resource = Resource(kind: string, id: string, ownerId: string)

  datatype Refusal = Denied | Unauthenticated | Unavailable

  const SHOP_ACTIONS: set<Action> := {
    OrderRead, OrderWrite, CatalogRead, CatalogWrite, InventoryRead, InventoryWrite,
    RefundWrite, PricingWrite, TaxWrite, CustomerRead, PurchasingRead, PurchasingWrite,
    MarketingWrite, MarketingExport, LoyaltyWrite, ReportRead, UserManage,
    DeliveryUpdate, PaymentVerify, DocumentRead, DocumentExport
  }

  const PLATFORM_ACTIONS: set<Action> := {
    ClientRead, ClientManage, SubscriptionRead, SubscriptionManage, PlatformOperate,
    SupportSessionRequest
  }

  const OWNED_KINDS: set<string> := {
    "order", "cart", "address", "payment", "return", "review", "loyalty", "notification"
  }

  /** The name an action is registered and logged under. */
  function ActionName(a: Action): string {
    match a
    case OrderRead => "order:read"
    case OrderWrite => "order:write"
    case CatalogRead => "catalog:read"
    case CatalogWrite => "catalog:write"
    case InventoryRead => "inventory:read"
    case InventoryWrite => "inventory:write"
    case RefundWrite => "refund:write"
    case PricingWrite => "pricing:write"
    case TaxWrite => "tax:write"
    case CustomerRead => "customer:read"
    case PurchasingRead => "purchasing:read"
    case PurchasingWrite => "purchasing:write"
    case MarketingWrite => "marketing:write"
    case MarketingExport => "marketing:export"
    case LoyaltyWrite => "loyalty:write"
    case ReportRead => "report:read"
    case UserManage => "user:manage"
    case DeliveryUpdate => "delivery:update"
    case PaymentVerify => "payment:verify"
    case DocumentRead => "document:read"
    case DocumentExport => "document:export"
    case ClientRead => "client:read"
    case ClientManage => "client:manage"
    case SubscriptionRead => "subscription:read"
    case SubscriptionManage => "subscription:manage"
    case PlatformOperate => "platform:operate"
    case SupportSessionRequest => "support_session:request"
    case OtherAction(name) => name
  }

  predicate IsPlatformRole(r: Role) {
    r == SaaSAdmin || r == SaaSSupport
  }

  /** The grant table; a role outside it is granted nothing. */
  function Grants(r: Role): set<Action> {
    match r
    case Viewer => {OrderRead, CatalogRead, InventoryRead, CustomerRead, ReportRead, PurchasingRead}
    case Support => {OrderRead, OrderWrite, CatalogRead, InventoryRead, CustomerRead, ReportRead,
                     PaymentVerify, DocumentRead}
    case Ops => {OrderRead, OrderWrite, CatalogRead, InventoryRead, InventoryWrite, CustomerRead,
                 ReportRead, PurchasingRead}
    case Finance => {OrderRead, RefundWrite, CustomerRead, ReportRead, PurchasingRead, PaymentVerify,
                     DocumentRead, DocumentExport}
    case Catalog => {CatalogRead, CatalogWrite, InventoryRead, PricingWrite, ReportRead}
    case Marketing => {CatalogRead, CustomerRead, ReportRead, MarketingWrite, MarketingExport, LoyaltyWrite}
    case Purchasing => {CatalogRead, InventoryRead, InventoryWrite, PurchasingRead, PurchasingWrite, ReportRead}
    case ClientAdmin => SHOP_ACTIONS
    case Owner => SHOP_ACTIONS
    case Manager => SHOP_ACTIONS - {TaxWrite, MarketingExport, UserManage, DeliveryUpdate}
    case DataEntry => {CatalogRead, CatalogWrite, InventoryRead, PurchasingRead}
    case CounterSales => {CatalogRead, InventoryRead, OrderRead, OrderWrite, LoyaltyWrite}
    case Delivery => {DeliveryUpdate}
    case SaaSAdmin => PLATFORM_ACTIONS
    case SaaSSupport => {ClientRead, SubscriptionRead, SupportSessionRequest}
    case OtherRole(_) => {}
  }

  predicate IsAuthenticated(a: Actor) {
    a.id != "" && a.kind != Unset && a.kind != Guest
  }

  predicate ReauthedWithin(a: Actor, now: Time, window: int) {
    a.reauthedAt.Some? && window > 0 && a.reauthedAt.value <= now && now - a.reauthedAt.value <= window
  }

  predicate HoldsGrantingRole(roles: seq<Role>, action: Action) {
    exists i :: 0 <= i < |roles| && action in Grants(roles[i])
  }

  /** The kinds of resource a customer may own. */
  predicate OwnedKind(kind: string) {
    || kind == "order" || kind == "cart" || kind == "address" || kind == "payment"
    || kind == "return" || kind == "review" || kind == "loyalty" || kind == "notification"
  }

  predicate OwnsResource(a: Actor, res: Resource) {
    OwnedKind(res.kind) && a.id != "" && res.ownerId == a.id
  }

  function CheckOwnership(a: Actor, res: Resource): Option<Refusal> {
    if res.kind !in OWNED_KINDS then Some(Denied)
    else if a.id == "" then Some(Unauthenticated)
    else if res.ownerId == "" then Some(Denied)
    else if res.ownerId != a.id then Some(Denied)
    else None
  }

  /** The search over the actor's roles, in order, stopping at the first that grants. */
  function CheckRoles(roles: seq<Role>, action: Action): Option<Refusal> {
    if roles == [] then Some(Denied)
    else if action in Grants(roles[0]) then None
    else CheckRoles(roles[1..], action)
  }

  /** RBAC.Can; `None` is permission. A finished request context is refused first. */
  function Can(cancelled: bool, a: Actor, action: Action, res: Resource): Option<Refusal> {
    if cancelled then Some(Unavailable)
    else
      match a.kind
      case Unset => Some(Unauthenticated)
      case System => CheckRoles(a.roles, action)
      case Provider => Some(Denied)
      case Guest => CheckOwnership(a, res)
      case Customer => CheckOwnership(a, res)
      case Admin => CheckRoles(a.roles, action)
      case OtherType(_) => Some(Denied)
  }

  lemma {:induction false} CheckRolesIff(roles: seq<Role>, action: Action)
    ensures CheckRoles(roles, action).None? <==> HoldsGrantingRole(roles, action)
  {
    if roles != [] {
      CheckRolesIff(roles[1..], action);
      if HoldsGrantingRole(roles[1..], action) {
        var i :| 0 <= i < |roles[1..]| && action in Grants(roles[1..][i]);
        assert action in Grants(roles[i + 1]);
      }
      if HoldsGrantingRole(roles, action) && action !in Grants(roles[0]) {
        var i :| 0 <= i < |roles| && action in Grants(roles[i]);
        assert action in Grants(roles[1..][i - 1]);
      }
    }
  }

  /** Permission is exactly ownership for customers and guests, a granting role for staff and workers. */
  lemma CanIff(cancelled: bool, a: Actor, action: Action, res: Resource)
    ensures Can(cancelled, a, action, res).None? <==>
      && !cancelled
      && match a.kind
         case Guest => OwnsResource(a, res)
         case Customer => OwnsResource(a, res)
         case Admin => HoldsGrantingRole(a.roles, action)
         case System => HoldsGrantingRole(a.roles, action)
         case _ => false
  {
    CheckRolesIff(a.roles, action);
  }

  /** The grant table read the other way: who may perform each action. */
  predicate Holds(r: Role, a: Action) {
    match a
    case OrderRead =>
      r.Owner? || r.ClientAdmin? || r.Manager? || r.Viewer? || r.Support? || r.Ops? ||
      r.Finance? || r.CounterSales?
    case OrderWrite => r.Owner? || r.ClientAdmin? || r.Manager? || r.Support? || r.Ops? || r.CounterSales?
    case CatalogRead =>
      r.Owner? || r.ClientAdmin? || r.Manager? || r.Viewer? || r.Support? || r.Ops? ||
      r.Catalog? || r.Marketing? || r.Purchasing? || r.DataEntry? || r.CounterSales?
    case CatalogWrite => r.Owner? || r.ClientAdmin? || r.Manager? || r.Catalog? || r.DataEntry?
    case InventoryRead =>
      r.Owner? || r.ClientAdmin? || r.Manager? || r.Viewer? || r.Support? || r.Ops? ||
      r.Catalog? || r.Purchasing? || r.DataEntry? || r.CounterSales?
    case InventoryWrite => r.Owner? || r.ClientAdmin? || r.Manager? || r.Ops? || r.Purchasing?
    case RefundWrite => r.Owner? || r.ClientAdmin? || r.Manager? || r.Finance?
    case PricingWrite => r.Owner? || r.ClientAdmin? || r.Manager? || r.Catalog?
    case TaxWrite => r.Owner? || r.ClientAdmin?
    case CustomerRead =>
      r.Owner? || r.ClientAdmin? || r.Manager? || r.Viewer? || r.Support? || r.Ops? ||
      r.Finance? || r.Marketing?
    case PurchasingRead =>
      r.Owner? || r.ClientAdmin? || r.Manager? || r.Viewer? || r.Ops? || r.Finance? ||
      r.Purchasing? || r.DataEntry?
    case PurchasingWrite => r.Owner? || r.ClientAdmin? || r.Manager? || r.Purchasing?
    case MarketingWrite => r.Owner? || r.ClientAdmin? || r.Manager? || r.Marketing?
    case MarketingExport => r.Owner? || r.ClientAdmin? || r.Marketing?
    case LoyaltyWrite => r.Owner? || r.ClientAdmin? || r.Manager? || r.Marketing? || r.CounterSales?
    case ReportRead =>
      r.Owner? || r.ClientAdmin? || r.Manager? || r.Viewer? || r.Support? || r.Ops? ||
      r.Finance? || r.Catalog? || r.Marketing? || r.Purchasing?
    case UserManage => r.Owner? || r.ClientAdmin?
    case DeliveryUpdate => r.Owner? || r.ClientAdmin? || r.Delivery?
    case PaymentVerify => r.Owner? || r.ClientAdmin? || r.Manager? || r.Support? || r.Finance?
    case DocumentRead => r.Owner? || r.ClientAdmin? || r.Manager? || r.Support? || r.Finance?
    case DocumentExport => r.Owner? || r.ClientAdmin? || r.Manager? || r.Finance?
    case ClientRead => r.SaaSAdmin? || r.SaaSSupport?
    case ClientManage => r.SaaSAdmin?
    case SubscriptionRead => r.SaaSAdmin? || r.SaaSSupport?
    case SubscriptionManage => r.SaaSAdmin?
    case PlatformOperate => r.SaaSAdmin?
    case SupportSessionRequest => r.SaaSAdmin? || r.SaaSSupport?
    case OtherAction(_) => false
  }

  lemma ReadingsAgreeOnStock(r: Role, a: Action)
    requires a.OrderRead? || a.OrderWrite? || a.CatalogRead? ||
      a.CatalogWrite? || a.InventoryRead? || a.InventoryWrite?
    ensures a in Grants(r) <==> Holds(r, a)
  {
  }

  lemma ReadingsAgreeOnMoney(r: Role, a: Action)
    requires a.RefundWrite? || a.PricingWrite? || a.TaxWrite? ||
      a.CustomerRead? || a.PurchasingRead? || a.PurchasingWrite?
    ensures a in Grants(r) <==> Holds(r, a)
  {
  }

  lemma ReadingsAgreeOnTrade(r: Role, a: Action)
    requires a.MarketingWrite? || a.MarketingExport? || a.LoyaltyWrite? ||
      a.ReportRead? || a.UserManage? || a.DeliveryUpdate?
    ensures a in Grants(r) <==> Holds(r, a)
  {
  }

  lemma ReadingsAgreeOnRecords(r: Role, a: Action)
    requires a.PaymentVerify? || a.DocumentRead? || a.DocumentExport? ||
      a.ClientRead? || a.ClientManage?
    ensures a in Grants(r) <==> Holds(r, a)
  {
  }

  lemma ReadingsAgreeOnPlatform(r: Role, a: Action)
    requires a.SubscriptionRead? || a.SubscriptionManage? || a.PlatformOperate? ||
      a.SupportSessionRequest? || a.OtherAction?
    ensures a in Grants(r) <==> Holds(r, a)
  {
  }

  /** The two readings agree: a role grants an action exactly when it is among the action's holders. */
  lemma GrantedIff(r: Role, a: Action)
    ensures a in Grants(r) <==> Holds(r, a)
  {
    hide Grants, Holds;
    match a {
      case OrderRead | OrderWrite | CatalogRead | CatalogWrite | InventoryRead | InventoryWrite =>
        ReadingsAgreeOnStock(r, a);
      case RefundWrite | PricingWrite | TaxWrite | CustomerRead | PurchasingRead | PurchasingWrite =>
        ReadingsAgreeOnMoney(r, a);
      case MarketingWrite | MarketingExport | LoyaltyWrite | ReportRead | UserManage | DeliveryUpdate =>
        ReadingsAgreeOnTrade(r, a);
      case PaymentVerify | DocumentRead | DocumentExport | ClientRead | ClientManage =>
        ReadingsAgreeOnRecords(r, a);
      case _ => ReadingsAgreeOnPlatform(r, a);
    }
  }

  predicate Delicate(a: Action) {
    a.PaymentVerify? || a.RefundWrite? || a.PricingWrite? || a.TaxWrite? || a.CustomerRead? || a.UserManage?
  }

  /**
    Who takes payments or goods confirms no payment, moves no money out and reads no customer;
    users and tax rates are for the owner and the client's administrator alone, who may do the
    same; a manager may do less, a delivery person one thing. Every defined action has a holder,
    and no role holds every action.
   */
  lemma LeastPrivilege(r: Role, a: Action)
    ensures Delicate(a) && (r.CounterSales? || r.Delivery? || r.DataEntry?) ==> a !in Grants(r)
    ensures (a.UserManage? || a.TaxWrite?) && a in Grants(r) ==> r == Owner || r == ClientAdmin
    ensures a in Grants(Owner) <==> a in Grants(ClientAdmin)
    ensures a in Grants(Manager) ==> a in Grants(Owner)
    ensures TaxWrite in Grants(Owner) && TaxWrite !in Grants(Manager)
    ensures a in Grants(Delivery) <==> a == DeliveryUpdate
    ensures a.OtherAction? || exists holder :: a in Grants(holder)
    ensures exists missing: Action :: !missing.OtherAction? && missing !in Grants(r)
  {
    GrantedIff(r, a);
    GrantedIff(Owner, a);
    GrantedIff(ClientAdmin, a);
    GrantedIff(Manager, a);
    GrantedIff(Delivery, a);
    GrantedIff(SaaSAdmin, a);
    GrantedIff(Owner, TaxWrite);
    GrantedIff(Manager, TaxWrite);
    GrantedIff(r, OrderRead);
    GrantedIff(r, ClientRead);
    hide Grants;
    assert a.OtherAction? || a in Grants(Owner) || a in Grants(SaaSAdmin);
    assert OrderRead !in Grants(r) || ClientRead !in Grants(r);
  }

  /** A re-authentication counts from its moment for as long as the window, both ends included. */
  lemma ReauthWindow(a: Actor, now: Time, window: int)
    ensures ReauthedWithin(a, now, window) <==>
      window > 0 && a.reauthedAt.Some? && a.reauthedAt.value <= now <= a.reauthedAt.value + window
  {
  }

  /** No role of one world grants an action of the other. */
  lemma WorldsAreDisjoint(r: Role)
    ensures IsPlatformRole(r) ==> Grants(r) !! SHOP_ACTIONS
    ensures !IsPlatformRole(r) ==> Grants(r) !! PLATFORM_ACTIONS
  {
  }

  predicate OneWorld(roles: seq<Role>) {
    || (forall i :: 0 <= i < |roles| ==> IsPlatformRole(roles[i]))
    || (forall i :: 0 <= i < |roles| ==> !IsPlatformRole(roles[i]))
  }

  /** An actor whose roles come from one world is never allowed an action of each. */
  lemma OneWorldActor(a: Actor, shop: Action, platform: Action, res: Resource, res': Resource)
    requires OneWorld(a.roles) && a.kind != Guest && a.kind != Customer
    requires shop in SHOP_ACTIONS && platform in PLATFORM_ACTIONS
    ensures Can(false, a, shop, res).Some? || Can(false, a, platform, res').Some?
  {
    CanIff(false, a, shop, res);
    CanIff(false, a, platform, res');
    forall i | 0 <= i < |a.roles| ensures shop !in Grants(a.roles[i]) || !IsPlatformRole(a.roles[i]) {
      WorldsAreDisjoint(a.roles[i]);
    }
    forall i | 0 <= i < |a.roles| ensures platform !in Grants(a.roles[i]) || IsPlatformRole(a.roles[i]) {
      WorldsAreDisjoint(a.roles[i]);
    }
  }

  lemma NoRolesNoActions(a: Actor, cancelled: bool, action: Action, res: Resource)
    requires a.roles == [] && a.kind == Admin
    ensures Can(cancelled, a, action, res).Some?
  {
    CanIff(cancelled, a, action, res);
  }
}
