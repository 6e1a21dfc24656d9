/**
  How a business becomes a client: owners and shops are recorded, then the identity is
  confirmed, once and for good.
 */
module Onboarding {
  import opened Wrappers

  type Time = int
  type ClientId = string
  type TenantId = string

  datatype ClientStatus = ActiveClient | Suspended | Closed

  datatype Client = Client(
    legalName: string,
    status: ClientStatus,
    gstin: string,
    tin: string,
    stateCode: string,
    confirmedAt: Option<Time>,
    confirmedBy: Option<string>
  ) {

    predicate IsConfirmed() {
      confirmedAt.Some?
    }

    predicate HasIdentifier() {
      gstin != "" || tin != ""
    }
  }

  datatype Owner = Owner(fullName: string, isPrimary: bool)

  datatype Shop = Shop(tenant: TenantId, slug: string, legalName: string, stateCode: string, gstin: string)

  datatype ShopInput = ShopInput(slug: string, legalName: string, stateCode: string, gstin: string)

  datatype Refusal =
    | NoSuchClient | ClientNotActive | AlreadyConfirmed | NoIdentifier | NoOwner | NoShop
    | DuplicateShop | ShopNotThisClient | BadActor

  datatype State = State(
    clients: map<ClientId, Client>,
    owners: map<ClientId, seq<Owner>>,
    shops: map<ClientId, seq<Shop>>
  )

  function OwnersOf(s: State, id: ClientId): seq<Owner> {
    if id in s.owners then s.owners[id] else []
  }

  function ShopsOf(s: State, id: ClientId): seq<Shop> {
    if id in s.shops then s.shops[id] else []
  }

  // ----- the repository's statements

  function OwnerInserted(s: State, id: ClientId, o: Owner): (s': State)
    ensures s'.clients == s.clients && s'.shops == s.shops
  {
    s.(owners := s.owners[id := OwnersOf(s, id) + [o]])
  }

  predicate SlugTaken(s: State, slug: string) {
    exists id :: id in s.shops && exists i :: 0 <= i < |s.shops[id]| && s.shops[id][i].slug == slug
  }

  /** The slug is unique over all shops; the new tenant's identifier is generated. */
  function ShopInserted(s: State, id: ClientId, shop: Shop): (r: Result<State, Refusal>)
    ensures r.Success? ==> r.value.clients == s.clients && r.value.owners == s.owners
  {
    if SlugTaken(s, shop.slug) then Failure(DuplicateShop)
    else Success(s.(shops := s.shops[id := ShopsOf(s, id) + [shop]]))
  }

  /** The conditional update: only an unconfirmed row is written. */
  function ConfirmWritten(s: State, id: ClientId, admin: string, at: Time): (r: Result<State, Refusal>)
    ensures r.Success? ==> r.value.owners == s.owners && r.value.shops == s.shops
  {
    if id !in s.clients || s.clients[id].IsConfirmed() then Failure(AlreadyConfirmed)
    else Success(s.(clients := s.clients[id := s.clients[id].(confirmedAt := Some(at), confirmedBy := Some(admin))]))
  }

  // ----- the service calls

  function AddOwner(s: State, id: ClientId, o: Owner): (State, Option<Refusal>) {
    if id !in s.clients then (s, Some(NoSuchClient))
    else if s.clients[id].IsConfirmed() then (s, Some(AlreadyConfirmed))
    else (OwnerInserted(s, id, o), None)
  }

  /** A shop takes from its client what it does not name itself. */
  function Inherit(c: Client, tenant: TenantId, i: ShopInput): Shop {
    Shop(tenant, i.slug, if i.legalName == "" then c.legalName else i.legalName,
         if i.stateCode == "" then c.stateCode else i.stateCode, if i.gstin == "" then c.gstin else i.gstin)
  }

  function ProvisionShop(s: State, id: ClientId, i: ShopInput, tenant: TenantId): (State, Result<Shop, Refusal>) {
    if id !in s.clients then (s, Failure(NoSuchClient))
    else if s.clients[id].status != ActiveClient then (s, Failure(ClientNotActive))
    else
      var shop := Inherit(s.clients[id], tenant, i);
      match ShopInserted(s, id, shop)
      case Failure(e) => (s, Failure(e))
      case Success(s') => (s', Success(shop))
  }

  /** What still stands between a client and its confirmation. */
  function Blocker(s: State, id: ClientId): Option<Refusal> {
    if id !in s.clients then Some(NoSuchClient)
    else if s.clients[id].IsConfirmed() then Some(AlreadyConfirmed)
    else if !s.clients[id].HasIdentifier() then Some(NoIdentifier)
    else if OwnersOf(s, id) == [] then Some(NoOwner)
    else if ShopsOf(s, id) == [] then Some(NoShop)
    else None
  }

  /** `admin` is the administrator's identifier, when it is one. */
  function Confirm(s: State, id: ClientId, admin: Option<string>, at: Time): (State, Result<Client, Refusal>) {
    if Blocker(s, id).Some? then (s, Failure(Blocker(s, id).value))
    else if admin.None? then (s, Failure(BadActor))
    else
      match ConfirmWritten(s, id, admin.value, at)
      case Failure(e) => (s, Failure(e))
      case Success(s') => (s', if id in s'.clients then Success(s'.clients[id]) else Failure(NoSuchClient))
  }

  class Repository {
    var clients: map<ClientId, Client>
    var owners: map<ClientId, seq<Owner>>
    var shops: map<ClientId, seq<Shop>>

    constructor ()
      ensures Now() == State(map[], map[], map[])
    {
      clients, owners, shops := map[], map[], map[];
    }

    function Now(): State
      reads this
    {
      State(clients, owners, shops)
    }

    method FindClient(id: ClientId) returns (c: Option<Client>)
      ensures c == if id in clients then Some(clients[id]) else None
    {
      c := if id in clients then Some(clients[id]) else None;
    }

    method InsertOwner(id: ClientId, o: Owner)
      modifies this
      ensures Now() == OwnerInserted(old(Now()), id, o)
    {
      var all := if id in owners then owners[id] else [];
      owners := owners[id := all + [o]];
    }

    method InsertShop(id: ClientId, shop: Shop) returns (e: Option<Refusal>)
      modifies this
      ensures (e.None? <==> ShopInserted(old(Now()), id, shop).Success?)
      ensures if e.None? then Now() == ShopInserted(old(Now()), id, shop).value
              else Now() == old(Now()) && e.value == ShopInserted(old(Now()), id, shop).error
    {
      if SlugTaken(Now(), shop.slug) {
        return Some(DuplicateShop);
      }
      var all := if id in shops then shops[id] else [];
      shops := shops[id := all + [shop]];
      return None;
    }

    method WriteConfirmation(id: ClientId, admin: string, at: Time) returns (e: Option<Refusal>)
      modifies this
      ensures (e.None? <==> ConfirmWritten(old(Now()), id, admin, at).Success?)
      ensures if e.None? then Now() == ConfirmWritten(old(Now()), id, admin, at).value
              else Now() == old(Now()) && e.value == ConfirmWritten(old(Now()), id, admin, at).error
    {
      var affected := 0;
      if id in clients && clients[id].confirmedAt.None? {
        clients := clients[id := clients[id].(confirmedAt := Some(at), confirmedBy := Some(admin))];
        affected := 1;
      }
      return if affected == 0 then Some(AlreadyConfirmed) else None;
    }
  }

  class Service {
    const repo: Repository

    constructor (repo: Repository)
      ensures this.repo == repo
    {
      this.repo := repo;
    }

    method DoAddOwner(id: ClientId, o: Owner) returns (e: Option<Refusal>)
      modifies repo
      ensures (repo.Now(), e) == AddOwner(old(repo.Now()), id, o)
    {
      var c := repo.FindClient(id);
      if c.None? {
        return Some(NoSuchClient);
      }
      if c.value.IsConfirmed() {
        return Some(AlreadyConfirmed);
      }
      repo.InsertOwner(id, o);
      return None;
    }

    method DoProvisionShop(id: ClientId, input: ShopInput, tenant: TenantId) returns (r: Result<Shop, Refusal>)
      modifies repo
      ensures (repo.Now(), r) == ProvisionShop(old(repo.Now()), id, input, tenant)
    {
      var c := repo.FindClient(id);
      if c.None? {
        return Failure(NoSuchClient);
      }
      if c.value.status != ActiveClient {
        return Failure(ClientNotActive);
      }
      var i := input;
      if i.stateCode == "" {
        i := i.(stateCode := c.value.stateCode);
      }
      if i.gstin == "" {
        i := i.(gstin := c.value.gstin);
      }
      if i.legalName == "" {
        i := i.(legalName := c.value.legalName);
      }
      var shop := Shop(tenant, i.slug, i.legalName, i.stateCode, i.gstin);
      var e := repo.InsertShop(id, shop);
      if e.Some? {
        return Failure(e.value);
      }
      return Success(shop);
    }

    method DoConfirm(id: ClientId, admin: Option<string>, at: Time) returns (r: Result<Client, Refusal>)
      modifies repo
      ensures (repo.Now(), r) == Confirm(old(repo.Now()), id, admin, at)
    {
      var c := repo.FindClient(id);
      if c.None? {
        return Failure(NoSuchClient);
      }
      if c.value.IsConfirmed() {
        return Failure(AlreadyConfirmed);
      }
      if c.value.gstin == "" && c.value.tin == "" {
        return Failure(NoIdentifier);
      }
      if OwnersOf(repo.Now(), id) == [] {
        return Failure(NoOwner);
      }
      if ShopsOf(repo.Now(), id) == [] {
        return Failure(NoShop);
      }
      if admin.None? {
        return Failure(BadActor);
      }
      var e := repo.WriteConfirmation(id, admin.value, at);
      if e.Some? {
        return Failure(AlreadyConfirmed);
      }
      var confirmed := repo.FindClient(id);
      return Success(confirmed.value);
    }

    /** The first of the client's own shops with that tenant; another client's shop is refused. */
    method ShopOf(id: ClientId, tenant: TenantId) returns (r: Result<Shop, Refusal>)
      ensures r.Success? ==> r.value in ShopsOf(repo.Now(), id) && r.value.tenant == tenant
      ensures r.Failure? ==> r.error == ShopNotThisClient && forall sh :: sh in ShopsOf(repo.Now(), id) ==>
        sh.tenant != tenant
    {
      var shops := ShopsOf(repo.Now(), id);
      for i := 0 to |shops|
        invariant forall j :: 0 <= j < i ==> shops[j].tenant != tenant
      {
        if shops[i].tenant == tenant {
          return Success(shops[i]);
        }
      }
      return Failure(ShopNotThisClient);
    }
  }

  /** The client still lacks this. */
  predicate Lacking(s: State, id: ClientId, b: Refusal)
    requires id in s.clients
  {
    match b
    case NoIdentifier => !s.clients[id].HasIdentifier()
    case NoOwner => OwnersOf(s, id) == []
    case NoShop => ShopsOf(s, id) == []
    case _ => false
  }

  /** What the console's client page reports: what is missing, and whether to offer the button. */
  method Readiness(s: State, id: ClientId) returns (ready: bool, blockers: seq<Refusal>)
    requires id in s.clients
    ensures ready <==> Blocker(s, id).None?
    ensures !s.clients[id].IsConfirmed() ==> (blockers == [] <==> ready)
    ensures forall b :: b in blockers <==> !s.clients[id].IsConfirmed() && Lacking(s, id, b)
  {
    var c := s.clients[id];
    blockers := [];
    if !c.IsConfirmed() {
      if c.gstin == "" && c.tin == "" {
        blockers := blockers + [NoIdentifier];
      }
      if OwnersOf(s, id) == [] {
        blockers := blockers + [NoOwner];
      }
      if ShopsOf(s, id) == [] {
        blockers := blockers + [NoShop];
      }
    }
    ready := !c.IsConfirmed() && |blockers| == 0;
  }

  /** The button is offered exactly when pressing it now would succeed. */
  lemma ReadyMeansConfirmable(s: State, id: ClientId, admin: string, at: Time)
    ensures Blocker(s, id).None? <==> Confirm(s, id, Some(admin), at).1.Success?
  {
  }

  // ----- the calls, spelt out on the tables

  /** Some shop of some client already goes by this slug. */
  predicate SlugInUse(s: State, slug: string) {
    exists id :: id in s.shops && exists sh :: sh in s.shops[id] && sh.slug == slug
  }

  lemma SlugTakenIff(s: State, slug: string)
    ensures SlugTaken(s, slug) <==> SlugInUse(s, slug)
  {
    if id :| id in s.shops && exists i :: 0 <= i < |s.shops[id]| && s.shops[id][i].slug == slug {
      var i :| 0 <= i < |s.shops[id]| && s.shops[id][i].slug == slug;
      assert s.shops[id][i] in s.shops[id];
    }
  }

  /** An owner is added exactly to a known, unconfirmed client, behind those already there. */
  lemma AddOwnerIff(s: State, id: ClientId, o: Owner)
    ensures
      var (s', e) := AddOwner(s, id, o);
      && (e == Some(NoSuchClient) <==> id !in s.clients)
      && (e == Some(AlreadyConfirmed) <==> id in s.clients && s.clients[id].confirmedAt.Some?)
      && (e.None? <==> id in s.clients && s.clients[id].confirmedAt.None?)
      && (e.Some? ==> s' == s)
      && (e.None? ==>
            s' == s.(owners := s.owners[id := (if id in s.owners then s.owners[id] else []) + [o]]))
  {
  }

  /** What a shop takes over: each of the client's own details where the input is silent. */
  predicate TakesFrom(c: Client, i: ShopInput, tenant: TenantId, shop: Shop) {
    && shop.tenant == tenant && shop.slug == i.slug
    && shop.legalName == (if i.legalName != "" then i.legalName else c.legalName)
    && shop.stateCode == (if i.stateCode != "" then i.stateCode else c.stateCode)
    && shop.gstin == (if i.gstin != "" then i.gstin else c.gstin)
  }

  /** A shop is opened exactly for an active client under a slug nobody uses, behind those it has. */
  lemma ProvisionShopIff(s: State, id: ClientId, i: ShopInput, tenant: TenantId)
    ensures
      var (s', r) := ProvisionShop(s, id, i, tenant);
      var active := id in s.clients && s.clients[id].status == ActiveClient;
      && (r == Failure(NoSuchClient) <==> id !in s.clients)
      && (r == Failure(ClientNotActive) <==> id in s.clients && !active)
      && (r == Failure(DuplicateShop) <==> active && SlugInUse(s, i.slug))
      && (r.Success? <==> active && !SlugInUse(s, i.slug))
      && (r.Failure? ==> s' == s)
      && (r.Success? ==>
            && TakesFrom(s.clients[id], i, tenant, r.value)
            && s' == s.(shops := s.shops[id := (if id in s.shops then s.shops[id] else []) + [r.value]]))
  {
    SlugTakenIff(s, i.slug);
    hide SlugTaken, SlugInUse;
  }

  /** The reasons a confirmation is refused, in order; a success writes its time and author and no more. */
  lemma ConfirmIff(s: State, id: ClientId, admin: Option<string>, at: Time)
    ensures
      var (s', r) := Confirm(s, id, admin, at);
      && (r.Failure? ==> s' == s)
      && if id !in s.clients then r == Failure(NoSuchClient)
         else
           var c := s.clients[id];
           var named := c.gstin != "" || c.tin != "";
           var owned := id in s.owners && s.owners[id] != [];
           var shopped := id in s.shops && s.shops[id] != [];
           if c.confirmedAt.Some? then r == Failure(AlreadyConfirmed)
           else if !named then r == Failure(NoIdentifier)
           else if !owned then r == Failure(NoOwner)
           else if !shopped then r == Failure(NoShop)
           else if admin.None? then r == Failure(BadActor)
           else
             && r == Success(c.(confirmedAt := Some(at), confirmedBy := admin))
             && s' == s.(clients := s.clients[id := r.value])
  {
  }
}
