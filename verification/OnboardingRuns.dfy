/**
  Several administrators at once. Each repository call is one atomic step, and the calls of any
  number of service calls interleave freely; a service call remembers only what it has read.
 */
module OnboardingRuns {
  import opened Wrappers
  import opened Onboarding

  type Admin = nat

  /** How far a service call has got. */
  datatype Phase =
    | ConfirmRead(id: ClientId)
    | ConfirmSawOwners(id: ClientId)
    | ConfirmSawShops(id: ClientId)
    | OwnerRead(id: ClientId)
    | ShopRead(id: ClientId, client: Client)

  datatype Op =
    | Register(id: ClientId, client: Client)
    | SetStatus(id: ClientId, status: ClientStatus)
    | ConfirmFind(id: ClientId)
    | ConfirmOwners
    | ConfirmShops
    | ConfirmWrite(admin: string)
    | OwnerFind(id: ClientId)
    | OwnerInsert(owner: Owner)
    | ShopFind(id: ClientId)
    | ShopInsert(input: ShopInput, tenant: TenantId)
    | GiveUp

  datatype Event = Event(who: Admin, at: Time, op: Op)

  /** The tables, the calls under way, and the confirmations that succeeded, in order. */
  datatype World = World(s: State, calls: map<Admin, Phase>, confirmed: seq<(ClientId, Time)>)

  const START := World(State(map[], map[], map[]), map[], [])

  function Moved(w: World, who: Admin, phase: Phase): World {
    w.(calls := w.calls[who := phase])
  }

  function Over(w: World, who: Admin): World {
    w.(calls := w.calls - {who})
  }

  function Step(w: World, e: Event): World {
    var who, s := e.who, w.s;
    match e.op
    case Register(id, c) =>
      if id in s.clients then w
      else w.(s := s.(clients := s.clients[id := c.(status := ActiveClient, confirmedAt := None, confirmedBy := None)]))
    case SetStatus(id, status) =>
      if id !in s.clients then w else w.(s := s.(clients := s.clients[id := s.clients[id].(status := status)]))
    case ConfirmFind(id) =>
      if who in w.calls || id !in s.clients || s.clients[id].IsConfirmed() || !s.clients[id].HasIdentifier() then w
      else Moved(w, who, ConfirmRead(id))
    case ConfirmOwners =>
      if who !in w.calls || !w.calls[who].ConfirmRead? then w
      else if OwnersOf(s, w.calls[who].id) == [] then Over(w, who)
      else Moved(w, who, ConfirmSawOwners(w.calls[who].id))
    case ConfirmShops =>
      if who !in w.calls || !w.calls[who].ConfirmSawOwners? then w
      else if ShopsOf(s, w.calls[who].id) == [] then Over(w, who)
      else Moved(w, who, ConfirmSawShops(w.calls[who].id))
    case ConfirmWrite(admin) =>
      if who !in w.calls || !w.calls[who].ConfirmSawShops? then w
      else
        var id := w.calls[who].id;
        var written := ConfirmWritten(s, id, admin, e.at);
        if written.Failure? then Over(w, who)
        else Over(w, who).(s := written.value, confirmed := w.confirmed + [(id, e.at)])
    case OwnerFind(id) =>
      if who in w.calls || id !in s.clients || s.clients[id].IsConfirmed() then w else Moved(w, who, OwnerRead(id))
    case OwnerInsert(o) =>
      if who !in w.calls || !w.calls[who].OwnerRead? then w
      else Over(w, who).(s := OwnerInserted(s, w.calls[who].id, o))
    case ShopFind(id) =>
      if who in w.calls || id !in s.clients || s.clients[id].status != ActiveClient then w
      else Moved(w, who, ShopRead(id, s.clients[id]))
    case ShopInsert(i, tenant) =>
      if who !in w.calls || !w.calls[who].ShopRead? then w
      else
        var inserted := ShopInserted(s, w.calls[who].id, Inherit(w.calls[who].client, tenant, i));
        if inserted.Failure? then Over(w, who) else Over(w, who).(s := inserted.value)
    case GiveUp => Over(w, who)
  }

  function Run(w: World, es: seq<Event>): World {
    if es == [] then w else Step(Run(w, es[..|es| - 1]), es[|es| - 1])
  }

  // ----- a call left alone is the atomic call

  lemma AddOwnerAlone(w: World, who: Admin, at: Time, id: ClientId, o: Owner)
    requires who !in w.calls
    ensures Step(Step(w, Event(who, at, OwnerFind(id))), Event(who, at, OwnerInsert(o))).s == AddOwner(w.s, id, o).0
  {
  }

  lemma ProvisionAlone(w: World, who: Admin, at: Time, id: ClientId, i: ShopInput, tenant: TenantId)
    requires who !in w.calls
    ensures Step(Step(w, Event(who, at, ShopFind(id))), Event(who, at, ShopInsert(i, tenant))).s
         == ProvisionShop(w.s, id, i, tenant).0
  {
    hide SlugTaken;
  }

  lemma ConfirmAlone(w: World, who: Admin, at: Time, id: ClientId, admin: string)
    requires who !in w.calls
    ensures
      var seen := Step(Step(w, Event(who, at, ConfirmFind(id))), Event(who, at, ConfirmOwners));
      Step(Step(seen, Event(who, at, ConfirmShops)), Event(who, at, ConfirmWrite(admin))).s
        == Confirm(w.s, id, Some(admin), at).0
  {
  }

  // ----- the invariant

  predicate Complete(s: State, id: ClientId) {
    id in s.clients && s.clients[id].HasIdentifier() && OwnersOf(s, id) != [] && ShopsOf(s, id) != []
  }

  /** What a call has seen holds of the tables. */
  predicate Holds(s: State, phase: Phase) {
    match phase
    case ConfirmRead(id) => id in s.clients && s.clients[id].HasIdentifier()
    case ConfirmSawOwners(id) => id in s.clients && s.clients[id].HasIdentifier() && OwnersOf(s, id) != []
    case ConfirmSawShops(id) => Complete(s, id)
    case _ => true
  }

  predicate SeenStillSo(w: World) {
    forall who :: who in w.calls ==> Holds(w.s, w.calls[who])
  }

  /** Every confirmed client is complete. */
  predicate ConfirmedComplete(s: State) {
    forall id :: id in s.clients && s.clients[id].IsConfirmed() ==> Complete(s, id)
  }

  /** Each client's confirmation is recorded exactly once, with the time that stands. */
  predicate ConfirmedOnce(w: World) {
    && (forall i :: 0 <= i < |w.confirmed| ==>
          w.confirmed[i].0 in w.s.clients && w.s.clients[w.confirmed[i].0].confirmedAt == Some(w.confirmed[i].1))
    && (forall i, j :: 0 <= i < j < |w.confirmed| ==> w.confirmed[i].0 != w.confirmed[j].0)
    && (forall id :: id in w.s.clients && w.s.clients[id].IsConfirmed() ==>
          exists i :: 0 <= i < |w.confirmed| && w.confirmed[i].0 == id)
  }

  predicate Sound(w: World) {
    SeenStillSo(w) && ConfirmedComplete(w.s) && ConfirmedOnce(w)
  }

  /** A client's identity never changes, nor its confirmation once made. */
  predicate ClientKept(c: Client, c': Client) {
    && c'.gstin == c.gstin && c'.tin == c.tin && c'.legalName == c.legalName && c'.stateCode == c.stateCode
    && (c.IsConfirmed() ==> c'.confirmedAt == c.confirmedAt && c'.confirmedBy == c.confirmedBy)
  }

  predicate ClientsKept(before: map<ClientId, Client>, after: map<ClientId, Client>) {
    forall id :: id in before ==> id in after && ClientKept(before[id], after[id])
  }

  /** Tables only grow: clients are kept, owners and shops are only ever appended. */
  predicate Grows(s: State, s': State) {
    && ClientsKept(s.clients, s'.clients)
    && (forall id :: id in s.owners ==> id in s'.owners && s.owners[id] <= s'.owners[id])
    && (forall id :: id in s.shops ==> id in s'.shops && s.shops[id] <= s'.shops[id])
  }

  lemma StepKeepsClient(w: World, e: Event, id: ClientId)
    requires id in w.s.clients
    ensures id in Step(w, e).s.clients && ClientKept(w.s.clients[id], Step(w, e).s.clients[id])
  {
    hide SlugTaken, Inherit, ShopInserted, OwnerInserted, OwnersOf, ShopsOf;
  }

  lemma StepKeepsClients(w: World, e: Event)
    ensures ClientsKept(w.s.clients, Step(w, e).s.clients)
  {
    hide Step, ClientKept;
    forall id | id in w.s.clients ensures id in Step(w, e).s.clients &&
      ClientKept(w.s.clients[id], Step(w, e).s.clients[id]) {
      StepKeepsClient(w, e, id);
    }
  }

  lemma StepGrows(w: World, e: Event)
    ensures Grows(w.s, Step(w, e).s)
  {
    StepKeepsClients(w, e);
    hide SlugTaken, Inherit, ConfirmWritten, ClientsKept;
  }

  lemma GrowsTrans(a: State, b: State, c: State)
    requires Grows(a, b) && Grows(b, c)
    ensures Grows(a, c)
  {
  }

  lemma HoldsStill(s: State, s': State, phase: Phase)
    requires Grows(s, s') && Holds(s, phase)
    ensures Holds(s', phase)
  {
  }

  /** A call's phase is the one it had, or one that has just been seen to hold. */
  lemma StepPhase(w: World, e: Event, who: Admin)
    requires SeenStillSo(w) && who in Step(w, e).calls
    ensures Holds(w.s, Step(w, e).calls[who])
  {
    hide SlugTaken, Inherit, OwnerInserted, ShopInserted, ConfirmWritten;
  }

  lemma SeenStep(w: World, e: Event)
    requires SeenStillSo(w)
    ensures SeenStillSo(Step(w, e))
  {
    hide Step, Holds, Grows;
    StepGrows(w, e);
    forall who | who in Step(w, e).calls ensures Holds(Step(w, e).s, Step(w, e).calls[who]) {
      StepPhase(w, e, who);
      HoldsStill(w.s, Step(w, e).s, Step(w, e).calls[who]);
    }
  }

  /** Only a call that has seen everything confirms. */
  lemma NewlyConfirmed(w: World, e: Event, id: ClientId)
    requires SeenStillSo(w) && id in Step(w, e).s.clients && Step(w, e).s.clients[id].IsConfirmed()
    ensures (id in w.s.clients && w.s.clients[id].IsConfirmed()) || Complete(w.s, id)
  {
    hide SlugTaken, Inherit, ShopInserted, OwnerInserted, Complete;
  }

  lemma CompleteStep(w: World, e: Event)
    requires SeenStillSo(w) && ConfirmedComplete(w.s)
    ensures ConfirmedComplete(Step(w, e).s)
  {
    hide Step, Complete, Grows;
    StepGrows(w, e);
    forall id | id in Step(w, e).s.clients && Step(w, e).s.clients[id].IsConfirmed()
      ensures Complete(Step(w, e).s, id)
    {
      NewlyConfirmed(w, e, id);
      HoldsStill(w.s, Step(w, e).s, ConfirmSawShops(id));
    }
  }

  /** Only the conditional update confirms anybody. */
  lemma OthersConfirmNobody(w: World, e: Event)
    requires !e.op.ConfirmWrite?
    ensures
      var w' := Step(w, e);
      && w'.confirmed == w.confirmed
      && (forall id :: id in w.s.clients ==>
            id in w'.s.clients && w'.s.clients[id].confirmedAt == w.s.clients[id].confirmedAt)
      && (forall id :: id in w'.s.clients && w'.s.clients[id].IsConfirmed() ==> id in w.s.clients)
  {
    hide SlugTaken, Inherit, OwnerInserted, ShopInserted, ConfirmWritten, OwnersOf, ShopsOf;
  }

  lemma OnceOther(w: World, e: Event)
    requires ConfirmedOnce(w) && !e.op.ConfirmWrite?
    ensures ConfirmedOnce(Step(w, e))
  {
    hide Step;
    OthersConfirmNobody(w, e);
  }

  lemma OnceConfirm(w: World, e: Event)
    requires ConfirmedOnce(w) && e.op.ConfirmWrite?
    ensures ConfirmedOnce(Step(w, e))
  {
    var w' := Step(w, e);
    forall id | id in w'.s.clients && w'.s.clients[id].IsConfirmed()
      ensures exists i :: 0 <= i < |w'.confirmed| && w'.confirmed[i].0 == id
    {
      if id in w.s.clients && w.s.clients[id].IsConfirmed() {
        var i :| 0 <= i < |w.confirmed| && w.confirmed[i].0 == id;
        assert w'.confirmed[i].0 == id;
      } else {
        assert w'.confirmed[|w.confirmed|].0 == id;
      }
    }
  }

  lemma OnceStep(w: World, e: Event)
    requires ConfirmedOnce(w)
    ensures ConfirmedOnce(Step(w, e))
  {
    hide Step, ConfirmedOnce;
    if e.op.ConfirmWrite? {
      OnceConfirm(w, e);
    } else {
      OnceOther(w, e);
    }
  }

  lemma {:induction false} RunSound(es: seq<Event>)
    ensures Sound(Run(START, es))
  {
    hide Step, SeenStillSo, ConfirmedComplete, ConfirmedOnce;
    if es == [] {
      StartSound();
    } else {
      var k := |es| - 1;
      RunSound(es[..k]);
      SeenStep(Run(START, es[..k]), es[k]);
      CompleteStep(Run(START, es[..k]), es[k]);
      OnceStep(Run(START, es[..k]), es[k]);
    }
  }

  lemma StartSound()
    ensures Sound(START)
  {
  }

  lemma {:induction false} RunGrows(w: World, es: seq<Event>)
    ensures Grows(w.s, Run(w, es).s)
  {
    hide Step, Grows;
    if es == [] {
      GrowsSelf(w.s);
    } else {
      var k := |es| - 1;
      RunGrows(w, es[..k]);
      StepGrows(Run(w, es[..k]), es[k]);
      GrowsTrans(w.s, Run(w, es[..k]).s, Run(w, es).s);
    }
  }

  lemma GrowsSelf(s: State)
    ensures Grows(s, s)
  {
  }

  lemma {:induction false} RunAppends(w: World, a: seq<Event>, b: seq<Event>)
    ensures Run(w, a + b) == Run(Run(w, a), b)
    decreases |b|
  {
    hide Step;
    if b == [] {
      assert a + b == a;
    } else {
      assert (a + b)[..|a + b| - 1] == a + b[..|b| - 1];
      RunAppends(w, a, b[..|b| - 1]);
    }
  }

  /**
    In every interleaving, a confirmed client has a GSTIN or a TIN, an owner and a shop; its
    identity and the time of its confirmation are the same ever after; and exactly one call
    confirmed it.
   */
  lemma ConfirmationIsFinal(es: seq<Event>, more: seq<Event>, id: ClientId)
    requires var s := Run(START, es).s; id in s.clients && s.clients[id].IsConfirmed()
    ensures
      var w, w' := Run(START, es), Run(START, es + more);
      && Complete(w.s, id) && id in w'.s.clients
      && w'.s.clients[id] == w.s.clients[id].(status := w'.s.clients[id].status)
      && (exists i :: 0 <= i < |w'.confirmed| && w'.confirmed[i] == (id, w.s.clients[id].confirmedAt.value))
      && (forall i, j :: 0 <= i < j < |w'.confirmed| ==> w'.confirmed[i].0 != w'.confirmed[j].0)
  {
    hide Run, Complete, SeenStillSo;
    RunSound(es);
    RunSound(es + more);
    RunAppends(START, es, more);
    RunGrows(Run(START, es), more);
    var w' := Run(START, es + more);
    var i :| 0 <= i < |w'.confirmed| && w'.confirmed[i].0 == id;
    assert w'.confirmed[i] == (id, Run(START, es).s.clients[id].confirmedAt.value);
  }

  // ----- owners after confirmation

  /** The calls that have read the client as unconfirmed and are about to add an owner. */
  function AddingTo(w: World, id: ClientId): set<Admin> {
    set who | who in w.calls && w.calls[who] == OwnerRead(id)
  }

  lemma ConfirmedStays(w: World, e: Event, id: ClientId)
    requires id in w.s.clients && w.s.clients[id].IsConfirmed()
    ensures id in Step(w, e).s.clients && Step(w, e).s.clients[id].IsConfirmed()
  {
    hide Step;
    StepGrows(w, e);
  }

  lemma AddingStep(w: World, e: Event, id: ClientId)
    requires id in w.s.clients && w.s.clients[id].IsConfirmed()
    ensures AddingTo(Step(w, e), id) <= AddingTo(w, id)
    ensures OwnersOf(Step(w, e).s, id) == OwnersOf(w.s, id)
      || (e.who in AddingTo(w, id) - AddingTo(Step(w, e), id)
          && |OwnersOf(Step(w, e).s, id)| == |OwnersOf(w.s, id)| + 1)
  {
    hide SlugTaken, Inherit, ShopInserted, ConfirmWritten;
  }

  lemma AddingCosts(w: World, e: Event, id: ClientId)
    requires id in w.s.clients && w.s.clients[id].IsConfirmed()
    ensures |OwnersOf(Step(w, e).s, id)| + |AddingTo(Step(w, e), id)| <= |OwnersOf(w.s, id)| + |AddingTo(w, id)|
  {
    hide Step, AddingTo, OwnersOf;
    AddingStep(w, e, id);
    var before, after := AddingTo(w, id), AddingTo(Step(w, e), id);
    assert before == after + (before - after);
    if e.who in before - after {
      assert |before| == |after| + |before - after|;
    }
  }

  /**
    After confirmation the only owners that can still appear are those of calls that had read
    the client before: at most as many as were under way at that moment.
   */
  lemma {:induction false} LateOwnersBounded(w: World, es: seq<Event>, id: ClientId)
    requires id in w.s.clients && w.s.clients[id].IsConfirmed()
    ensures |OwnersOf(Run(w, es).s, id)| + |AddingTo(Run(w, es), id)| <= |OwnersOf(w.s, id)| + |AddingTo(w, id)|
    ensures id in Run(w, es).s.clients && Run(w, es).s.clients[id].IsConfirmed()
  {
    hide Step, AddingTo, OwnersOf;
    if es != [] {
      var k := |es| - 1;
      LateOwnersBounded(w, es[..k], id);
      ConfirmedStays(Run(w, es[..k]), es[k], id);
      AddingCosts(Run(w, es[..k]), es[k], id);
    }
  }

  /** With no such call under way the owners are frozen; shops may still be added. */
  lemma OwnersFrozen(w: World, es: seq<Event>, id: ClientId)
    requires id in w.s.clients && w.s.clients[id].IsConfirmed() && AddingTo(w, id) == {}
    ensures OwnersOf(Run(w, es).s, id) == OwnersOf(w.s, id) && ShopsOf(w.s, id) <= ShopsOf(Run(w, es).s, id)
  {
    LateOwnersBounded(w, es, id);
    RunGrows(w, es);
    hide Run, AddingTo;
    var before, after := OwnersOf(w.s, id), OwnersOf(Run(w, es).s, id);
    assert before <= after && |after| <= |before|;
  }

  lemma LateOwnerLands(w: World, id: ClientId, who: Admin, at: Time, o: Owner)
    requires who in AddingTo(w, id)
    ensures OwnersOf(Run(w, [Event(who, at, OwnerInsert(o))]).s, id) == OwnersOf(w.s, id) + [o]
  {
    var es := [Event(who, at, OwnerInsert(o))];
    assert es[..0] == [] && Run(w, []) == w;
    assert Run(w, es) == Step(w, es[0]);
  }

  /** The condition is exact: a confirmed client's owners are frozen if and only if no such call is under way. */
  lemma OwnersFrozenIff(w: World, id: ClientId)
    requires id in w.s.clients && w.s.clients[id].IsConfirmed()
    ensures AddingTo(w, id) == {} <==> forall es :: OwnersOf(Run(w, es).s, id) == OwnersOf(w.s, id)
  {
    hide AddingTo, OwnersOf, Run;
    if AddingTo(w, id) == {} {
      forall es ensures OwnersOf(Run(w, es).s, id) == OwnersOf(w.s, id) {
        OwnersFrozen(w, es, id);
      }
    } else {
      var who :| who in AddingTo(w, id);
      LateOwnerLands(w, id, who, 0, Owner("", false));
    }
  }

  /** A call that read the client in time can add an owner after another has confirmed it. */
  lemma LateOwnerExample(w: World, id: ClientId, late: Owner, admin: string, at: Time)
    requires Complete(w.s, id) && !w.s.clients[id].IsConfirmed() && w.calls == map[]
    ensures
      var es := [Event(2, at, OwnerFind(id)), Event(1, at, ConfirmFind(id)), Event(1, at, ConfirmOwners),
                 Event(1, at, ConfirmShops), Event(1, at, ConfirmWrite(admin)), Event(2, at, OwnerInsert(late))];
      && id in Run(w, es[..5]).s.clients && Run(w, es[..5]).s.clients[id].confirmedAt == Some(at)
      && OwnersOf(Run(w, es).s, id) == OwnersOf(Run(w, es[..5]).s, id) + [late]
  {
    hide Run, Step;
    var find, read := Event(2, at, OwnerFind(id)), Event(1, at, ConfirmFind(id));
    var owners, shops := Event(1, at, ConfirmOwners), Event(1, at, ConfirmShops);
    var write, insert := Event(1, at, ConfirmWrite(admin)), Event(2, at, OwnerInsert(late));
    var es := [find, read, owners, shops, write];
    var seen := World(w.s, map[2 := OwnerRead(id), 1 := ConfirmSawShops(id)], w.confirmed);
    RunFour(w, find, read, owners, shops);
    EverythingSeen(w, id, at);
    RunOne(w, [find, read, owners, shops], write);
    RunOne(w, es, insert);
    assert es == [find, read, owners, shops] + [write] && (es + [insert])[..5] == es;
    assert es + [insert] == [find, read, owners, shops, write, insert];
    ConfirmedAndLate(seen, id, late, admin, at);
  }

  /** Both calls have read what they need, and nothing has been written. */
  lemma EverythingSeen(w: World, id: ClientId, at: Time)
    requires Complete(w.s, id) && !w.s.clients[id].IsConfirmed() && w.calls == map[]
    ensures
      var read := Step(Step(w, Event(2, at, OwnerFind(id))), Event(1, at, ConfirmFind(id)));
      Step(Step(read, Event(1, at, ConfirmOwners)), Event(1, at, ConfirmShops)) ==
        World(w.s, map[2 := OwnerRead(id), 1 := ConfirmSawShops(id)], w.confirmed)
  {
    var read := Step(Step(w, Event(2, at, OwnerFind(id))), Event(1, at, ConfirmFind(id)));
    assert read == World(w.s, map[2 := OwnerRead(id), 1 := ConfirmRead(id)], w.confirmed);
  }

  lemma ConfirmedAndLate(seen: World, id: ClientId, late: Owner, admin: string, at: Time)
    requires id in seen.s.clients && !seen.s.clients[id].IsConfirmed()
    requires seen.calls == map[2 := OwnerRead(id), 1 := ConfirmSawShops(id)]
    ensures
      var w := Step(seen, Event(1, at, ConfirmWrite(admin)));
      var w' := Step(w, Event(2, at, OwnerInsert(late)));
      && id in w.s.clients && w.s.clients[id].confirmedAt == Some(at)
      && id in w'.s.clients && w'.s.clients[id].confirmedAt == Some(at)
      && OwnersOf(w'.s, id) == OwnersOf(w.s, id) + [late]
  {
    var w := Step(seen, Event(1, at, ConfirmWrite(admin)));
    assert w.calls == map[2 := OwnerRead(id)];
  }

  lemma RunFour(w: World, a: Event, b: Event, c: Event, d: Event)
    ensures Run(w, [a, b, c, d]) == Step(Step(Step(Step(w, a), b), c), d)
  {
    hide Step;
    assert [a, b, c, d][..3] == [a, b, c] && [a, b, c][..2] == [a, b] && [a, b][..1] == [a] && [a][..0] == [];
    assert Run(w, []) == w;
    assert Run(w, [a]) == Step(w, a);
    assert Run(w, [a, b]) == Step(Run(w, [a]), b);
    assert Run(w, [a, b, c]) == Step(Run(w, [a, b]), c);
  }

  lemma RunOne(w: World, es: seq<Event>, e: Event)
    ensures Run(w, es + [e]) == Step(Run(w, es), e)
  {
    hide Step;
    assert (es + [e])[..|es|] == es;
  }

  // ----- slugs

  predicate SameSlug(s: State, a: ClientId, i: int, b: ClientId, j: int) {
    && a in s.shops && b in s.shops && 0 <= i < |s.shops[a]| && 0 <= j < |s.shops[b]|
    && s.shops[a][i].slug == s.shops[b][j].slug
  }

  /** No two shops, of one client or of two, go by the same slug. */
  ghost predicate SlugsApart(s: State) {
    forall a, b, i, j :: SameSlug(s, a, i, b, j) ==> a == b && i == j
  }

  lemma ShopKeepsSlugsApart(s: State, id: ClientId, shop: Shop)
    requires SlugsApart(s) && ShopInserted(s, id, shop).Success?
    ensures SlugsApart(ShopInserted(s, id, shop).value)
  {
    var s' := ShopInserted(s, id, shop).value;
    assert forall a, i :: a in s.shops && 0 <= i < |s.shops[a]| ==> s.shops[a][i].slug != shop.slug;
    forall a, b, i, j | SameSlug(s', a, i, b, j) ensures a == b && i == j {
      var n := |ShopsOf(s, id)|;
      if !(a == id && i == n) && !(b == id && j == n) {
        assert a in s.shops && s'.shops[a][i] == s.shops[a][i];
        assert b in s.shops && s'.shops[b][j] == s.shops[b][j];
        assert SameSlug(s, a, i, b, j);
      }
    }
  }

  lemma SlugsStep(w: World, e: Event)
    requires SlugsApart(w.s)
    ensures SlugsApart(Step(w, e).s)
  {
    hide SlugsApart, SlugTaken, Inherit, ConfirmWritten;
    if e.op.ShopInsert? {
      InsertKeepsSlugsApart(w, e);
    } else {
      ShopsStay(w, e);
      SlugsOfShops(w.s, Step(w, e).s);
    }
  }

  lemma InsertKeepsSlugsApart(w: World, e: Event)
    requires SlugsApart(w.s) && e.op.ShopInsert?
    ensures SlugsApart(Step(w, e).s)
  {
    hide SlugsApart, SlugTaken, Inherit, ConfirmWritten;
    match e.op
    case ShopInsert(i, tenant) =>
      if e.who in w.calls && w.calls[e.who].ShopRead? {
        var shop := Inherit(w.calls[e.who].client, tenant, i);
        if ShopInserted(w.s, w.calls[e.who].id, shop).Success? {
          ShopKeepsSlugsApart(w.s, w.calls[e.who].id, shop);
        }
      }
  }

  lemma ShopsStay(w: World, e: Event)
    requires !e.op.ShopInsert?
    ensures Step(w, e).s.shops == w.s.shops
  {
    hide SlugTaken, Inherit, OwnersOf, ShopsOf;
  }

  lemma SlugsOfShops(s: State, s': State)
    requires s'.shops == s.shops && SlugsApart(s)
    ensures SlugsApart(s')
  {
    forall a, b, i, j | SameSlug(s', a, i, b, j) ensures a == b && i == j {
      assert SameSlug(s, a, i, b, j);
    }
  }

  /** In every interleaving of administrators slugs stay unique over all shops. */
  lemma {:induction false} SlugsStayApart(w: World, es: seq<Event>)
    requires SlugsApart(w.s)
    ensures SlugsApart(Run(w, es).s)
  {
    hide Step, SlugsApart;
    if es != [] {
      SlugsStayApart(w, es[..|es| - 1]);
      SlugsStep(Run(w, es[..|es| - 1]), es[|es| - 1]);
    }
  }
}
