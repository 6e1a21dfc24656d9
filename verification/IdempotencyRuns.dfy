/**
  Many requests racing on one idempotency key. Each Redis command is one atomic step; the
  steps of any number of requests interleave freely, and a request may vanish at any point.
 */
module IdempotencyRuns {
  import opened Wrappers
  import opened StoredResponse
  import opened Idempotency
  import W = Responses

  type Client = nat

  /** Where a request has got to; positions refer to the log. */
  datatype Phase =
    | Missed
    | Running(claim: nat)
    | Saving(claim: nat, ended: nat, response: W.Recording)
    | Finished

  datatype Entry =
    | Claimed(who: Client, at: Time)
    | Ended(who: Client, at: Time, response: W.Recording)
    | Saved(who: Client, at: Time, response: W.Recording)
    | Replayed(who: Client, at: Time, shown: Response)
    | Refused(who: Client, at: Time)
    | Garbled(who: Client, at: Time)

  datatype State = State(cell: Option<Cell>, phases: map<Client, Phase>, log: seq<Entry>)

  const START := State(None, map[], [])

  datatype Op =
    | Get
    | SetNX
    | Finish(response: W.Recording)
    | Save
    | Vanish

  datatype Event = Event(who: Client, at: Time, op: Op)

  function Live(s: State, now: Time): Option<string> {
    if s.cell.Some? && now < s.cell.value.expires then Some(s.cell.value.value) else None
  }

  function Move(s: State, who: Client, phase: Phase): State {
    s.(phases := s.phases[who := phase])
  }

  function Note(s: State, entry: Entry): State {
    s.(log := s.log + [entry])
  }

  function Answer(who: Client, at: Time, found: Found): Entry {
    match found
    case Stored(r) => Replayed(who, at, r)
    case Undecodable => Garbled(who, at)
    case _ => Refused(who, at)
  }

  function Step(s: State, e: Event): State {
    var who, now := e.who, e.at;
    match e.op
    case Get =>
      if who in s.phases then s
      else
        var value := Live(s, now);
        if value.None? then Move(s, who, Missed)
        else Note(Move(s, who, Finished), Answer(who, now, Meaning(value.value)))
    case SetNX =>
      if who !in s.phases || !s.phases[who].Missed? then s
      else if Live(s, now).Some? then Note(Move(s, who, Finished), Refused(who, now))
      else
        Note(Move(s, who, Running(|s.log|)), Entry.Claimed(who, now)).(cell := Some(Cell(MARKER, now + TTL)))
    case Finish(r) =>
      if who !in s.phases || !s.phases[who].Running? then s
      else
        Note(Move(s, who, if Successful(r.status) then Saving(s.phases[who].claim, |s.log|, r) else Finished),
             Ended(who, now, r))
    case Save =>
      if who !in s.phases || !s.phases[who].Saving? then s
      else
        var r := s.phases[who].response;
        Note(Move(s, who, Finished), Saved(who, now, r)).(cell := Some(Cell(Encode(r), now + TTL)))
    case Vanish => Move(s, who, Finished)
  }

  function Run(es: seq<Event>): State {
    if es == [] then START else Step(Run(es[..|es| - 1]), es[|es| - 1])
  }

  predicate Ordered(es: seq<Event>) {
    forall i, j :: 0 <= i < j < |es| ==> es[i].at <= es[j].at
  }

  /** One request alone: its two commands in a row are a lookup. */
  lemma GetThenSetNXIsLookup(s: State, cells: Cells, actorId: string, key: string, who: Client, now: Time)
    requires who !in s.phases
    requires var k := Keys.Idempotency(actorId, key); s.cell == if k in cells then Some(cells[k]) else None
    ensures
      var (after, found) := LookupOn(cells, actorId, key, now);
      var s' := Step(Step(s, Event(who, now, Get)), Event(who, now, SetNX));
      var k := Keys.Idempotency(actorId, key);
      && s'.cell == (if k in after then Some(after[k]) else None)
      && s'.log == s.log + [if found.Claimed? then Entry.Claimed(who, now) else Answer(who, now, found)]
  {
    hide Decode, Keys.Idempotency;
  }

  // ----- what every run keeps

  predicate InOrder(log: seq<Entry>) {
    forall i, j :: 0 <= i < j < |log| ==> log[i].at <= log[j].at
  }

  predicate NoneAfter(log: seq<Entry>, now: Time) {
    forall i :: 0 <= i < |log| ==> log[i].at <= now
  }

  /** The entries that write the cell: claims and saves. */
  predicate Writes(e: Entry) {
    e.Claimed? || e.Saved?
  }

  /** Entry l is the last to have written the cell before position j. */
  predicate LastWrite(log: seq<Entry>, l: int, j: int) {
    0 <= l < j <= |log| && Writes(log[l]) && forall m :: l < m < j ==> !Writes(log[m])
  }

  function Written(e: Entry): Cell
    requires Writes(e)
  {
    Cell(if e.Claimed? then MARKER else Encode(e.response), e.at + TTL)
  }

  /** The cell is what the last write left, for a full retention from that write. */
  predicate CellIsLastWrite(cell: Option<Cell>, log: seq<Entry>) {
    match cell
    case None => forall i :: 0 <= i < |log| ==> !Writes(log[i])
    case Some(c) => exists l :: 0 <= l < |log| && LastWrite(log, l, |log|) && c == Written(log[l])
  }

  /** A claim comes a full retention or more after every earlier claim and every earlier save. */
  predicate ClaimsWait(log: seq<Entry>) {
    forall i, j :: 0 <= i < j < |log| && Writes(log[i]) && log[j].Claimed? ==> log[i].at + TTL <= log[j].at
  }

  /** A request claims, ends and saves at most once each, in that order. */
  predicate OnceEach(phases: map<Client, Phase>, log: seq<Entry>) {
    && (forall i :: 0 <= i < |log| && log[i].Claimed? ==>
          log[i].who in phases && !phases[log[i].who].Missed?)
    && (forall i :: 0 <= i < |log| && log[i].Ended? ==>
          log[i].who in phases && (phases[log[i].who].Saving? || phases[log[i].who].Finished?))
    && (forall i, j :: 0 <= i < j < |log| && log[i].Claimed? && log[j].Claimed? ==> log[i].who != log[j].who)
    && (forall i, j :: 0 <= i < j < |log| && log[i].Ended? && log[j].Ended? ==> log[i].who != log[j].who)
  }

  /** The run claimed at c ended at i in success, with response r. */
  predicate RunOf(log: seq<Entry>, c: int, i: int, r: Response) {
    && 0 <= c < i < |log| && log[c].Claimed? && log[i].Ended? && log[i].who == log[c].who
    && log[i].response == r && Successful(r.status)
  }

  predicate PhasesSound(phases: map<Client, Phase>, log: seq<Entry>) {
    forall who :: who in phases ==>
      match phases[who]
      case Running(c) => c < |log| && log[c].Claimed? && log[c].who == who
      case Saving(c, e, r) => RunOf(log, c, e, r) && log[c].who == who
      case _ => true
  }

  /** A save stores the response of its own run. */
  predicate SavesSound(log: seq<Entry>) {
    forall j :: 0 <= j < |log| && log[j].Saved? ==>
      exists c, i :: 0 <= c < j && 0 <= i < j && RunOf(log, c, i, log[j].response) && log[c].who == log[j].who
  }

  /** The replay at j shows what the save at l stored, within a retention of it. */
  predicate Shows(log: seq<Entry>, l: int, j: int) {
    && 0 <= l < j < |log| && LastWrite(log, l, j) && log[l].Saved? && log[j].Replayed?
    && log[j].shown == log[l].response && log[j].at < log[l].at + TTL
  }

  /** Every replay shows the last write, and that was a save; nothing stored is ever misread. */
  predicate ReplaysSound(log: seq<Entry>) {
    forall j :: 0 <= j < |log| ==>
      !log[j].Garbled? && (log[j].Replayed? ==> exists l :: 0 <= l < j && Shows(log, l, j))
  }

  predicate Sound(s: State, now: Time) {
    && InOrder(s.log) && NoneAfter(s.log, now) && CellIsLastWrite(s.cell, s.log)
    && ClaimsWait(s.log) && OnceEach(s.phases, s.log)
    && PhasesSound(s.phases, s.log) && SavesSound(s.log) && ReplaysSound(s.log)
  }

  lemma Later(s: State, before: Time, now: Time)
    requires Sound(s, before) && before <= now
    ensures Sound(s, now)
  {
    hide CellIsLastWrite, PhasesSound, SavesSound, ReplaysSound, OnceEach, ClaimsWait, InOrder;
  }

  lemma MoveKeeps(s: State, who: Client, now: Time)
    requires Sound(s, now)
    ensures Sound(Move(s, who, Finished), now)
    ensures who !in s.phases ==> Sound(Move(s, who, Missed), now)
  {
    hide LastWrite, RunOf, Shows, Written, InOrder, NoneAfter, ClaimsWait;
  }

  // An entry that writes nothing leaves the last write where it was.

  lemma CellStays(cell: Option<Cell>, log: seq<Entry>, entry: Entry)
    requires CellIsLastWrite(cell, log) && !Writes(entry)
    ensures CellIsLastWrite(cell, log + [entry])
  {
    hide Written;
    if cell.Some? {
      var l :| 0 <= l < |log| && LastWrite(log, l, |log|) && cell.value == Written(log[l]);
      assert LastWrite(log + [entry], l, |log| + 1);
    }
  }

  /** A write of its own moment becomes the last one. */
  lemma CellRewritten(log: seq<Entry>, entry: Entry)
    requires Writes(entry)
    ensures CellIsLastWrite(Some(Written(entry)), log + [entry])
  {
    hide Written;
    assert LastWrite(log + [entry], |log|, |log| + 1);
  }

  lemma OrderStays(log: seq<Entry>, entry: Entry)
    requires InOrder(log) && NoneAfter(log, entry.at)
    ensures InOrder(log + [entry]) && NoneAfter(log + [entry], entry.at)
  {
  }

  lemma WaitStays(log: seq<Entry>, entry: Entry)
    requires ClaimsWait(log)
    requires entry.Claimed? ==> forall i :: 0 <= i < |log| && Writes(log[i]) ==> log[i].at + TTL <= entry.at
    ensures ClaimsWait(log + [entry])
  {
  }

  lemma SavesStay(log: seq<Entry>, entry: Entry)
    requires SavesSound(log)
    requires entry.Saved? ==> exists c, i :: 0 <= c < |log| && 0 <= i < |log| && RunOf(log, c, i, entry.response)
                                             && log[c].who == entry.who
    ensures SavesSound(log + [entry])
  {
    var log' := log + [entry];
    forall j | 0 <= j < |log'| && log'[j].Saved?
      ensures exists c, i ::
        0 <= c < j && 0 <= i < j && RunOf(log', c, i, log'[j].response) && log'[c].who == log'[j].who
    {
      var c, i :| 0 <= c < j && 0 <= i < j && RunOf(log, c, i, log'[j].response) && log[c].who == log'[j].who;
      assert RunOf(log', c, i, log'[j].response);
    }
  }

  lemma ReplaysStay(log: seq<Entry>, entry: Entry)
    requires ReplaysSound(log) && !entry.Garbled?
    requires entry.Replayed? ==> exists l :: 0 <= l < |log| && Shows(log + [entry], l, |log|)
    ensures ReplaysSound(log + [entry])
  {
    var log' := log + [entry];
    forall j | 0 <= j < |log| && log[j].Replayed? ensures exists l :: 0 <= l < j && Shows(log', l, j) {
      var l :| 0 <= l < j && Shows(log, l, j);
      assert Shows(log', l, j);
    }
  }

  /** Appending a replay that shows the last save, or a refusal. */
  lemma NoteKeeps(s: State, entry: Entry)
    requires Sound(s, entry.at) && (entry.Replayed? || entry.Refused?)
    requires entry.Replayed? ==> exists l :: 0 <= l < |s.log| && Shows(s.log + [entry], l, |s.log|)
    ensures Sound(Note(s, entry), entry.at)
  {
    hide Encode, Decode, Sanitised, Successful, SavesSound, ReplaysSound, CellIsLastWrite, Shows, InOrder, NoneAfter,
         ClaimsWait;
    OrderStays(s.log, entry);
    WaitStays(s.log, entry);
    CellStays(s.cell, s.log, entry);
    SavesStay(s.log, entry);
    ReplaysStay(s.log, entry);
  }

  /** The answer to a first lookup after a last write: while its retention lasts, it decides. */
  function AnsweredBy(s: State, who: Client, now: Time, last: Entry): State {
    if now >= last.at + TTL then Move(s, who, Missed)
    else
      Note(Move(s, who, Finished),
           if last.Saved? then Replayed(who, now, last.response) else Refused(who, now))
  }

  /**
    What a first lookup answers: the last write while its retention lasts, a claim by a refusal
    and a save by a replay of what it stored; after that, or before any write, nothing.
   */
  lemma GetAnswers(s: State, who: Client, now: Time)
    requires Sound(s, now) && who !in s.phases
    ensures s.cell.None? ==> Step(s, Event(who, now, Get)) == Move(s, who, Missed)
    ensures s.cell.Some? ==>
      exists l :: 0 <= l < |s.log| && LastWrite(s.log, l, |s.log|) &&
                  Step(s, Event(who, now, Get)) == AnsweredBy(s, who, now, s.log[l])
  {
    hide Encode, PhasesSound, ReplaysSound, SavesSound, OnceEach, ClaimsWait, AnsweredBy, Step, NoneAfter;
    if s.cell.Some? {
      var l :| 0 <= l < |s.log| && LastWrite(s.log, l, |s.log|) && s.cell.value == Written(s.log[l]);
      LastWriteAnswers(s, who, now, l);
    } else {
      NoWriteAnswers(s, who, now);
    }
  }

  lemma NoWriteAnswers(s: State, who: Client, now: Time)
    requires s.cell.None? && who !in s.phases
    ensures Step(s, Event(who, now, Get)) == Move(s, who, Missed)
  {
  }

  lemma LastWriteAnswers(s: State, who: Client, now: Time, l: int)
    requires LastWrite(s.log, l, |s.log|) && s.cell == Some(Written(s.log[l])) && who !in s.phases
    ensures Step(s, Event(who, now, Get)) == AnsweredBy(s, who, now, s.log[l])
  {
    hide Encode, Decode, Sanitised;
    if s.log[l].Saved? {
      DecodeEncode(s.log[l].response);
      PayloadIsNotMarker(s.log[l].response);
    }
  }

  lemma GetKeeps(s: State, e: Event)
    requires e.op.Get? && Sound(s, e.at)
    ensures Sound(Step(s, e), e.at)
  {
    hide Sound, Step, AnsweredBy, LastWrite;
    if e.who in s.phases {
      NothingMoves(s, e);
    } else {
      GetAnswers(s, e.who, e.at);
      MoveKeeps(s, e.who, e.at);
      if s.cell.Some? {
        var l :| 0 <= l < |s.log| && LastWrite(s.log, l, |s.log|) && Step(s, e) == AnsweredBy(s, e.who, e.at, s.log[l]);
        AnswerKeeps(s, e.who, e.at, l);
      }
    }
  }

  lemma NothingMoves(s: State, e: Event)
    requires e.op.Get? && e.who in s.phases
    ensures Step(s, e) == s
  {
  }

  lemma AnswerKeeps(s: State, who: Client, now: Time, l: int)
    requires LastWrite(s.log, l, |s.log|)
    requires Sound(Move(s, who, Finished), now) && Sound(Move(s, who, Missed), now)
    ensures Sound(AnsweredBy(s, who, now, s.log[l]), now)
  {
    hide Sound;
    var moved, last := Move(s, who, Finished), s.log[l];
    if now < last.at + TTL {
      if last.Saved? {
        assert Shows(s.log + [Replayed(who, now, last.response)], l, |s.log|);
        NoteKeeps(moved, Replayed(who, now, last.response));
      } else {
        NoteKeeps(moved, Refused(who, now));
      }
    }
  }

  lemma ClaimOnce(s: State, who: Client, now: Time)
    requires OnceEach(s.phases, s.log) && PhasesSound(s.phases, s.log) && who in s.phases && s.phases[who].Missed?
    ensures
      var phases, log := s.phases[who := Running(|s.log|)], s.log + [Entry.Claimed(who, now)];
      OnceEach(phases, log) && PhasesSound(phases, log)
  {
    hide Successful;
  }

  lemma SetNXKeeps(s: State, e: Event)
    requires e.op.SetNX? && Sound(s, e.at)
    ensures Sound(Step(s, e), e.at)
  {
    hide Shows, SavesSound, ReplaysSound, CellIsLastWrite, RunOf, InOrder, NoneAfter, ClaimsWait, OnceEach, PhasesSound;
    if e.who in s.phases && s.phases[e.who].Missed? {
      if Live(s, e.at).Some? {
        MoveKeeps(s, e.who, e.at);
        NoteKeeps(Move(s, e.who, Finished), Refused(e.who, e.at));
      } else {
        var entry := Entry.Claimed(e.who, e.at);
        DeadCell(s, e.at);
        OrderStays(s.log, entry);
        WaitStays(s.log, entry);
        ClaimOnce(s, e.who, e.at);
        SavesStay(s.log, entry);
        ReplaysStay(s.log, entry);
        CellRewritten(s.log, entry);
      }
    }
  }

  /** When the cell has lapsed, every write is a full retention back. */
  lemma DeadCell(s: State, now: Time)
    requires Sound(s, now) && Live(s, now).None?
    ensures forall i :: 0 <= i < |s.log| && Writes(s.log[i]) ==> s.log[i].at + TTL <= now
  {
    hide PhasesSound, ReplaysSound, SavesSound, OnceEach, ClaimsWait, Encode;
    if s.cell.Some? {
      var l :| 0 <= l < |s.log| && LastWrite(s.log, l, |s.log|) && s.cell.value == Written(s.log[l]);
      assert forall i :: 0 <= i < |s.log| && Writes(s.log[i]) ==> i <= l;
    }
  }

  lemma FinishOnce(s: State, who: Client, phase: Phase, entry: Entry)
    requires OnceEach(s.phases, s.log) && who in s.phases && s.phases[who].Running? && entry.Ended? && entry.who == who
    requires phase.Saving? || phase.Finished?
    ensures OnceEach(s.phases[who := phase], s.log + [entry])
  {
  }

  lemma SaveOnce(s: State, who: Client, entry: Entry)
    requires OnceEach(s.phases, s.log) && who in s.phases && s.phases[who].Saving? && entry.Saved?
    ensures OnceEach(s.phases[who := Finished], s.log + [entry])
  {
  }

  lemma FinishPhases(s: State, who: Client, r: W.Recording, now: Time)
    requires PhasesSound(s.phases, s.log) && who in s.phases && s.phases[who].Running?
    ensures
      var phase := if Successful(r.status) then Saving(s.phases[who].claim, |s.log|, r) else Finished;
      PhasesSound(s.phases[who := phase], s.log + [Ended(who, now, r)])
  {
    hide Successful;
  }

  lemma FinishedPhases(s: State, who: Client, entry: Entry)
    requires PhasesSound(s.phases, s.log)
    ensures PhasesSound(s.phases[who := Finished], s.log + [entry])
  {
    hide Successful;
  }

  lemma FinishKeeps(s: State, e: Event)
    requires e.op.Finish? && Sound(s, e.at)
    ensures Sound(Step(s, e), e.at)
  {
    hide Shows, Successful, SavesSound, ReplaysSound, CellIsLastWrite, InOrder, NoneAfter, ClaimsWait, OnceEach,
         PhasesSound;
    if e.who in s.phases && s.phases[e.who].Running? {
      var r := e.op.response;
      var entry := Ended(e.who, e.at, r);
      OrderStays(s.log, entry);
      WaitStays(s.log, entry);
      CellStays(s.cell, s.log, entry);
      SavesStay(s.log, entry);
      ReplaysStay(s.log, entry);
      FinishOnce(s, e.who, if Successful(r.status) then Saving(s.phases[e.who].claim, |s.log|, r) else Finished, entry);
      FinishPhases(s, e.who, r, e.at);
    }
  }

  lemma SaveIsOwn(s: State, who: Client)
    requires PhasesSound(s.phases, s.log) && who in s.phases && s.phases[who].Saving?
    ensures
      var p := s.phases[who];
      0 <= p.claim < p.ended < |s.log| && RunOf(s.log, p.claim, p.ended, p.response) && s.log[p.claim].who == who
  {
  }

  lemma SaveKeeps(s: State, e: Event)
    requires e.op.Save? && Sound(s, e.at)
    ensures Sound(Step(s, e), e.at)
  {
    hide Encode, Shows, SavesSound, ReplaysSound, CellIsLastWrite, InOrder, NoneAfter, ClaimsWait, OnceEach,
         PhasesSound, RunOf;
    if e.who in s.phases && s.phases[e.who].Saving? {
      var entry := Saved(e.who, e.at, s.phases[e.who].response);
      SaveIsOwn(s, e.who);
      OrderStays(s.log, entry);
      WaitStays(s.log, entry);
      SavesStay(s.log, entry);
      ReplaysStay(s.log, entry);
      SaveOnce(s, e.who, entry);
      FinishedPhases(s, e.who, entry);
      CellRewritten(s.log, entry);
    }
  }

  lemma StepKeeps(s: State, e: Event, before: Time)
    requires Sound(s, before) && before <= e.at
    ensures Sound(Step(s, e), e.at)
  {
    hide Sound;
    Later(s, before, e.at);
    match e.op
    case Get => GetKeeps(s, e);
    case SetNX => SetNXKeeps(s, e);
    case Finish(_) => FinishKeeps(s, e);
    case Save => SaveKeeps(s, e);
    case Vanish => MoveKeeps(s, e.who, e.at);
  }

  lemma {:induction false} RunSound(es: seq<Event>, now: Time)
    requires Ordered(es) && forall i :: 0 <= i < |es| ==> es[i].at <= now
    ensures Sound(Run(es), now)
  {
    hide Step;
    if es != [] {
      var k := |es| - 1;
      hide Sound;
      RunSound(es[..k], es[k].at);
      StepKeeps(Run(es[..k]), es[k], es[k].at);
      Later(Run(es), es[k].at, now);
    }
  }

  function End(es: seq<Event>): Time {
    if es == [] then 0 else es[|es| - 1].at
  }

  /**
    While the key has not expired the handler runs at most once: in any interleaving of any
    number of requests, a claim comes a full retention or more after every earlier claim and
    after every earlier save, which renews the key. No stored text is ever misread.
   */
  lemma RunsWaitForExpiry(es: seq<Event>, i: nat, j: nat)
    requires Ordered(es) && i < j < |Run(es).log| && Run(es).log[j].Claimed?
    requires Run(es).log[i].Claimed? || Run(es).log[i].Saved?
    ensures Run(es).log[i].at + TTL <= Run(es).log[j].at
    ensures forall k :: 0 <= k < |Run(es).log| ==> !Run(es).log[k].Garbled?
  {
    hide Run;
    RunSound(es, End(es));
  }

  /** Every replay shows the last save, which stored the response of a successful run of its own. */
  lemma ReplayShowsTheSave(es: seq<Event>, j: nat)
    requires Ordered(es) && j < |Run(es).log| && Run(es).log[j].Replayed?
    ensures
      var log := Run(es).log;
      exists c, i, l :: 0 <= c < l && 0 <= i < l && 0 <= l < j &&
        Shows(log, l, j) && RunOf(log, c, i, log[l].response) && log[c].who == log[l].who
  {
    hide Run, RunOf, Shows;
    RunSound(es, End(es));
    var log := Run(es).log;
    var l :| 0 <= l < j && Shows(log, l, j);
    ShowsASave(log, l, j);
    var c, i :| 0 <= c < l && 0 <= i < l && RunOf(log, c, i, log[l].response) && log[c].who == log[l].who;
  }

  lemma ShowsASave(log: seq<Entry>, l: int, j: int)
    requires Shows(log, l, j)
    ensures 0 <= l < |log| && log[l].Saved?
  {
  }

  // ----- saves by the claim in force

  /** No claim comes between the one at c and position j. */
  predicate InForce(log: seq<Entry>, c: int, j: int) {
    0 <= c < j <= |log| && log[c].Claimed? && forall m :: c < m < j ==> !log[m].Claimed?
  }

  /** When a request saves, no other has claimed the key since it did. */
  predicate Unsuperseded(s: State, e: Event) {
    e.op.Save? && e.who in s.phases && s.phases[e.who].Saving? ==> InForce(s.log, s.phases[e.who].claim, |s.log|)
  }

  predicate NeverSuperseded(es: seq<Event>) {
    forall n :: 0 <= n < |es| ==> Unsuperseded(Run(es[..n]), es[n])
  }

  /** Every save in the log was made by the claim then in force. */
  predicate SavesInForce(log: seq<Entry>) {
    forall j :: 0 <= j < |log| && log[j].Saved? ==>
      exists c :: 0 <= c < j && InForce(log, c, j) && log[c].who == log[j].who
  }

  lemma InForceStays(log: seq<Entry>, entry: Entry, c: int, j: int)
    requires 0 <= j <= |log|
    ensures InForce(log + [entry], c, j) == InForce(log, c, j)
  {
    var log' := log + [entry];
    assert forall m :: 0 <= m < |log| ==> log'[m] == log[m];
  }

  /** The entry is no save, or a save by the claim in force. */
  predicate SavesRightly(log: seq<Entry>, entry: Entry) {
    entry.Saved? ==> exists c :: 0 <= c < |log| && InForce(log, c, |log|) && log[c].who == entry.who
  }

  lemma SavesInForceGrow(log: seq<Entry>, entry: Entry)
    requires SavesInForce(log) && SavesRightly(log, entry)
    ensures SavesInForce(log + [entry])
  {
    hide InForce;
    var log' := log + [entry];
    forall j | 0 <= j < |log'| && log'[j].Saved?
      ensures exists c :: 0 <= c < j && InForce(log', c, j) && log'[c].who == log'[j].who
    {
      var c :| 0 <= c < j && InForce(log, c, j) && log[c].who == log'[j].who;
      InForceStays(log, entry, c, j);
    }
  }

  lemma SavesInForceShrink(log: seq<Entry>, entry: Entry)
    requires SavesInForce(log + [entry])
    ensures SavesInForce(log) && SavesRightly(log, entry)
  {
    hide InForce;
    var log' := log + [entry];
    forall j | 0 <= j < |log'| && log'[j].Saved?
      ensures exists c :: 0 <= c < j && InForce(log, c, j) && log[c].who == log'[j].who
    {
      var c :| 0 <= c < j && InForce(log', c, j) && log'[c].who == log'[j].who;
      InForceStays(log, entry, c, j);
    }
    if entry.Saved? {
      assert log'[|log|].Saved?;
    }
    assert forall j :: 0 <= j < |log| ==> log'[j] == log[j];
  }

  lemma SaveIsRightIff(s: State, e: Event)
    requires Sound(s, e.at) && e.op.Save? && e.who in s.phases && s.phases[e.who].Saving?
    ensures Step(s, e).log == s.log + [Saved(e.who, e.at, s.phases[e.who].response)]
    ensures SavesRightly(s.log, Saved(e.who, e.at, s.phases[e.who].response)) <==> Unsuperseded(s, e)
  {
    hide CellIsLastWrite, ReplaysSound, SavesSound, ClaimsWait, InOrder, NoneAfter, Encode, Successful;
    var claim := s.phases[e.who].claim;
    assert 0 <= claim < |s.log| && s.log[claim].Claimed? && s.log[claim].who == e.who;
  }

  lemma StepInForceIff(s: State, e: Event)
    requires Sound(s, e.at)
    ensures SavesInForce(Step(s, e).log) <==> SavesInForce(s.log) && Unsuperseded(s, e)
  {
    hide Sound, SavesInForce, Encode, Meaning, InForce, SavesRightly, Successful;
    var log := Step(s, e).log;
    if e.op.Save? && e.who in s.phases && s.phases[e.who].Saving? {
      SaveIsRightIff(s, e);
    }
    if log != s.log {
      var entry := log[|s.log|];
      assert log == s.log + [entry];
      if !entry.Saved? {
        NoSaveIsRight(s.log, entry);
      }
      if SavesInForce(log) {
        SavesInForceShrink(s.log, entry);
      } else if SavesInForce(s.log) && SavesRightly(s.log, entry) {
        SavesInForceGrow(s.log, entry);
      }
    }
  }

  lemma NoSaveIsRight(log: seq<Entry>, entry: Entry)
    requires !entry.Saved?
    ensures SavesRightly(log, entry)
  {
  }

  /** Over whole runs the two conditions are one: what is saved, and by whom. */
  lemma {:induction false} NeverSupersededIff(es: seq<Event>)
    requires Ordered(es)
    ensures NeverSuperseded(es) <==> SavesInForce(Run(es).log)
  {
    hide Step, Sound, Unsuperseded, SavesInForce, NeverSuperseded;
    if es == [] {
      NothingSaved();
    } else {
      var k := |es| - 1;
      NeverSupersededIff(es[..k]);
      NeverSupersededStep(es);
      RunSound(es[..k], es[k].at);
      StepInForceIff(Run(es[..k]), es[k]);
    }
  }

  lemma NeverSupersededStep(es: seq<Event>)
    requires es != []
    ensures
      var k := |es| - 1;
      NeverSuperseded(es) <==> NeverSuperseded(es[..k]) && Unsuperseded(Run(es[..k]), es[k])
  {
    hide Run, Unsuperseded;
    var k := |es| - 1;
    assert forall n :: 0 <= n < k ==> es[..k][..n] == es[..n] && es[..k][n] == es[n];
  }

  lemma NothingSaved()
    ensures SavesInForce(START.log) && NeverSuperseded([])
  {
  }

  /** The response is saved less than a retention after the key was claimed. */
  predicate InTime(s: State, e: Event) {
    e.op.Save? && e.who in s.phases && s.phases[e.who].Saving? && s.phases[e.who].claim < |s.log| ==>
      e.at < s.log[s.phases[e.who].claim].at + TTL
  }

  predicate Timely(es: seq<Event>) {
    forall n :: 0 <= n < |es| ==> InTime(Run(es[..n]), es[n])
  }

  /** Runs shorter than a retention are never superseded. */
  lemma TimelyIsNeverSuperseded(es: seq<Event>)
    requires Ordered(es) && Timely(es)
    ensures NeverSuperseded(es)
  {
    hide Run, Sound, InTime, Unsuperseded;
    forall n | 0 <= n < |es| ensures Unsuperseded(Run(es[..n]), es[n]) {
      RunSound(es[..n], es[n].at);
      InTimeIsUnsuperseded(Run(es[..n]), es[n]);
    }
  }

  lemma InTimeIsUnsuperseded(s: State, e: Event)
    requires Sound(s, e.at) && InTime(s, e)
    ensures Unsuperseded(s, e)
  {
    hide CellIsLastWrite, ReplaysSound, SavesSound, OnceEach, Encode, Successful;
  }

  // ----- what follows

  /** The replay at j shows the response of the successful run of the claim c in force there. */
  predicate ShowsRun(log: seq<Entry>, c: int, i: int, j: int) {
    && InForce(log, c, j) && c < i < j < |log| && log[i].Ended? && log[i].who == log[c].who
    && Successful(log[i].response.status) && log[j].Replayed? && log[j].shown == log[i].response
  }

  /**
    As long as no save is superseded, each replay is the response of the one successful run of
    the claim in force, status and body.
   */
  lemma ReplayIsTheRun(es: seq<Event>, j: nat)
    requires Ordered(es) && NeverSuperseded(es) && j < |Run(es).log| && Run(es).log[j].Replayed?
    ensures exists c, i :: 0 <= c < j && 0 <= i < j && ShowsRun(Run(es).log, c, i, j)
  {
    hide Run, NeverSuperseded, Sound, SavesInForce, ShowsRun;
    NeverSupersededIff(es);
    RunSound(es, End(es));
    ReplayOfRun(Run(es), j, End(es));
  }

  lemma ReplayOfRun(s: State, j: nat, now: Time)
    requires Sound(s, now) && SavesInForce(s.log) && j < |s.log| && s.log[j].Replayed?
    ensures exists c, i :: 0 <= c < j && 0 <= i < j && ShowsRun(s.log, c, i, j)
  {
    hide CellIsLastWrite, PhasesSound, ClaimsWait, InOrder, NoneAfter, SavesInForce, ShowsRun, OnceEach, RunOf, Shows,
         LastWrite;
    var l :| 0 <= l < j && Shows(s.log, l, j);
    ShowsASave(s.log, l, j);
    var c, i :| 0 <= c < l && 0 <= i < l && RunOf(s.log, c, i, s.log[l].response) && s.log[c].who == s.log[l].who;
    ShownIsInForce(s, c, i, l, j);
  }

  lemma ShownIsInForce(s: State, c: int, i: int, l: int, j: int)
    requires SavesInForce(s.log) && OnceEach(s.phases, s.log)
    requires Shows(s.log, l, j) && RunOf(s.log, c, i, s.log[l].response)
    requires s.log[c].who == s.log[l].who && c < l && i < l && j < |s.log|
    ensures ShowsRun(s.log, c, i, j)
  {
    hide Successful, OnceEach, InForce, LastWrite;
    var c' :| 0 <= c' < l && InForce(s.log, c', l) && s.log[c'].who == s.log[l].who;
    hide SavesInForce;
    IsClaim(s.log, c', l);
    SameClaim(s, c, c');
    InForceBeyond(s.log, c, l, j);
  }

  lemma IsClaim(log: seq<Entry>, c: int, j: int)
    requires InForce(log, c, j)
    ensures 0 <= c < |log| && log[c].Claimed?
  {
  }

  /** With no write in between, the claim in force at a save still is. */
  lemma InForceBeyond(log: seq<Entry>, c: int, l: int, j: int)
    requires InForce(log, c, l) && LastWrite(log, l, j) && log[l].Saved?
    ensures InForce(log, c, j)
  {
  }

  /** A request claims once. */
  lemma SameClaim(s: State, c: int, c': int)
    requires OnceEach(s.phases, s.log) && 0 <= c < |s.log| && 0 <= c' < |s.log|
    requires s.log[c].Claimed? && s.log[c'].Claimed? && s.log[c].who == s.log[c'].who
    ensures c == c'
  {
  }

  /** A request ends once. */
  lemma SameEnd(s: State, i: int, i': int)
    requires OnceEach(s.phases, s.log) && 0 <= i < |s.log| && 0 <= i' < |s.log|
    requires s.log[i].Ended? && s.log[i'].Ended? && s.log[i].who == s.log[i'].who
    ensures i == i'
  {
  }

  /** So between two claims every replay is the same. */
  lemma ReplaysAgree(es: seq<Event>, i: nat, j: nat)
    requires Ordered(es) && NeverSuperseded(es) && i < j < |Run(es).log|
    requires Run(es).log[i].Replayed? && Run(es).log[j].Replayed?
    requires forall m :: i < m < j ==> !Run(es).log[m].Claimed?
    ensures Run(es).log[i].shown == Run(es).log[j].shown
  {
    hide Run, ShowsRun, NeverSuperseded;
    ReplayIsTheRun(es, i);
    ReplayIsTheRun(es, j);
    RunSound(es, End(es));
    var log := Run(es).log;
    var c, e :| 0 <= c < i && 0 <= e < i && ShowsRun(log, c, e, i);
    var c', e' :| 0 <= c' < j && 0 <= e' < j && ShowsRun(log, c', e', j);
    SameRun(Run(es), c, e, i, c', e', j);
  }

  lemma SameRun(s: State, c: int, e: int, i: int, c': int, e': int, j: int)
    requires OnceEach(s.phases, s.log) && 0 <= i < j < |s.log| && ShowsRun(s.log, c, e, i) && ShowsRun(s.log, c', e', j)
    requires !s.log[i].Claimed? && forall m :: i < m < j ==> !s.log[m].Claimed?
    ensures s.log[i].shown == s.log[j].shown
  {
    hide Successful, OnceEach;
    assert c == c';
    SameEnd(s, e, e');
  }

  /**
    A claim holds its key: for a full retention nobody else claims it, and nobody is replayed a
    response unless the claimant itself has ended in success. So a run that fails, or vanishes,
    has every later request refused until then.
   */
  lemma ClaimHoldsTheKey(es: seq<Event>, k: nat, j: nat)
    requires Ordered(es) && NeverSuperseded(es) && k < j < |Run(es).log| && Run(es).log[k].Claimed?
    requires Run(es).log[j].at < Run(es).log[k].at + TTL
    ensures !Run(es).log[j].Claimed? && !Run(es).log[j].Garbled?
    ensures Run(es).log[j].Replayed? ==> exists i :: k < i < j && ShowsRun(Run(es).log, k, i, j)
  {
    hide Run, ShowsRun, NeverSuperseded, Sound, SavesInForce;
    NeverSupersededIff(es);
    RunSound(es, End(es));
    ClaimHolds(Run(es), k, j, End(es));
  }

  lemma ClaimHolds(s: State, k: nat, j: nat, now: Time)
    requires Sound(s, now) && SavesInForce(s.log) && k < j < |s.log| && s.log[k].Claimed?
    requires s.log[j].at < s.log[k].at + TTL
    ensures !s.log[j].Claimed? && !s.log[j].Garbled?
    ensures s.log[j].Replayed? ==> exists i :: k < i < j && ShowsRun(s.log, k, i, j)
  {
    hide CellIsLastWrite, PhasesSound, InOrder, NoneAfter, SavesInForce, ShowsRun, OnceEach, SavesSound;
    if s.log[j].Replayed? {
      ReplayOfRun(s, j, now);
      var c, i :| 0 <= c < j && 0 <= i < j && ShowsRun(s.log, c, i, j);
      OneClaimInForce(s.log, k, c, i, j);
    }
  }

  lemma OneClaimInForce(log: seq<Entry>, k: int, c: int, i: int, j: int)
    requires InOrder(log) && ClaimsWait(log) && 0 <= k < j < |log| && log[k].Claimed?
    requires log[j].at < log[k].at + TTL && ShowsRun(log, c, i, j)
    ensures c == k && k < i
  {
    hide Successful;
  }

  /**
    A save keeps its response for a full retention: until then every first lookup, whoever and
    whenever, is replayed exactly that response, and nobody claims the key.
   */
  lemma SaveIsReplayedForADay(es: seq<Event>, k: nat, who: Client, now: Time)
    requires Ordered(es) && NeverSuperseded(es) && k < |Run(es).log| && Run(es).log[k].Saved?
    requires End(es) <= now < Run(es).log[k].at + TTL && who !in Run(es).phases
    ensures Step(Run(es), Event(who, now, Get)) ==
      Note(Move(Run(es), who, Finished), Replayed(who, now, Run(es).log[k].response))
  {
    hide Run, NeverSuperseded, Step, LastWrite, SavesInForce;
    NeverSupersededIff(es);
    RunSound(es, now);
    var s := Run(es);
    WrittenMeansHeld(s, k);
    GetAnswers(s, who, now);
    var l :| 0 <= l < |s.log| && LastWrite(s.log, l, |s.log|)
      && Step(s, Event(who, now, Get)) == AnsweredBy(s, who, now, s.log[l]);
    LastSaveOfRun(s, k, l, now);
  }

  lemma WrittenMeansHeld(s: State, k: nat)
    requires CellIsLastWrite(s.cell, s.log) && k < |s.log| && Writes(s.log[k])
    ensures s.cell.Some?
  {
  }

  lemma NoClaimSince(log: seq<Entry>, k: nat, l: nat, now: Time)
    requires InOrder(log) && NoneAfter(log, now) && ClaimsWait(log) && LastWrite(log, l, |log|)
    requires k < |log| && log[k].Saved? && now < log[k].at + TTL
    ensures k <= l < |log| && log[l].Saved? && now < log[l].at + TTL && forall m :: k < m < l ==> !log[m].Claimed?
  {
  }

  /** With no claim since, the last write is a save of the same run. */
  lemma LastSaveOfRun(s: State, k: nat, l: nat, now: Time)
    requires Sound(s, now) && SavesInForce(s.log) && LastWrite(s.log, l, |s.log|)
    requires k < |s.log| && s.log[k].Saved? && now < s.log[k].at + TTL
    ensures s.log[l].Saved? && s.log[l].response == s.log[k].response && now < s.log[l].at + TTL
  {
    hide CellIsLastWrite, ReplaysSound, PhasesSound, SavesSound, OnceEach, SavesInForce, ClaimsWait, InOrder, NoneAfter,
         LastWrite, RunOf, InForce;
    NoClaimSince(s.log, k, l, now);
    SaveOfClaimInForce(s, k);
    SaveOfClaimInForce(s, l);
    var c, i :| 0 <= c < k && 0 <= i < k && RunOf(s.log, c, i, s.log[k].response) && InForce(s.log, c, k);
    var c', i' :| 0 <= c' < l && 0 <= i' < l && RunOf(s.log, c', i', s.log[l].response) && InForce(s.log, c', l);
    SameSavedRun(s, c, i, k, c', i', l);
  }

  lemma SaveOfClaimInForce(s: State, k: int)
    requires SavesSound(s.log) && SavesInForce(s.log) && OnceEach(s.phases, s.log)
    requires 0 <= k < |s.log| && s.log[k].Saved?
    ensures exists c, i :: 0 <= c < k && 0 <= i < k && RunOf(s.log, c, i, s.log[k].response) && InForce(s.log, c, k)
  {
    hide Successful, OnceEach;
    var c, i :| 0 <= c < k && 0 <= i < k && RunOf(s.log, c, i, s.log[k].response) && s.log[c].who == s.log[k].who;
    var f :| 0 <= f < k && InForce(s.log, f, k) && s.log[f].who == s.log[k].who;
    SameClaim(s, c, f);
  }

  lemma SameSavedRun(s: State, c: int, i: int, k: int, c': int, i': int, l: int)
    requires OnceEach(s.phases, s.log) && 0 <= k <= l < |s.log| && s.log[k].Saved? && s.log[l].Saved?
    requires RunOf(s.log, c, i, s.log[k].response) && InForce(s.log, c, k)
    requires RunOf(s.log, c', i', s.log[l].response) && InForce(s.log, c', l)
    requires forall m :: k < m < l ==> !s.log[m].Claimed?
    ensures s.log[k].response == s.log[l].response
  {
    hide Successful, OnceEach;
    assert c == c';
    SameEnd(s, i, i');
  }

  /**
    The condition is exact: let one save be superseded, and the next first lookup is shown the
    saver's response although another request's claim is in force.
   */
  lemma SupersededSaveIsShown(es: seq<Event>, e: Event, who: Client)
    requires Ordered(es + [e]) && e.op.Save? && e.who in Run(es).phases && Run(es).phases[e.who].Saving?
    requires !Unsuperseded(Run(es), e) && who !in Run(es).phases && who != e.who
    ensures
      var s := Step(Run(es), e);
      && Step(s, Event(who, e.at, Get)) ==
           Note(Move(s, who, Finished), Replayed(who, e.at, Run(es).phases[e.who].response))
      && exists c :: 0 <= c < |s.log| && InForce(s.log, c, |s.log|) && s.log[c].who != e.who
  {
    hide Run, Encode, Unsuperseded;
    assert Ordered(es) && forall i :: 0 <= i < |es| ==> es[i].at <= e.at by {
      assert forall i :: 0 <= i < |es| ==> (es + [e])[i] == es[i];
      assert (es + [e])[|es|] == e;
    }
    RunSound(es, e.at);
    var s := Run(es);
    AfterSave(s, e, who);
    OtherInForce(s, e);
  }

  lemma AfterSave(s: State, e: Event, who: Client)
    requires e.op.Save? && e.who in s.phases && s.phases[e.who].Saving? && who !in s.phases
    ensures
      var s' := Step(s, e);
      Step(s', Event(who, e.at, Get)) ==
      Note(Move(s', who, Finished), Replayed(who, e.at, s.phases[e.who].response))
  {
    hide Encode, Decode, Sanitised;
    DecodeEncode(s.phases[e.who].response);
    PayloadIsNotMarker(s.phases[e.who].response);
  }

  /** The last claim in a log that has one. */
  lemma {:induction false} SomeClaimInForce(log: seq<Entry>, m: int)
    requires 0 <= m < |log| && log[m].Claimed?
    ensures exists c :: m <= c < |log| && InForce(log, c, |log|)
    decreases |log| - m
  {
    if !InForce(log, m, |log|) {
      var n :| m < n < |log| && log[n].Claimed?;
      SomeClaimInForce(log, n);
    }
  }

  lemma OtherInForce(s: State, e: Event)
    requires Sound(s, e.at) && e.op.Save? && e.who in s.phases && s.phases[e.who].Saving? && !Unsuperseded(s, e)
    ensures exists c :: 0 <= c < |Step(s, e).log| && InForce(Step(s, e).log, c, |Step(s, e).log|)
                        && Step(s, e).log[c].who != e.who
  {
    hide CellIsLastWrite, ReplaysSound, SavesSound, ClaimsWait, InOrder, NoneAfter, Encode, Successful;
    var claim, log := s.phases[e.who].claim, s.log;
    assert log[claim].Claimed? && log[claim].who == e.who;
    var m :| claim < m < |log| && log[m].Claimed?;
    SomeClaimInForce(log, m);
    var c :| m <= c < |log| && InForce(log, c, |log|);
    var log' := Step(s, e).log;
    assert log'[..|log|] == log && |log'| == |log| + 1 && !log'[|log|].Claimed?;
    assert InForce(log', c, |log'|) && log'[c].who != e.who;
  }

  /**
    A run that outlives its claim breaks this: a second request claims and succeeds, the first
    then saves over it, and a retry is shown the stale response.
   */
  lemma OverrunExample()
    ensures
      var mine, other := Response(200, []), Response(201, []);
      var es := [Event(1, 0, Get), Event(1, 0, SetNX), Event(2, TTL, Get), Event(2, TTL, SetNX),
                 Event(2, TTL, Finish(other)), Event(2, TTL, Save),
                 Event(1, TTL, Finish(mine)), Event(1, TTL, Save), Event(3, TTL, Get)];
      Run(es).log == [Entry.Claimed(1, 0), Entry.Claimed(2, TTL), Ended(2, TTL, other), Saved(2, TTL, other),
                      Ended(1, TTL, mine), Saved(1, TTL, mine),
                      Replayed(3, TTL, mine)]
  {
    hide Run, Encode, Decode;
    var mine, other := Response(200, []), Response(201, []);
    DecodeEncode(mine);
    PayloadIsNotMarker(mine);
    SecondClaimSaves(other);
    var c: seq<Event> := [Event(1, 0, Get), Event(1, 0, SetNX), Event(2, TTL, Get), Event(2, TTL, SetNX),
                          Event(2, TTL, Finish(other)), Event(2, TTL, Save)];
    var d := c + [Event(1, TTL, Finish(mine)), Event(1, TTL, Save)];
    TwoSteps(c, Event(1, TTL, Finish(mine)), Event(1, TTL, Save));
    assert Run(d) == State(Some(Cell(Encode(mine), 2 * TTL)), map[1 := Finished, 2 := Finished],
                           [Entry.Claimed(1, 0), Entry.Claimed(2, TTL), Ended(2, TTL, other), Saved(2, TTL, other),
                      Ended(1, TTL, mine), Saved(1, TTL, mine)]);
    OneStep(d, Event(3, TTL, Get));
    assert d + [Event(3, TTL, Get)] ==
      [Event(1, 0, Get), Event(1, 0, SetNX), Event(2, TTL, Get), Event(2, TTL, SetNX),
       Event(2, TTL, Finish(other)), Event(2, TTL, Save),
       Event(1, TTL, Finish(mine)), Event(1, TTL, Save), Event(3, TTL, Get)];
  }

  lemma SecondClaimSaves(other: W.Recording)
    requires other == Response(201, [])
    ensures
      var es := [Event(1, 0, Get), Event(1, 0, SetNX), Event(2, TTL, Get), Event(2, TTL, SetNX),
                 Event(2, TTL, Finish(other)), Event(2, TTL, Save)];
      Run(es) == State(Some(Cell(Encode(other), 2 * TTL)), map[1 := Running(0), 2 := Finished],
                       [Entry.Claimed(1, 0), Entry.Claimed(2, TTL), Ended(2, TTL, other), Saved(2, TTL, other)])
  {
    hide Run, Encode, Decode;
    var a: seq<Event> := [Event(1, 0, Get), Event(1, 0, SetNX)];
    var b: seq<Event> := a + [Event(2, TTL, Get), Event(2, TTL, SetNX)];
    NothingRun();
    TwoSteps([], a[0], a[1]);
    assert a == [] + [a[0], a[1]];
    assert Run(a) == State(Some(Cell(MARKER, TTL)), map[1 := Running(0)], [Entry.Claimed(1, 0)]);
    TwoSteps(a, Event(2, TTL, Get), Event(2, TTL, SetNX));
    TwoSteps(b, Event(2, TTL, Finish(other)), Event(2, TTL, Save));
    assert Run(b) == State(Some(Cell(MARKER, 2 * TTL)), map[1 := Running(0), 2 := Running(1)],
                           [Entry.Claimed(1, 0), Entry.Claimed(2, TTL)]);
    assert b + [Event(2, TTL, Finish(other)), Event(2, TTL, Save)] ==
      [Event(1, 0, Get), Event(1, 0, SetNX), Event(2, TTL, Get), Event(2, TTL, SetNX),
       Event(2, TTL, Finish(other)), Event(2, TTL, Save)];
  }

  lemma NothingRun()
    ensures Run([]) == START
  {
  }

  lemma OneStep(es: seq<Event>, e: Event)
    ensures Run(es + [e]) == Step(Run(es), e)
  {
    assert (es + [e])[..|es|] == es;
  }

  lemma TwoSteps(es: seq<Event>, e: Event, f: Event)
    ensures Run(es + [e, f]) == Step(Step(Run(es), e), f)
  {
    assert es + [e, f] == (es + [e]) + [f];
    OneStep(es, e);
    OneStep(es + [e], f);
  }
}
