/**
  Idempotency keys: the store that claims a key and keeps the response, and the middleware
  around one request.
 */
module Idempotency {
  import opened Wrappers
  import opened StoredResponse
  import opened Responses
  import Decimal
  import Keys
  import Strings

  type Time = int

  const TTL: int := 24 * 60 * 60 * 1_000_000_000
  const MAX_KEY: nat := 128

  // ----- the Redis server

  datatype Cell = Cell(value: string, expires: Time)

  type Cells = map<string, Cell>

  predicate Holds(cells: Cells, key: string, now: Time) {
    key in cells && now < cells[key].expires
  }

  function Put(cells: Cells, key: string, value: string, now: Time): Cells {
    cells[key := Cell(value, now + TTL)]
  }

  class Server {
    var cells: Cells

    constructor ()
      ensures cells == map[]
    {
      cells := map[];
    }

    method Get(key: string, now: Time) returns (value: Option<string>)
      ensures value == if Holds(cells, key, now) then Some(cells[key].value) else None
    {
      if key in cells && now < cells[key].expires {
        return Some(cells[key].value);
      }
      return None;
    }

    method SetNX(key: string, value: string, now: Time) returns (done: bool)
      modifies this
      ensures done == !Holds(old(cells), key, now)
      ensures cells == if done then Put(old(cells), key, value, now) else old(cells)
    {
      if key in cells && now < cells[key].expires {
        return false;
      }
      cells := cells[key := Cell(value, now + TTL)];
      return true;
    }

    method Set(key: string, value: string, now: Time)
      modifies this
      ensures cells == Put(old(cells), key, value, now)
    {
      cells := cells[key := Cell(value, now + TTL)];
    }
  }

  // ----- the store

  datatype Found = Claimed | Stored(response: Response) | InFlight | Undecodable

  /** What a value already under the key means. */
  function Meaning(value: string): Found {
    if value == MARKER then InFlight
    else match Decode(value) case Some(r) => Stored(r) case None => Undecodable
  }

  function LookupOn(cells: Cells, actorId: string, key: string, now: Time): (Cells, Found) {
    var cell := Keys.Idempotency(actorId, key);
    if Holds(cells, cell, now) then (cells, Meaning(cells[cell].value)) else (Put(cells, cell, MARKER, now), Claimed)
  }

  function SaveOn(cells: Cells, actorId: string, key: string, r: Response, now: Time): Cells {
    Put(cells, Keys.Idempotency(actorId, key), Encode(r), now)
  }

  class Store {
    const server: Server

    constructor (server: Server)
      ensures this.server == server
    {
      this.server := server;
    }

    method Lookup(actorId: string, key: string, now: Time) returns (found: Found)
      modifies server
      ensures (server.cells, found) == LookupOn(old(server.cells), actorId, key, now)
    {
      var cell := Keys.Idempotency(actorId, key);
      var raw := server.Get(cell, now);
      if raw.Some? {
        if raw.value == MARKER {
          return InFlight;
        }
        var stored := Decode(raw.value);
        if stored.None? {
          return Undecodable;
        }
        return Stored(stored.value);
      }
      var claimed := server.SetNX(cell, MARKER, now);
      if !claimed {
        return InFlight;
      }
      return Claimed;
    }

    method Save(actorId: string, key: string, r: Response, now: Time)
      modifies server
      ensures server.cells == SaveOn(old(server.cells), actorId, key, r, now)
    {
      server.Set(Keys.Idempotency(actorId, key), Encode(r), now);
    }
  }

  // ----- recording a response

  class Recorder {
    var status: nat
    var buf: Body
    var forwarded: seq<Call>

    ghost predicate Valid()
      reads this
    {
      Response(status, buf) == Recorded(forwarded)
    }

    constructor ()
      ensures Valid() && forwarded == []
    {
      status, buf, forwarded := 0, [], [];
    }

    method WriteHeader(code: StatusCode)
      requires Valid()
      modifies this
      ensures Valid() && forwarded == old(forwarded) + [Call.WriteHeader(code)]
    {
      status := code;
      forwarded := forwarded + [Call.WriteHeader(code)];
      assert forwarded[..|forwarded| - 1] == old(forwarded);
    }

    method Write(data: Body)
      requires Valid()
      modifies this
      ensures Valid() && forwarded == old(forwarded) + [Call.Write(data)]
    {
      if status == 0 {
        status := 200;
      }
      buf := buf + data;
      forwarded := forwarded + [Call.Write(data)];
      assert forwarded[..|forwarded| - 1] == old(forwarded);
    }

    /** The header map is the wrapped writer's own; nothing of it is recorded. */
    method SetHeader(name: string, value: string)
      requires Valid()
      modifies this
      ensures Valid() && forwarded == old(forwarded) + [Call.SetHeader(name, value)]
    {
      forwarded := forwarded + [Call.SetHeader(name, value)];
      assert forwarded[..|forwarded| - 1] == old(forwarded);
    }

    method AddHeader(name: string, value: string)
      requires Valid()
      modifies this
      ensures Valid() && forwarded == old(forwarded) + [Call.AddHeader(name, value)]
    {
      forwarded := forwarded + [Call.AddHeader(name, value)];
      assert forwarded[..|forwarded| - 1] == old(forwarded);
    }
  }

  // ----- writing a handler's ending on the recorder

  method WriteOwnHeaders(rec: Recorder, a: Answer)
    requires rec.Valid()
    modifies rec
    ensures rec.Valid() && rec.forwarded == old(rec.forwarded) + OwnCalls(a)
  {
    ghost var before := rec.forwarded;
    for i := 0 to |a.headers|
      invariant rec.Valid() && rec.forwarded == before + HeaderCalls(a.headers[..i])
    {
      var (name, value) := a.headers[i];
      rec.SetHeader(name, value);
      assert HeaderCalls(a.headers[..i + 1]) == HeaderCalls(a.headers[..i]) + [Call.SetHeader(name, value)];
    }
    assert a.headers[..|a.headers|] == a.headers;
    WriteCookies(rec, a.cookies);
  }

  /** A cookie whose text is empty is not set. */
  method WriteCookies(rec: Recorder, cookies: seq<string>)
    requires rec.Valid()
    modifies rec
    ensures rec.Valid() && rec.forwarded == old(rec.forwarded) + CookieCalls(cookies)
  {
    ghost var before := rec.forwarded;
    for i := 0 to |cookies|
      invariant rec.Valid() && rec.forwarded == before + CookieCalls(cookies[..i])
    {
      assert cookies[..i + 1][..i] == cookies[..i];
      if cookies[i] != "" {
        rec.AddHeader(SET_COOKIE, cookies[i]);
      }
    }
    assert cookies[..|cookies|] == cookies;
  }

  /** A JSON body, its headers and its status. */
  method WriteJson(rec: Recorder, status: StatusCode, text: string)
    requires rec.Valid()
    modifies rec
    ensures rec.Valid()
    ensures rec.forwarded ==
      old(rec.forwarded) + JsonHeaders(text) + [Call.WriteHeader(status)] + [Call.Write(Runes(text))]
  {
    rec.SetHeader(CONTENT_TYPE, JSON_TYPE);
    rec.SetHeader(CONTENT_LENGTH, Decimal.Digits(Strings.ByteLength(text)));
    rec.WriteHeader(status);
    rec.Write(Runes(text));
  }

  method WriteAnswer(rec: Recorder, a: Answer) returns (crashed: bool)
    requires rec.Valid() && rec.forwarded == []
    modifies rec
    ensures rec.Valid()
    ensures match Play(Responds(a))
            case Wrote(calls) => !crashed && rec.forwarded == calls
            case Crashed(_) => crashed
  {
    WriteOwnHeaders(rec, a);
    if a.content.Absent? || a.status == 204 {
      if !Sendable(a.status) {
        return true;
      }
      rec.WriteHeader(a.status);
      return false;
    }
    if a.content.Refused? {
      return false;
    }
    if !Sendable(a.status) {
      return true;
    }
    WriteJson(rec, a.status, a.content.text);
    return false;
  }

  method WriteFailure(rec: Recorder, f: Failure) returns (crashed: bool)
    requires rec.Valid() && rec.forwarded == []
    modifies rec
    ensures rec.Valid()
    ensures match Play(Fails(f))
            case Wrote(calls) => !crashed && rec.forwarded == calls
            case Crashed(_) => crashed
  {
    if f.retryAfter > 0 {
      rec.SetHeader(RETRY_AFTER, Decimal.Digits(f.retryAfter));
    }
    if !Sendable(f.status) {
      return true;
    }
    WriteJson(rec, f.status, f.text);
    return false;
  }

  // ----- the middleware

  predicate Successful(status: nat) {
    200 <= status < 300
  }

  datatype Reply = BadKey | Unavailable | Replay(response: Response) | Ran(calls: seq<Call>) | Panicked(abort: bool)

  /** One request that looks up at one moment and, if it ran and succeeded, saves at a later one. */
  function HandleOn(cells: Cells, actorId: string, key: string, e: Ending, looked: Time, saved: Time): (Cells, Reply) {
    if key == "" || Strings.ByteLength(key) > MAX_KEY then (cells, BadKey)
    else
      var (claimed, found) := LookupOn(cells, actorId, key, looked);
      match found
      case InFlight => (cells, Unavailable)
      case Undecodable => (cells, Unavailable)
      case Stored(r) => (cells, Replay(r))
      case Claimed =>
        match Play(e)
        case Crashed(abort) => (claimed, Panicked(abort))
        case Wrote(calls) =>
          var r := Recorded(calls);
          (if Successful(r.status) then SaveOn(claimed, actorId, key, r, saved) else claimed, Ran(calls))
  }

  method Handle(store: Store, actorId: string, key: string, handler: Ending, looked: Time, saved: Time)
    returns (reply: Reply)
    modifies store.server
    ensures (store.server.cells, reply) == HandleOn(old(store.server.cells), actorId, key, handler, looked, saved)
  {
    hide Decode, Encode, Keys.Idempotency, Play, Recorded;
    if key == "" || Strings.ByteLength(key) > MAX_KEY {
      return BadKey;
    }
    var found := store.Lookup(actorId, key, looked);
    match found {
      case InFlight => return Unavailable;
      case Undecodable => return Unavailable;
      case Stored(r) => return Replay(r);
      case Claimed =>
    }
    var rec := new Recorder();
    var crashed, abort := WriteEnding(rec, handler);
    if crashed {
      return Panicked(abort);
    }
    if 200 <= rec.status < 300 {
      store.Save(actorId, key, Response(rec.status, rec.buf), saved);
    }
    return Ran(rec.forwarded);
  }

  /** The handler's result, its error, or its panic. */
  method WriteEnding(rec: Recorder, e: Ending) returns (crashed: bool, abort: bool)
    requires rec.Valid() && rec.forwarded == []
    modifies rec
    ensures rec.Valid()
    ensures match Play(e)
            case Wrote(calls) => !crashed && rec.forwarded == calls
            case Crashed(a) => crashed && abort == a
  {
    match e {
      case Panics(a) => return true, a;
      case Fails(f) => crashed := WriteFailure(rec, f);
      case Responds(a) => crashed := WriteAnswer(rec, a);
    }
    abort := false;
  }

  /** The key was free: this request is the one that runs. */
  predicate Runs(cells: Cells, actorId: string, key: string, looked: Time) {
    key != "" && Strings.ByteLength(key) <= MAX_KEY && !Holds(cells, Keys.Idempotency(actorId, key), looked)
  }

  /**
    A retry within a day of a recorded success runs nothing, changes nothing, and is sent exactly
    the status and body that were sent first.
   */
  lemma RetryReplays(cells: Cells, actorId: string, key: string, e: Ending, looked: Time, saved: Time,
                     again: Ending, retried: Time, resaved: Time)
    requires Runs(cells, actorId, key, looked) && Succeeds(e) && retried < saved + TTL
    ensures
      var (after, first) := HandleOn(cells, actorId, key, e, looked, saved);
      && first == Ran(Play(e).calls) && Sendable(Sent(first.calls).status)
      && HandleOn(after, actorId, key, again, retried, resaved) == (after, Replay(Sent(first.calls)))
      && Sent(ReplayCalls(Sent(first.calls))) == Sent(first.calls)
  {
    hide Decode, Encode, Keys.Idempotency, Sent, Recorded, StatusStands, HeadersSent, Pending, Strings.ByteLength, Play,
         ReplayCalls, Succeeds, Intended;
    SucceedsIff(e);
    PlayedIsIntended(e);
    var r := Recorded(Play(e).calls);
    KeptIsSent(e);
    DecodeEncode(r);
    PayloadIsNotMarker(r);
    ReplayIsStored(r);
  }

  lemma KeptIsSent(e: Ending)
    requires Succeeds(e)
    ensures Recorded(Play(e).calls) == Sent(Play(e).calls) == Intended(e) && Successful(Intended(e).status)
  {
    PlayedIsIntended(e);
    hide Sent, Recorded, StatusStands, HeadersSent, Pending;
  }

  /** An attempt that is no success leaves its claim: every retry for a day is refused, and runs nothing. */
  lemma FailureBlocksRetries(cells: Cells, actorId: string, key: string, e: Ending, looked: Time, saved: Time,
                             again: Ending, retried: Time, resaved: Time)
    requires Runs(cells, actorId, key, looked) && !Succeeds(e) && retried < looked + TTL
    ensures
      var after := HandleOn(cells, actorId, key, e, looked, saved).0;
      HandleOn(after, actorId, key, again, retried, resaved) == (after, Unavailable)
  {
    SucceedsIff(e);
    hide Decode, Encode, Keys.Idempotency, Recorded, Play, Succeeds;
  }

  /**
    A body that cannot be marshalled is no success either, whatever its status: the first client
    gets an empty 200 and every retry for a day is refused.
   */
  lemma UnwrittenBlocksRetries(cells: Cells, actorId: string, key: string, a: Answer, looked: Time, saved: Time,
                               again: Ending, retried: Time, resaved: Time)
    requires Runs(cells, actorId, key, looked) && a.content.Refused? && a.status != 204 && retried < looked + TTL
    ensures
      var (after, first) := HandleOn(cells, actorId, key, Responds(a), looked, saved);
      && first.Ran? && Sent(first.calls) == Response(200, [])
      && HandleOn(after, actorId, key, again, retried, resaved) == (after, Unavailable)
  {
    PlayedIsIntended(Responds(a));
    assert Unwritten(a) && !Succeeds(Responds(a));
    FailureBlocksRetries(cells, actorId, key, Responds(a), looked, saved, again, retried, resaved);
    hide Decode, Encode, Keys.Idempotency, Recorded, Sent, HeadersSent, Pending, StatusStands, Succeeds;
  }

  /** A request touches no other actor's cell, whatever its key. */
  lemma OtherActorsUntouched(cells: Cells, a: string, key: string, e: Ending, looked: Time, saved: Time,
                             b: string, other: string)
    requires Strings.Lacks(Keys.ActorName(a), ':') && Strings.Lacks(Keys.ActorName(b), ':')
    requires Keys.ActorName(a) != Keys.ActorName(b)
    ensures
      var after, cell := HandleOn(cells, a, key, e, looked, saved).0, Keys.Idempotency(b, other);
      (cell in after <==> cell in cells) && (cell in cells ==> after[cell] == cells[cell])
  {
    hide Decode, Encode, Recorded, Play, Keys.Idempotency, Keys.ActorName;
    if Keys.Idempotency(a, key) == Keys.Idempotency(b, other) {
      Keys.ColonFreeActorsApart(a, b, key, other);
    }
  }

  // ----- how long, and how much

  /** What is written under a key is found there for a day, to the nanosecond. */
  lemma HeldForADay(cells: Cells, key: string, value: string, now: Time, at: Time)
    ensures Holds(Put(cells, key, value, now), key, at) <==> at < now + 86_400_000_000_000
    ensures Holds(Put(cells, key, value, now), key, at) ==> Put(cells, key, value, now)[key].value == value
  {
  }

  /** A key is refused unread exactly when it is empty or longer than 128 bytes. */
  lemma BadKeyIff(cells: Cells, actorId: string, key: string, e: Ending, looked: Time, saved: Time)
    ensures
      var (after, reply) := HandleOn(cells, actorId, key, e, looked, saved);
      var bytes := |Strings.Utf8Text(key)|;
      && (reply == BadKey <==> bytes == 0 || bytes > 128)
      && (reply == BadKey ==> after == cells)
  {
    Strings.ByteLengthIs(key);
    hide Decode, Encode, Keys.Idempotency, Play, Recorded;
  }
}
