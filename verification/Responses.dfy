/**
  What a handler returns, what is written of it, and what of that the client receives and a
  recorder on the way remembers.
 */
module Responses {
  import opened Wrappers
  import opened StoredResponse
  import Decimal
  import Strings

  // ----- calls on a response writer

  /** net/http panics on any other code. */
  predicate Sendable(status: int) {
    100 <= status < 1000
  }

  type StatusCode = n: nat | Sendable(n) witness 200

  datatype Call =
    | SetHeader(name: string, value: string)
    | AddHeader(name: string, value: string)
    | WriteHeader(code: StatusCode)
    | Write(data: Body)

  /** What a recorder remembers of the calls made on it. */
  function Recorded(calls: seq<Call>): Response {
    if calls == [] then Response(0, [])
    else
      var before := Recorded(calls[..|calls| - 1]);
      match calls[|calls| - 1]
      case WriteHeader(code) => before.(status := code)
      case Write(data) => Response(if before.status == 0 then 200 else before.status, before.body + data)
      case _ => before
  }

  /** What the calls have put on the wire so far: the first status wins. */
  function Committed(calls: seq<Call>): Response {
    if calls == [] then Response(0, [])
    else
      var before := Committed(calls[..|calls| - 1]);
      match calls[|calls| - 1]
      case WriteHeader(code) => if before.status == 0 then before.(status := code) else before
      case Write(data) => Response(if before.status == 0 then 200 else before.status, before.body + data)
      case _ => before
  }

  /** What the client receives: a handler that sends no status sends an empty 200. */
  function Sent(calls: seq<Call>): Response {
    var r := Committed(calls);
    if r.status == 0 then r.(status := 200) else r
  }

  type Headers = map<string, seq<string>>

  /** The headers set so far. */
  function Pending(calls: seq<Call>): Headers {
    if calls == [] then map[]
    else
      var before := Pending(calls[..|calls| - 1]);
      match calls[|calls| - 1]
      case SetHeader(name, value) => before[name := [value]]
      case AddHeader(name, value) => before[name := (if name in before then before[name] else []) + [value]]
      case _ => before
  }

  /** The headers the client receives: those set before the first status or data. */
  function HeadersSent(calls: seq<Call>): Headers {
    if calls == [] then map[]
    else
      var before := calls[..|calls| - 1];
      if FirstStatus(before).Some? then HeadersSent(before) else Pending(calls)
  }

  /** The last status set. */
  function LastStatus(calls: seq<Call>): Option<StatusCode> {
    if calls == [] then None
    else
      match calls[|calls| - 1]
      case WriteHeader(code) => Some(code)
      case _ => LastStatus(calls[..|calls| - 1])
  }

  /** The status in effect from the first status or data on. */
  function FirstStatus(calls: seq<Call>): Option<StatusCode> {
    if calls == [] then None
    else
      var before := FirstStatus(calls[..|calls| - 1]);
      if before.Some? then before
      else
        match calls[|calls| - 1]
        case WriteHeader(code) => Some(code)
        case Write(_) => Some(200)
        case _ => None
  }

  /** No later call sets another status than the one already sent. */
  predicate StatusStands(calls: seq<Call>) {
    LastStatus(calls).Some? ==> LastStatus(calls) == FirstStatus(calls)
  }

  /** The recorder keeps the last status set, the wire the first; the data is the same. */
  lemma {:induction false} RecordedAndSent(calls: seq<Call>)
    ensures Recorded(calls).body == Committed(calls).body
    ensures Recorded(calls).status == 0 <==> FirstStatus(calls).None?
    ensures Committed(calls).status == if FirstStatus(calls).None? then 0 else FirstStatus(calls).value
    ensures FirstStatus(calls).Some? ==>
      Recorded(calls).status == if LastStatus(calls).Some? then LastStatus(calls).value else 200
    ensures LastStatus(calls).Some? ==> FirstStatus(calls).Some?
    ensures FirstStatus(calls).Some? && LastStatus(calls).None? ==> FirstStatus(calls).value == 200
  {
    if calls != [] {
      RecordedAndSent(calls[..|calls| - 1]);
    }
  }

  /**
    The recording is what the client received exactly when some status was sent and the first
    one stood. With none an empty 200 is sent and no status recorded; of two the first is sent
    and the second recorded.
   */
  lemma RecordsWhatIsSent(calls: seq<Call>)
    ensures Recorded(calls) == Sent(calls) <==> FirstStatus(calls).Some? && StatusStands(calls)
    ensures Recorded(calls).body == Sent(calls).body
  {
    RecordedAndSent(calls);
    hide Recorded, Committed, FirstStatus, LastStatus;
  }

  lemma StatusAfter(before: seq<Call>, code: StatusCode)
    ensures Recorded(before + [WriteHeader(code)]) == Recorded(before).(status := code)
    ensures Committed(before + [WriteHeader(code)]) ==
      if Committed(before).status == 0 then Committed(before).(status := code) else Committed(before)
  {
    var calls := before + [WriteHeader(code)];
    assert calls[..|calls| - 1] == before;
  }

  lemma DataAfter(before: seq<Call>, data: Body)
    requires Recorded(before).status != 0 && Committed(before).status != 0
    ensures Recorded(before + [Write(data)]) == Recorded(before).(body := Recorded(before).body + data)
    ensures Committed(before + [Write(data)]) == Committed(before).(body := Committed(before).body + data)
  {
    var calls := before + [Write(data)];
    assert calls[..|calls| - 1] == before;
  }

  /** Of two statuses the first is on the wire and the second in the recording. */
  lemma FirstStatusWins(none: seq<Call>, first: StatusCode, second: StatusCode, data: Body)
    requires none == []
    ensures
      var calls := none + [WriteHeader(first)] + [WriteHeader(second)] + [Write(data)];
      Sent(calls) == Response(first, data) && Recorded(calls) == Response(second, data)
  {
    assert Sendable(first) && Sendable(second);
    StatusAfter(none, first);
    assert Recorded(none + [WriteHeader(first)]) == Response(first, []);
    StatusAfter(none + [WriteHeader(first)], second);
    DataAfter(none + [WriteHeader(first)] + [WriteHeader(second)], data);
    assert [] + data == data;
  }

  // ----- what a handler returns

  /** A body as a handler gives it: none, a value with its JSON text, or one json.Marshal refuses. */
  datatype Content = Absent | Json(text: string) | Refused

  /** Headers are listed in the order in which the map happens to be walked. */
  datatype Answer = Answer(status: int, content: Content, headers: seq<(string, string)>, cookies: seq<string>)

  const CONTENT_TYPE: string := "Content-Type"
  const CONTENT_LENGTH: string := "Content-Length"
  const SET_COOKIE: string := "Set-Cookie"
  const RETRY_AFTER: string := "Retry-After"
  const LOCATION: string := "Location"
  const REPLAY_MARK: string := "Idempotent-Replay"
  const JSON_TYPE: string := "application/json; charset=utf-8"

  function Ok(content: Content): Answer {
    Answer(200, content, [], [])
  }

  function Created(location: string, content: Content): Answer {
    Answer(201, content, [(LOCATION, location)], [])
  }

  function NoContent(): Answer {
    Answer(204, Absent, [], [])
  }

  /** An error with its envelope as JSON text: only strings are in it, so it always has one. */
  datatype Failure = Failure(status: int, retryAfter: int, text: string)

  datatype Ending = Responds(answer: Answer) | Fails(failure: Failure) | Panics(abort: bool)

  // ----- what is written of it

  /** A status without a body: none was given, or the status has none. */
  predicate Bodiless(a: Answer) {
    a.content.Absent? || a.status == 204
  }

  /** Marshalling is tried and fails, before any status is written. */
  predicate Unwritten(a: Answer) {
    !Bodiless(a) && a.content.Refused?
  }

  function Runes(text: string): (body: Body)
    ensures |body| == |text| && WellFormed(body)
  {
    seq(|text|, i requires 0 <= i < |text| => Rune(text[i]))
  }

  function HeaderCalls(headers: seq<(string, string)>): seq<Call> {
    seq(|headers|, i requires 0 <= i < |headers| => SetHeader(headers[i].0, headers[i].1))
  }

  function CookieCalls(cookies: seq<string>): seq<Call> {
    if cookies == [] then []
    else
      var last := cookies[|cookies| - 1];
      CookieCalls(cookies[..|cookies| - 1]) + if last == "" then [] else [AddHeader(SET_COOKIE, last)]
  }

  function OwnCalls(a: Answer): seq<Call> {
    HeaderCalls(a.headers) + CookieCalls(a.cookies)
  }

  function JsonHeaders(text: string): seq<Call> {
    [SetHeader(CONTENT_TYPE, JSON_TYPE), SetHeader(CONTENT_LENGTH, Decimal.Digits(Strings.ByteLength(text)))]
  }

  function RetryCalls(seconds: int): seq<Call> {
    if seconds > 0 then [SetHeader(RETRY_AFTER, Decimal.Digits(seconds))] else []
  }

  /** The calls a handler's ending makes, or the panic it ends in. */
  datatype Played = Wrote(calls: seq<Call>) | Crashed(abort: bool)

  function Play(e: Ending): Played {
    match e
    case Panics(abort) => Crashed(abort)
    case Responds(a) =>
      if Unwritten(a) then Wrote(OwnCalls(a))
      else if !Sendable(a.status) then Crashed(false)
      else if Bodiless(a) then Wrote(OwnCalls(a) + [WriteHeader(a.status)])
      else Wrote(OwnCalls(a) + JsonHeaders(a.content.text) + [WriteHeader(a.status)] + [Write(Runes(a.content.text))])
    case Fails(f) =>
      if !Sendable(f.status) then Crashed(false)
      else Wrote(RetryCalls(f.retryAfter) + JsonHeaders(f.text) + [WriteHeader(f.status)] + [Write(Runes(f.text))])
  }

  /** What a handler's ending asks to be sent; a body that cannot be marshalled is promised a 500. */
  function Intended(e: Ending): Response
    requires Play(e).Wrote?
  {
    match e
    case Responds(a) =>
      if Unwritten(a) then Response(500, [])
      else Response(a.status, if Bodiless(a) then [] else Runes(a.content.text))
    case Fails(f) => Response(f.status, Runes(f.text))
  }

  /** The ending is a success that can be kept for replay. */
  predicate Succeeds(e: Ending)
    ensures Succeeds(e) ==> Play(e).Wrote?
  {
    match e
    case Responds(a) => 200 <= a.status < 300 && !Unwritten(a)
    case Fails(f) => 200 <= f.status < 300
    case Panics(_) => false
  }

  // ----- what it comes to

  predicate OnlyHeaders(calls: seq<Call>) {
    forall i :: 0 <= i < |calls| ==> calls[i].SetHeader? || calls[i].AddHeader?
  }

  lemma {:induction false} HeadersCommitNothing(calls: seq<Call>)
    requires OnlyHeaders(calls)
    ensures FirstStatus(calls) == None && LastStatus(calls) == None
    ensures Recorded(calls) == Response(0, []) && Committed(calls) == Response(0, [])
    ensures HeadersSent(calls) == Pending(calls)
  {
    if calls != [] {
      HeadersCommitNothing(calls[..|calls| - 1]);
    }
  }

  lemma {:induction false} CookiesAreHeaders(cookies: seq<string>)
    ensures OnlyHeaders(CookieCalls(cookies))
  {
    if cookies != [] {
      CookiesAreHeaders(cookies[..|cookies| - 1]);
    }
  }

  lemma OwnCallsAreHeaders(a: Answer)
    ensures OnlyHeaders(OwnCalls(a))
  {
    CookiesAreHeaders(a.cookies);
  }

  /** One status after the headers: it is what is sent, recorded and left standing. */
  lemma StatusAfterHeaders(before: seq<Call>, code: StatusCode)
    requires OnlyHeaders(before)
    ensures
      var calls := before + [WriteHeader(code)];
      && FirstStatus(calls) == Some(code) && LastStatus(calls) == Some(code)
      && Recorded(calls) == Response(code, []) && HeadersSent(calls) == Pending(before)
  {
    HeadersCommitNothing(before);
    var calls := before + [WriteHeader(code)];
    assert calls[..|calls| - 1] == before;
  }

  lemma DataAfterStatus(before: seq<Call>, code: StatusCode, data: Body)
    requires OnlyHeaders(before)
    ensures
      var calls := before + [WriteHeader(code)] + [Write(data)];
      && FirstStatus(calls) == Some(code) && LastStatus(calls) == Some(code)
      && Recorded(calls) == Response(code, data) && HeadersSent(calls) == Pending(before)
  {
    StatusAfterHeaders(before, code);
    var status := before + [WriteHeader(code)];
    var calls := status + [Write(data)];
    assert calls[..|calls| - 1] == status;
    assert [] + data == data;
  }

  /** The headers a written ending sets, in front of its status. */
  function Preamble(e: Ending): seq<Call> {
    match e
    case Responds(a) => OwnCalls(a) + if Bodiless(a) || Unwritten(a) then [] else JsonHeaders(a.content.text)
    case Fails(f) => RetryCalls(f.retryAfter) + JsonHeaders(f.text)
    case Panics(_) => []
  }

  lemma PreambleIsHeaders(e: Ending)
    ensures OnlyHeaders(Preamble(e))
  {
    if e.Responds? {
      OwnCallsAreHeaders(e.answer);
    }
  }

  predicate Unsent(e: Ending) {
    e.Responds? && Unwritten(e.answer)
  }

  lemma PlayedInOrder(e: Ending)
    requires Play(e).Wrote?
    ensures
      var calls, status := Play(e).calls, Intended(e).status;
      if Unsent(e) then calls == Preamble(e)
      else
        && Sendable(status)
        && (|| (calls == Preamble(e) + [WriteHeader(status)] && Intended(e).body == [])
            || calls == Preamble(e) + [WriteHeader(status)] + [Write(Intended(e).body)])
  {
    hide OwnCalls, JsonHeaders, RetryCalls;
    if e.Responds? {
      assert OwnCalls(e.answer) + [] == OwnCalls(e.answer);
    }
  }

  /**
    Everything a handler can end in, short of a panic, sets at most one status, so it stands;
    what is recorded and sent is what was intended, with the headers set before it. The one
    exception is a body that cannot be marshalled: promised a 500, it is sent an empty 200, and
    no status is recorded.
   */
  lemma PlayedIsIntended(e: Ending)
    requires Play(e).Wrote?
    ensures
      var calls := Play(e).calls;
      && StatusStands(calls) && WellFormed(Recorded(calls).body)
      && HeadersSent(calls) == Pending(Preamble(e))
      && (Sent(calls) == Intended(e) <==> !Unsent(e))
      && (Recorded(calls) == Intended(e) <==> !Unsent(e))
      && (Unsent(e) ==> Sent(calls) == Response(200, []) && Recorded(calls) == Response(0, []))
  {
    var calls, intended := Play(e).calls, Intended(e);
    PlayedInOrder(e);
    PreambleIsHeaders(e);
    IntendedIsText(e);
    hide Play, Preamble, Intended, Recorded, Committed, FirstStatus, LastStatus, HeadersSent;
    if Unsent(e) {
      HeadersCommitNothing(calls);
    } else if calls == Preamble(e) + [WriteHeader(intended.status)] {
      StatusAfterHeaders(Preamble(e), intended.status);
    } else {
      DataAfterStatus(Preamble(e), intended.status, intended.body);
    }
    RecordedAndSent(calls);
  }

  lemma IntendedIsText(e: Ending)
    requires Play(e).Wrote?
    ensures WellFormed(Intended(e).body) && (Unsent(e) ==> Intended(e).status == 500)
  {
  }

  /** What a recorder can hold once a handler has ended: its bodies are JSON text. */
  type Recording = r: Response | WellFormed(r.body) witness Response(0, [])

  /**
    What the client gets for each answer: status and body as given, but no body with a 204; an empty
    200 for a body that cannot be marshalled; and a panic for a status that is none.
   */
  lemma AnswerIsSent(a: Answer)
    ensures
      var played := Play(Responds(a));
      if a.status != 204 && a.content.Refused? then played.Wrote? && Sent(played.calls) == Response(200, [])
      else
        && (played.Wrote? <==> 100 <= a.status <= 999)
        && (played.Wrote? ==>
              Sent(played.calls) ==
              Response(a.status, if a.status == 204 || a.content.Absent? then [] else Runes(a.content.text)))
  {
    if Play(Responds(a)).Wrote? {
      PlayedIsIntended(Responds(a));
    }
    hide Sent, Recorded, HeadersSent, Pending, StatusStands, OwnCalls, JsonHeaders;
  }

  /** The usual answers, as they are sent. */
  lemma UsualAnswers(location: string, text: string)
    ensures Play(Responds(Ok(Json(text)))).Wrote?
    ensures Sent(Play(Responds(Ok(Json(text)))).calls) == Response(200, Runes(text))
    ensures Play(Responds(Created(location, Json(text)))).Wrote?
    ensures Sent(Play(Responds(Created(location, Json(text)))).calls) == Response(201, Runes(text))
    ensures Play(Responds(NoContent())).Wrote? && Sent(Play(Responds(NoContent())).calls) == Response(204, [])
  {
    AnswerIsSent(Ok(Json(text)));
    AnswerIsSent(Created(location, Json(text)));
    AnswerIsSent(NoContent());
    hide Play, Sent;
  }

  /** A response is kept exactly for the endings that succeed. */
  lemma SucceedsIff(e: Ending)
    ensures Succeeds(e) <==> Play(e).Wrote? && 200 <= Recorded(Play(e).calls).status < 300
  {
    if Play(e).Wrote? {
      PlayedIsIntended(e);
    }
    hide Recorded, Sent, StatusStands, Pending, HeadersSent, OwnCalls;
  }

  // ----- what a replay leaves out

  /** What the middleware writes for a stored response. */
  function ReplayCalls(r: Response): seq<Call>
    requires Sendable(r.status)
  {
    [SetHeader(CONTENT_TYPE, JSON_TYPE), SetHeader(REPLAY_MARK, "true")] + [WriteHeader(r.status)] + [Write(r.body)]
  }

  lemma ReplayIsStored(r: Response)
    requires Sendable(r.status)
    ensures Sent(ReplayCalls(r)) == r && Recorded(ReplayCalls(r)) == r && StatusStands(ReplayCalls(r))
    ensures HeadersSent(ReplayCalls(r)) == map[CONTENT_TYPE := [JSON_TYPE], REPLAY_MARK := ["true"]]
  {
    var before := [SetHeader(CONTENT_TYPE, JSON_TYPE), SetHeader(REPLAY_MARK, "true")];
    DataAfterStatus(before, r.status, r.body);
    RecordedAndSent(ReplayCalls(r));
    assert Pending([]) == map[];
    PendingStep([], before[0]);
    PendingStep([before[0]], before[1]);
    assert before == [before[0]] + [before[1]] && [before[0]] == [] + [before[0]];
    hide Recorded, Committed, FirstStatus, LastStatus, HeadersSent, Pending;
  }

  lemma PendingStep(before: seq<Call>, c: Call)
    ensures c.SetHeader? ==> Pending(before + [c]) == Pending(before)[c.name := [c.value]]
    ensures c.AddHeader? ==>
      Pending(before + [c]) ==
      Pending(before)[c.name := (if c.name in Pending(before) then Pending(before)[c.name] else []) + [c.value]]
  {
    assert (before + [c])[..|before + [c]| - 1] == before;
  }

  /** The names of the headers that calls set. */
  function Names(calls: seq<Call>): set<string> {
    set i | 0 <= i < |calls| && (calls[i].SetHeader? || calls[i].AddHeader?) :: calls[i].name
  }

  lemma {:induction false} PendingNames(calls: seq<Call>)
    ensures Pending(calls).Keys == Names(calls)
  {
    if calls != [] {
      var before, last := calls[..|calls| - 1], calls[|calls| - 1];
      PendingNames(before);
      assert calls == before + [last];
      NamesOf(before, [last]);
      assert Names([last]) == if last.SetHeader? || last.AddHeader? then {last.name} else {} by {
        assert last in [last] && [last][0] == last;
      }
    }
  }

  lemma NamesOf(a: seq<Call>, b: seq<Call>)
    ensures Names(a + b) == Names(a) + Names(b)
  {
    forall name | name in Names(b) ensures name in Names(a + b) {
      var i :| 0 <= i < |b| && (b[i].SetHeader? || b[i].AddHeader?) && b[i].name == name;
      assert (a + b)[|a| + i] == b[i];
    }
    forall name | name in Names(a) ensures name in Names(a + b) {
      var i :| 0 <= i < |a| && (a[i].SetHeader? || a[i].AddHeader?) && a[i].name == name;
      assert (a + b)[i] == a[i];
    }
  }

  predicate SetsCookie(cookies: seq<string>) {
    exists i :: 0 <= i < |cookies| && cookies[i] != ""
  }

  lemma {:induction false} CookieNames(cookies: seq<string>)
    ensures Names(CookieCalls(cookies)) == if SetsCookie(cookies) then {SET_COOKIE} else {}
  {
    if cookies != [] {
      var before, last := cookies[..|cookies| - 1], cookies[|cookies| - 1];
      var more: seq<Call> := if last == "" then [] else [AddHeader(SET_COOKIE, last)];
      CookieNames(before);
      assert CookieCalls(cookies) == CookieCalls(before) + more;
      NamesOf(CookieCalls(before), more);
      assert Names(more) == if last == "" then {} else {SET_COOKIE} by {
        assert last != "" ==> more[0].name == SET_COOKIE;
      }
      AnyStep(cookies);
      hide CookieCalls, Names, SetsCookie;
    }
  }

  lemma AnyStep(cookies: seq<string>)
    requires cookies != []
    ensures SetsCookie(cookies) <==> SetsCookie(cookies[..|cookies| - 1]) || cookies[|cookies| - 1] != ""
  {
  }

  /** The value a header is set to last. */
  function LastValue(headers: seq<(string, string)>, name: string): Option<string> {
    if headers == [] then None
    else
      var last := headers[|headers| - 1];
      if last.0 == name then Some(last.1) else LastValue(headers[..|headers| - 1], name)
  }

  lemma {:induction false} HeaderValue(headers: seq<(string, string)>, name: string)
    ensures
      var pending := Pending(HeaderCalls(headers));
      match LastValue(headers, name)
      case None => name !in pending
      case Some(v) => name in pending && pending[name] == [v]
  {
    if headers != [] {
      var before, last := headers[..|headers| - 1], headers[|headers| - 1];
      HeaderValue(before, name);
      assert HeaderCalls(headers) == HeaderCalls(before) + [SetHeader(last.0, last.1)];
      PendingStep(HeaderCalls(before), SetHeader(last.0, last.1));
      hide Pending;
    }
  }

  lemma {:induction false} CookiesTouchNothingElse(before: seq<Call>, cookies: seq<string>, name: string)
    requires name != SET_COOKIE
    ensures
      var was, becomes := Pending(before), Pending(before + CookieCalls(cookies));
      (name in was <==> name in becomes) && (name in was ==> was[name] == becomes[name])
  {
    if cookies == [] {
      assert before + CookieCalls(cookies) == before;
    } else {
      var rest, last := cookies[..|cookies| - 1], cookies[|cookies| - 1];
      CookiesTouchNothingElse(before, rest, name);
      if last == "" {
        assert CookieCalls(cookies) == CookieCalls(rest);
      } else {
        assert before + CookieCalls(cookies) == (before + CookieCalls(rest)) + [AddHeader(SET_COOKIE, last)];
        PendingStep(before + CookieCalls(rest), AddHeader(SET_COOKIE, last));
      }
      hide Pending;
    }
  }

  lemma OwnNames(a: Answer)
    ensures forall name :: name in Names(OwnCalls(a)) <==>
      (exists h :: h in a.headers && h.0 == name) || (SetsCookie(a.cookies) && name == SET_COOKIE)
  {
    NamesOf(HeaderCalls(a.headers), CookieCalls(a.cookies));
    CookieNames(a.cookies);
    hide CookieCalls;
    var calls := HeaderCalls(a.headers);
    forall h | h in a.headers ensures h.0 in Names(calls) {
      var i :| 0 <= i < |a.headers| && a.headers[i] == h;
      assert calls[i].name == h.0;
    }
    forall name | name in Names(calls) ensures exists h :: h in a.headers && h.0 == name {
      var i :| 0 <= i < |calls| && (calls[i].SetHeader? || calls[i].AddHeader?) && calls[i].name == name;
      assert a.headers[i] in a.headers;
    }
  }

  lemma JsonHeadersLast(before: seq<Call>, text: string)
    ensures Pending(before + JsonHeaders(text)) ==
      Pending(before)[CONTENT_TYPE := [JSON_TYPE]]
                     [CONTENT_LENGTH := [Decimal.Digits(Strings.ByteLength(text))]]
  {
    var typed := before + [SetHeader(CONTENT_TYPE, JSON_TYPE)];
    var all := before + JsonHeaders(text);
    assert typed[..|typed| - 1] == before && all[..|all| - 1] == typed;
  }

  /**
    The headers the client first received, and those of its replay. A replay brings back none
    but the content type: the location of a `Created` and every cookie are lost, and a response
    without a body gains a content type.
   */
  lemma ReplayedHeaders(a: Answer)
    requires Succeeds(Responds(a))
    ensures
      var sent, again := HeadersSent(Play(Responds(a)).calls), HeadersSent(ReplayCalls(Intended(Responds(a))));
      && again == map[CONTENT_TYPE := [JSON_TYPE], REPLAY_MARK := ["true"]]
      && (forall name :: name in sent <==>
            || (exists h :: h in a.headers && h.0 == name)
            || (SetsCookie(a.cookies) && name == SET_COOKIE)
            || (!Bodiless(a) && (name == CONTENT_TYPE || name == CONTENT_LENGTH)))
      && (!Bodiless(a) ==> sent[CONTENT_TYPE] == [JSON_TYPE])
  {
    var e := Responds(a);
    PlayedIsIntended(e);
    ReplayIsStored(Intended(e));
    OwnNames(a);
    PendingNames(OwnCalls(a));
    hide Play, HeadersSent, StatusStands, Pending, OwnCalls, Names, Recorded, Sent, ReplayCalls, SetsCookie;
    if !Bodiless(a) {
      JsonHeadersLast(OwnCalls(a), a.content.text);
    } else {
      assert OwnCalls(a) + [] == OwnCalls(a);
    }
  }

  /** The retry of a request that created something is never told where. */
  lemma LocationIsLost(location: string, text: string)
    ensures
      var e := Responds(Created(location, Json(text)));
      && Succeeds(e) && LOCATION in HeadersSent(Play(e).calls)
      && LOCATION !in HeadersSent(ReplayCalls(Intended(e)))
  {
    var a := Created(location, Json(text));
    assert a.headers[0] in a.headers && !Unwritten(a);
    ReplayedHeaders(a);
    hide Play, HeadersSent, ReplayCalls;
  }

  /**
    So the headers come back, length and replay mark aside, exactly when the response sets no
    header or cookie of its own; one without a body must name the content type itself.
   */
  lemma ReplayKeepsHeadersIff(a: Answer)
    requires Succeeds(Responds(a))
    ensures
      var sent, again := HeadersSent(Play(Responds(a)).calls), HeadersSent(ReplayCalls(Intended(Responds(a))));
      sent - {CONTENT_LENGTH} == again - {REPLAY_MARK} <==>
        && !SetsCookie(a.cookies) && (forall h :: h in a.headers ==> h.0 == CONTENT_TYPE || h.0 == CONTENT_LENGTH)
        && (Bodiless(a) ==> LastValue(a.headers, CONTENT_TYPE) == Some(JSON_TYPE))
  {
    ReplayedHeaders(a);
    BodilessType(a);
    var sent, again := HeadersSent(Play(Responds(a)).calls), HeadersSent(ReplayCalls(Intended(Responds(a))));
    hide Play, HeadersSent, Succeeds, ReplayCalls, SetsCookie, Intended, Bodiless, LastValue;
    OnlyTypeIff(sent, again);
    if SetsCookie(a.cookies) {
      assert SET_COOKIE in sent;
    }
    if h :| h in a.headers && h.0 != CONTENT_TYPE && h.0 != CONTENT_LENGTH {
      assert h.0 in sent;
    }
  }

  lemma OnlyTypeIff(sent: Headers, again: Headers)
    requires again == map[CONTENT_TYPE := [JSON_TYPE], REPLAY_MARK := ["true"]]
    ensures sent - {CONTENT_LENGTH} == again - {REPLAY_MARK} <==>
      && CONTENT_TYPE in sent && sent[CONTENT_TYPE] == [JSON_TYPE]
      && forall name :: name in sent ==> name == CONTENT_TYPE || name == CONTENT_LENGTH
  {
    var rest, left := sent - {CONTENT_LENGTH}, again - {REPLAY_MARK};
    assert left == map[CONTENT_TYPE := [JSON_TYPE]];
    assert forall name :: name in rest <==> name in sent && name != CONTENT_LENGTH;
    assert rest == left ==> CONTENT_TYPE in rest;
  }

  lemma BodilessType(a: Answer)
    requires Bodiless(a) ==> Succeeds(Responds(a))
    ensures Bodiless(a) ==>
      var sent := HeadersSent(Play(Responds(a)).calls);
      (CONTENT_TYPE in sent && sent[CONTENT_TYPE] == [JSON_TYPE]) ==
      (LastValue(a.headers, CONTENT_TYPE) == Some(JSON_TYPE))
  {
    if Bodiless(a) {
      PlayedIsIntended(Responds(a));
      HeaderValue(a.headers, CONTENT_TYPE);
      CookiesTouchNothingElse(HeaderCalls(a.headers), a.cookies, CONTENT_TYPE);
      hide Play, HeadersSent, StatusStands, Pending, HeaderCalls, CookieCalls, Recorded, Sent;
      assert OwnCalls(a) + [] == OwnCalls(a);
    }
  }

  // ----- the headers, value by value

  function Given(cookies: seq<string>): seq<string> {
    if cookies == [] then []
    else
      var last := cookies[|cookies| - 1];
      Given(cookies[..|cookies| - 1]) + if last == "" then [] else [last]
  }

  lemma {:induction false} CookiesPend(before: seq<Call>, cookies: seq<string>)
    ensures
      var was, becomes := Pending(before), Pending(before + CookieCalls(cookies));
      var all := (if SET_COOKIE in was then was[SET_COOKIE] else []) + Given(cookies);
      if all == [] && SET_COOKIE !in was then SET_COOKIE !in becomes
      else SET_COOKIE in becomes && becomes[SET_COOKIE] == all
  {
    if cookies == [] {
      assert before + CookieCalls(cookies) == before;
    } else {
      var rest, last := cookies[..|cookies| - 1], cookies[|cookies| - 1];
      CookiesPend(before, rest);
      if last == "" {
        assert CookieCalls(cookies) == CookieCalls(rest);
      } else {
        assert before + CookieCalls(cookies) == (before + CookieCalls(rest)) + [AddHeader(SET_COOKIE, last)];
        PendingStep(before + CookieCalls(rest), AddHeader(SET_COOKIE, last));
      }
      hide Pending;
    }
  }

  /** Every cookie with a text arrives, in order, behind a header of that name if the answer set one. */
  lemma CookiesArrive(a: Answer)
    requires Play(Responds(a)).Wrote? && LastValue(a.headers, SET_COOKIE).None? && Given(a.cookies) != []
    ensures
      var sent := HeadersSent(Play(Responds(a)).calls);
      SET_COOKIE in sent && sent[SET_COOKIE] == Given(a.cookies)
  {
    PlayedIsIntended(Responds(a));
    HeaderValue(a.headers, SET_COOKIE);
    CookiesPend(HeaderCalls(a.headers), a.cookies);
    hide Play, HeadersSent, StatusStands, Pending, HeaderCalls, CookieCalls, Recorded, Sent, LastValue, Given;
    if !Bodiless(a) && !Unwritten(a) {
      JsonHeadersLast(OwnCalls(a), a.content.text);
    } else {
      assert OwnCalls(a) + [] == OwnCalls(a);
    }
  }

  /** Every other header of the answer's own arrives with the value it was given last. */
  lemma HeadersArrive(a: Answer, name: string)
    requires Play(Responds(a)).Wrote? && LastValue(a.headers, name).Some?
    requires name != SET_COOKIE && name != CONTENT_TYPE && name != CONTENT_LENGTH
    ensures
      var sent := HeadersSent(Play(Responds(a)).calls);
      name in sent && sent[name] == [LastValue(a.headers, name).value]
  {
    PlayedIsIntended(Responds(a));
    HeaderValue(a.headers, name);
    CookiesTouchNothingElse(HeaderCalls(a.headers), a.cookies, name);
    hide Play, HeadersSent, StatusStands, Pending, HeaderCalls, CookieCalls, Recorded, Sent, LastValue;
    if !Bodiless(a) && !Unwritten(a) {
      JsonHeadersLast(OwnCalls(a), a.content.text);
    } else {
      assert OwnCalls(a) + [] == OwnCalls(a);
    }
  }

  /** A body goes with its type and its length in bytes. */
  lemma BodyIsDescribed(a: Answer)
    requires Play(Responds(a)).Wrote? && !Bodiless(a) && !Unwritten(a)
    ensures
      var sent := HeadersSent(Play(Responds(a)).calls);
      && CONTENT_TYPE in sent && sent[CONTENT_TYPE] == ["application/json; charset=utf-8"]
      && CONTENT_LENGTH in sent && sent[CONTENT_LENGTH] == [Decimal.Digits(|Strings.Utf8Text(a.content.text)|)]
  {
    PlayedIsIntended(Responds(a));
    Strings.ByteLengthIs(a.content.text);
    JsonHeadersLast(OwnCalls(a), a.content.text);
    hide Play, HeadersSent, StatusStands, Pending, OwnCalls, Recorded, Sent;
  }

  /** An error is sent as JSON, and says when to come back exactly if there is a time to say. */
  lemma FailureHeaders(f: Failure)
    requires Sendable(f.status)
    ensures
      var sent := HeadersSent(Play(Fails(f)).calls);
      && sent.Keys == {CONTENT_TYPE, CONTENT_LENGTH} + (if f.retryAfter > 0 then {RETRY_AFTER} else {})
      && sent[CONTENT_TYPE] == [JSON_TYPE]
      && sent[CONTENT_LENGTH] == [Decimal.Digits(|Strings.Utf8Text(f.text)|)]
      && (f.retryAfter > 0 ==> sent[RETRY_AFTER] == [Decimal.Digits(f.retryAfter)])
  {
    PlayedIsIntended(Fails(f));
    Strings.ByteLengthIs(f.text);
    JsonHeadersLast(RetryCalls(f.retryAfter), f.text);
    assert Pending([]) == map[];
    if f.retryAfter > 0 {
      PendingStep([], SetHeader(RETRY_AFTER, Decimal.Digits(f.retryAfter)));
      assert RetryCalls(f.retryAfter) == [] + [SetHeader(RETRY_AFTER, Decimal.Digits(f.retryAfter))];
    }
    hide Play, HeadersSent, StatusStands, Pending, Recorded, Sent;
  }
}
