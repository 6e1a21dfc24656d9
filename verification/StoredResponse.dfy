/**
  The text kept for replay: a JSON object with a status and a body, as encoding/json writes it
  and reads it back.
 */
module StoredResponse {
  import opened Wrappers
  import opened Strings
  import opened Decimal

  /** A body is read as UTF-8: characters, and bytes that belong to no character. */
  datatype Unit = Rune(c: char) | Stray(b: nat)

  type Body = seq<Unit>

  datatype Response = Response(status: nat, body: Body)

  const REPLACEMENT: char := '\U{FFFD}'

  /** The placeholder kept while a request is in flight. */
  const MARKER: string := "\U{0000}in-flight"

  function HexDigit(d: nat): char
    requires d < 16
  {
    if d < 10 then ('0' as int + d) as char else ('a' as int + (d - 10)) as char
  }

  function HexValue(c: char): Option<nat> {
    if '0' <= c <= '9' then Some(c as int - '0' as int)
    else if 'a' <= c <= 'f' then Some(10 + (c as int - 'a' as int))
    else if 'A' <= c <= 'F' then Some(10 + (c as int - 'A' as int))
    else None
  }

  /** Characters written as `\u` and four hexadecimal digits. */
  predicate Hexed(c: char) {
    (c < ' ' && Mnemonic(c).None?) || c == '<' || c == '>' || c == '&' || c == '\U{2028}' || c == '\U{2029}'
  }

  /** Characters written as a backslash and one letter. */
  function Mnemonic(c: char): Option<char> {
    match c
    case '"' => Some('"')
    case '\\' => Some('\\')
    case '\U{0008}' => Some('b')
    case '\U{000C}' => Some('f')
    case '\n' => Some('n')
    case '\r' => Some('r')
    case '\t' => Some('t')
    case _ => None
  }

  function Hex4(n: nat): (s: string)
    requires n < 0x1_0000
    ensures |s| == 4
  {
    [HexDigit(n / 0x1000), HexDigit(n / 0x100 % 16), HexDigit(n / 16 % 16), HexDigit(n % 16)]
  }

  function Escape(u: Unit): string {
    match u
    case Stray(_) => "\\ufffd"
    case Rune(c) =>
      if Mnemonic(c).Some? then ['\\', Mnemonic(c).value]
      else if Hexed(c) then "\\u" + Hex4(c as int)
      else [c]
  }

  function Quote(body: Body): string {
    if body == [] then "" else Escape(body[0]) + Quote(body[1..])
  }

  /** json.Marshal of the stored response. */
  function Encode(r: Response): string {
    "{\"status\":" + Digits(r.status) + ",\"body\":\"" + Quote(r.body) + "\"}"
  }

  // ----- reading it back

  function Unmnemonic(c: char): Option<char> {
    match c
    case '"' => Some('"')
    case '\\' => Some('\\')
    case '/' => Some('/')
    case 'b' => Some('\U{0008}')
    case 'f' => Some('\U{000C}')
    case 'n' => Some('\n')
    case 'r' => Some('\r')
    case 't' => Some('\t')
    case _ => None
  }

  /** Four hexadecimal digits, when they name a character that is not a surrogate. */
  function ReadHex4(s: string): Option<char>
    requires |s| >= 4
  {
    var a, b, c, d := HexValue(s[0]), HexValue(s[1]), HexValue(s[2]), HexValue(s[3]);
    if a.None? || b.None? || c.None? || d.None? then None
    else
      var n := a.value * 0x1000 + b.value * 0x100 + c.value * 16 + d.value;
      if n < 0xD800 || 0xE000 <= n < 0x1_0000 then Some(n as char) else None
  }

  /** The first character of a quoted string, and how much text it took. */
  function ReadUnit(s: string): (r: Option<(char, nat)>)
    requires s != ""
    ensures r.Some? ==> 0 < r.value.1 <= |s|
  {
    if s[0] < ' ' || s[0] == '"' then None
    else if s[0] != '\\' then Some((s[0], 1))
    else if |s| >= 2 && Unmnemonic(s[1]).Some? then Some((Unmnemonic(s[1]).value, 2))
    else if |s| >= 6 && s[1] == 'u' && ReadHex4(s[2..]).Some? then Some((ReadHex4(s[2..]).value, 6))
    else None
  }

  /** The text up to the closing quote, which must be followed by exactly `}`. */
  function ReadBody(s: string): Option<Body>
    decreases |s|
  {
    if s == "\"}" then Some([])
    else if s == "" then None
    else
      match ReadUnit(s)
      case None => None
      case Some((c, n)) =>
        match ReadBody(s[n..])
        case None => None
        case Some(rest) => Some([Rune(c)] + rest)
  }

  const STATUS_FIELD: string := "{\"status\":"
  const BODY_FIELD: string := ",\"body\":\""

  /** json.Unmarshal of the same layout. */
  function Decode(s: string): Option<Response> {
    if !(STATUS_FIELD <= s) then None
    else
      var rest := s[|STATUS_FIELD|..];
      var n := IndexOf(rest, ',');
      var digits, tail := rest[..n], rest[n..];
      if digits == "" || !AllDigits(digits) || !(BODY_FIELD <= tail) then None
      else
        match ReadBody(tail[|BODY_FIELD|..])
        case None => None
        case Some(body) => Some(Response(Value(digits), body))
  }

  // ----- what comes back

  predicate WellFormed(body: Body) {
    forall i :: 0 <= i < |body| ==> body[i].Rune?
  }

  /** What is left of a body that has been stored: a stray byte becomes U+FFFD. */
  function Sanitised(body: Body): (r: Body)
    ensures |r| == |body| && WellFormed(r)
    ensures r == body <==> WellFormed(body)
  {
    seq(|body|, i requires 0 <= i < |body| => if body[i].Rune? then body[i] else Rune(REPLACEMENT))
  }

  lemma HexDigitRead(d: nat)
    requires d < 16
    ensures HexValue(HexDigit(d)) == Some(d)
  {
  }

  lemma NibblesOf(n: nat)
    ensures n == n / 0x1000 * 0x1000 + n / 0x100 % 16 * 0x100 + n / 16 % 16 * 16 + n % 16
  {
    assert n / 0x1000 == n / 0x100 / 16 && n / 0x100 == n / 16 / 16;
  }

  lemma Hex4Read(c: char, rest: string)
    requires c as int < 0x1_0000
    ensures |Hex4(c as int) + rest| >= 4 && ReadHex4(Hex4(c as int) + rest) == Some(c)
  {
    hide HexDigit, HexValue;
    var n := c as int;
    NibblesOf(n);
    HexDigitRead(n / 0x1000);
    HexDigitRead(n / 0x100 % 16);
    HexDigitRead(n / 16 % 16);
    HexDigitRead(n % 16);
  }

  lemma MnemonicRead(c: char)
    ensures Mnemonic(c).Some? ==> Unmnemonic(Mnemonic(c).value) == Some(c)
  {
  }

  lemma EscapeRead(u: Unit, rest: string)
    ensures
      var s := Escape(u) + rest;
      && Escape(u) != "" && s[0] != '"'
      && ReadUnit(s) == Some((if u.Rune? then u.c else REPLACEMENT, |Escape(u)|))
  {
    hide HexDigit, HexValue, ReadHex4, Hex4;
    var s := Escape(u) + rest;
    match u
    case Stray(_) =>
      assert s[2..] == "fffd" + rest;
      StrayRead(rest);
    case Rune(c) =>
      if Mnemonic(c).Some? {
        MnemonicRead(c);
      } else if Hexed(c) {
        Hex4Read(c, rest);
        assert s[2..] == Hex4(c as int) + rest;
      }
  }

  lemma StrayRead(rest: string)
    ensures ReadHex4("fffd" + rest) == Some(REPLACEMENT)
  {
    assert "fffd" == Hex4(REPLACEMENT as int);
    Hex4Read(REPLACEMENT, rest);
  }

  lemma {:induction false} QuoteRead(body: Body)
    ensures ReadBody(Quote(body) + "\"}") == Some(Sanitised(body))
  {
    hide Escape, ReadUnit, Hex4;
    if body == [] {
      assert Quote(body) + "\"}" == "\"}";
    } else {
      var rest := Quote(body[1..]) + "\"}";
      var s := Quote(body) + "\"}";
      assert s == Escape(body[0]) + rest;
      EscapeRead(body[0], rest);
      assert s[|Escape(body[0])|..] == rest;
      QuoteRead(body[1..]);
      assert Sanitised(body) == [Sanitised(body)[0]] + Sanitised(body[1..]);
    }
  }

  /** The pieces the reader cuts the text into. */
  lemma Cut(digits: string, body: string)
    requires digits != "" && AllDigits(digits)
    ensures
      var s := STATUS_FIELD + digits + BODY_FIELD + body;
      var rest := s[|STATUS_FIELD|..];
      && STATUS_FIELD <= s && IndexOf(rest, ',') == |digits| <= |rest|
      && rest[..|digits|] == digits && rest[|digits|..] == BODY_FIELD + body
  {
    var tail := BODY_FIELD + body;
    var s := STATUS_FIELD + digits + BODY_FIELD + body;
    assert s == STATUS_FIELD + (digits + tail);
    assert s[|STATUS_FIELD|..] == digits + tail;
    IndexOfAfter(digits, ',', tail);
    assert IndexOf(tail, ',') == 0;
  }

  lemma DecodeOf(digits: string, body: string)
    requires digits != "" && AllDigits(digits)
    ensures Decode(STATUS_FIELD + digits + BODY_FIELD + body) ==
      match ReadBody(body) case None => None case Some(units) => Some(Response(Value(digits), units))
  {
    Cut(digits, body);
    hide ReadBody, Value, IndexOf;
    assert (BODY_FIELD + body)[|BODY_FIELD|..] == body;
  }

  /** A response comes back with its status and its body, stray bytes replaced. */
  lemma DecodeEncode(r: Response)
    ensures Decode(Encode(r)) == Some(Response(r.status, Sanitised(r.body)))
  {
    hide Decode, Quote, ReadBody, Digits, Value, Sanitised;
    var digits, body := Digits(r.status), Quote(r.body) + "\"}";
    assert Encode(r) == STATUS_FIELD + digits + BODY_FIELD + body;
    DecodeOf(digits, body);
    QuoteRead(r.body);
    DigitsRead(r.status);
  }

  /** A replay is the original response exactly when the original body was UTF-8. */
  lemma ReplayExactIff(r: Response)
    ensures Decode(Encode(r)) == Some(r) <==> WellFormed(r.body)
  {
    DecodeEncode(r);
  }

  /** No stored response can be taken for the claim marker. */
  lemma PayloadIsNotMarker(r: Response)
    ensures Encode(r) != MARKER
  {
    assert Encode(r)[0] == '{' && MARKER[0] == '\U{0000}';
  }

  /** The text as it stands in Redis, quotes escaped. */
  lemma TextInFull()
    ensures Encode(Response(201, [Rune('{'), Rune('"')]))
         == "{\"status\":" + "201" + ",\"body\":\"" + ("{" + "\\\"") + "\"}"
  {
    QuoteInFull();
    assert Digits(2) == "2" && Digits(20) == "20" && Digits(201) == "201";
    hide Digits, Quote;
  }

  lemma QuoteInFull()
    ensures Quote([Rune('{'), Rune('"')]) == "{" + "\\\""
  {
    var body := [Rune('{'), Rune('"')];
    assert body[1..] == [Rune('"')] && [Rune('"')][1..] == [];
    assert Escape(Rune('"')) == "\\\"" && Escape(Rune('{')) == "{";
    hide Escape;
    assert Quote([]) == "";
    assert Quote([Rune('"')]) == "\\\"" + "";
  }

  /** What could be taken for markup, a line end or a control character in the text. */
  predicate Suspect(c: char) {
    c < ' ' || c == '<' || c == '>' || c == '&' || c == '\U{2028}' || c == '\U{2029}'
  }

  /** Whatever the body, none of that is in the text it is quoted as. */
  lemma {:induction false} QuoteIsPlain(body: Body)
    ensures forall i :: 0 <= i < |Quote(body)| ==> !Suspect(Quote(body)[i])
  {
    if body != [] {
      EscapeIsPlain(body[0]);
      QuoteIsPlain(body[1..]);
      hide Escape, Suspect;
    }
  }

  lemma EscapeIsPlain(u: Unit)
    ensures forall i :: 0 <= i < |Escape(u)| ==> !Suspect(Escape(u)[i])
  {
  }
}
