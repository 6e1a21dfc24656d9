/** Rupee text: the decimal parser and printer of an amount. */
module MoneyText {
  import opened Wrappers
  import opened Int64
  import opened Money
  import opened Decimal
  import opened Strings

  datatype TextError = Malformed | TooLarge

  /** strconv.ParseInt in base ten: an optional sign, then digits, within int64. */
  function ParseInt(s: string): Option<int64> {
    var digits := if s != "" && (s[0] == '-' || s[0] == '+') then s[1..] else s;
    if digits == "" || !AllDigits(digits) then None
    else
      var v: int := if s[0] == '-' then 0 - Value(digits) else Value(digits);
      if InRange(v) then Some(v) else None
  }

  // ----- the parser

  predicate IsSign(c: char) {
    c == '-' || c == '+'
  }

  function Unsigned(s: string): string {
    if s != "" && IsSign(s[0]) then s[1..] else s
  }

  predicate SaysNegative(s: string) {
    s != "" && s[0] == '-'
  }

  function WholePart(body: string): string {
    var whole := body[..IndexOf(body, '.')];
    if whole == "" then "0" else whole
  }

  function HasPoint(body: string): bool {
    IndexOf(body, '.') < |body|
  }

  function FractionPart(body: string): string {
    if HasPoint(body) then body[IndexOf(body, '.') + 1..] else ""
  }

  /** Rupees and paise combined in int64 arithmetic, with the source's two guards. */
  function Combine(rupees: int64, paise: int64, negative: bool): Result<Paise, TextError> {
    if rupees > MAX / 100 then Failure(TooLarge)
    else
      var wholePaise := Mul(rupees, 100);
      if wholePaise > Wrap(MAX - paise) then Failure(TooLarge)
      else
        var total := Wrap(wholePaise + paise);
        Success(if negative then Neg(total) else total)
  }

  /** The fraction as paise: absent is zero, one character is tenths, two are paise. */
  function FractionPaise(body: string): Option<int64> {
    var frac := FractionPart(body);
    if !HasPoint(body) then Some(0)
    else if |frac| == 1 then ParseInt(frac + "0")
    else if |frac| == 2 then ParseInt(frac)
    else None
  }

  function ParseText(text: string): Result<Paise, TextError> {
    var s := TrimSpace(text);
    var body := Unsigned(s);
    if s == "" then Failure(Malformed)
    else
      match (ParseInt(WholePart(body)), FractionPaise(body))
      case (Some(rupees), Some(paise)) => Combine(rupees, paise, SaysNegative(s))
      case _ => Failure(Malformed)
  }

  method Parse(text: string) returns (r: Result<Paise, TextError>)
    ensures r == ParseText(text)
  {
    hide Combine, ParseInt, TrimSpace, IndexOf;
    var s := TrimSpace(text);
    if s == "" {
      return Failure(Malformed);
    }
    var neg := false;
    match s[0] {
      case '-' => neg, s := true, s[1..];
      case '+' => s := s[1..];
      case _ =>
    }
    var point := IndexOf(s, '.');
    var whole := s[..point];
    if whole == "" {
      whole := "0";
    }
    var rupees := ParseInt(whole);
    if rupees.None? {
      return Failure(Malformed);
    }
    var paise := Some(0 as int64);
    if point < |s| {
      var frac := s[point + 1..];
      if |frac| == 1 {
        frac := frac + "0";
      } else if |frac| != 2 {
        return Failure(Malformed);
      }
      paise := ParseInt(frac);
      if paise.None? {
        return Failure(Malformed);
      }
    }
    r := Combine(rupees.value, paise.value, neg);
  }

  // ----- the printer

  function Rupees(p: Paise): int64 {
    Div(p, 100)
  }

  function Fraction(p: Paise): int64 {
    Abs(TruncMod(p, 100))
  }

  /** `%s%d.%02d`, with abs applied in int64 arithmetic. */
  function Print(p: Paise): string {
    var rupees := if Rupees(p) < 0 then Neg(Rupees(p)) else Rupees(p);
    (if p < 0 then "-" else "") + Digits(Abs(rupees)) + "." + TwoDigits(Fraction(p))
  }

  function TwoDigits(n: int64): string
    requires 0 <= n
  {
    if n < 10 then "0" + Digits(n) else Digits(n)
  }

  lemma RupeesAndFraction(p: Paise)
    ensures Rupees(p) == if p < 0 then -((0 - p) / 100) else p / 100
    ensures 0 <= Fraction(p) < 100
    ensures Abs(p) == 100 * Abs(Rupees(p)) + Fraction(p)
  {
  }

  // ----- reading what is written

  predicate IsSignText(s: string) {
    s == "" || s == "-" || s == "+"
  }

  /** One unsigned digit is tenths; behind a sign it is paise, and a lone sign is nothing. */
  function PaiseOf(sign: string, digits: string): int
    requires AllDigits(digits)
  {
    var n := if sign == "" && |digits| == 1 then Value(digits) * 10 else Value(digits);
    if sign == "-" then 0 - n else n
  }

  /** An outer sign, a sign of the rupees behind it, digits, and a fraction with a sign of its own. */
  datatype Signed = Signed(outer: string, inner: string, whole: string, fraction: Option<(string, string)>) {

    predicate Valid() {
      && IsSignText(outer) && IsSignText(inner) && AllDigits(whole)
      && (inner != "" ==> outer != "" && whole != "")
      && (fraction.Some? ==>
            && IsSignText(fraction.value.0) && AllDigits(fraction.value.1)
            && 1 <= |fraction.value.0 + fraction.value.1| <= 2)
    }

    function Body(): string {
      inner + whole + match fraction case None => "" case Some((sign, digits)) => "." + (sign + digits)
    }

    function Text(): string {
      outer + Body()
    }

    function Rupees(): int
      requires Valid()
    {
      if inner == "-" then 0 - Value(whole) else Value(whole)
    }

    function Paise(): int
      requires Valid()
    {
      match fraction
      case None => 0
      case Some((sign, digits)) => PaiseOf(sign, digits)
    }
  }

  /** 100 * rupees as the source holds it, wrapped. */
  function Hundredfold(rupees: int): int {
    Wrap(100 * rupees)
  }

  /** Rupees within range, the product not above what the guard leaves, in plain arithmetic. */
  predicate Fits(rupees: int, paise: int) {
    && rupees <= MAX / 100
    && if paise >= 0 then Hundredfold(rupees) + paise <= MAX else Hundredfold(rupees) + paise < MIN
  }

  /** The sum before the outer sign; negative paise get by only when the sum wraps. */
  function Summed(rupees: int, paise: int): int {
    if paise >= 0 then Hundredfold(rupees) + paise else Hundredfold(rupees) + paise + MODULUS
  }

  lemma CombineSigned(rupees: int64, paise: int64, negative: bool)
    requires -10 < paise < 100
    ensures
      var sum := Summed(rupees, paise);
      Combine(rupees, paise, negative) ==
        if !Fits(rupees, paise) then Failure(TooLarge)
        else Success(if negative && sum != MIN then 0 - sum else sum)
  {
  }

  lemma ParseIntSigned(sign: string, digits: string)
    requires IsSignText(sign) && AllDigits(digits) && digits != ""
    ensures
      var v := if sign == "-" then 0 - Value(digits) else Value(digits);
      ParseInt(sign + digits) == if InRange(v) then Some(v) else None
  {
    hide Value;
    assert (sign + digits)[|sign|..] == digits;
    assert sign == "" ==> sign + digits == digits && IsDigit(digits[0]);
    assert sign != "" ==> (sign + digits)[0] == sign[0];
  }

  /** Where a text is cut: at the first point after a whole part that has none. */
  lemma CutAtPoint(whole: string, fraction: string)
    requires Lacks(whole, '.')
    ensures IndexOf(whole, '.') == |whole| && IndexOf(whole + "." + fraction, '.') == |whole|
    ensures (whole + "." + fraction)[..|whole|] == whole && (whole + "." + fraction)[|whole| + 1..] == fraction
  {
    IndexOfAfter(whole, '.', "");
    assert whole + "" == whole;
    IndexOfAfter(whole, '.', "." + fraction);
    assert whole + ("." + fraction) == whole + "." + fraction;
  }

  lemma CutSigned(w: Signed)
    requires w.Valid()
    ensures
      var body, whole := w.Body(), w.inner + w.whole;
      && HasPoint(body) == w.fraction.Some?
      && WholePart(body) == (if whole == "" then "0" else whole)
      && FractionPart(body) == (if w.fraction.Some? then w.fraction.value.0 + w.fraction.value.1 else "")
  {
    var whole := w.inner + w.whole;
    assert Lacks(whole, '.');
    hide IndexOf;
    match w.fraction
    case None =>
      CutAtPoint(whole, "");
      assert w.Body() == whole;
    case Some((sign, digits)) =>
      CutAtPoint(whole, sign + digits);
      assert w.Body() == whole + "." + (sign + digits);
  }

  lemma PaiseDigits(f: string)
    requires AllDigits(f) && 1 <= |f| <= 2
    ensures
      var paise := if |f| == 1 then Value(f) * 10 else Value(f);
      ParseInt(if |f| == 1 then f + "0" else f) == Some(paise) && 0 <= paise < 100
  {
    if |f| == 1 {
      ValueOfOne(f[0]);
      assert f == [f[0]];
      ValueOfTwo(f[0], '0');
      assert f + "0" == [f[0], '0'];
    } else {
      ValueOfTwo(f[0], f[1]);
      assert f == [f[0], f[1]];
    }
  }

  lemma PaiseSigned(sign: string, digits: string)
    requires IsSignText(sign) && AllDigits(digits) && 1 <= |sign + digits| <= 2
    ensures
      var paise := PaiseOf(sign, digits);
      && -10 < paise < 100
      && ParseInt(if |sign + digits| == 1 then sign + digits + "0" else sign + digits) == Some(paise)
  {
    if sign == "" {
      assert sign + digits == digits;
      PaiseDigits(digits);
    } else {
      var padded := if digits == "" then "0" else digits;
      assert padded == [padded[0]];
      ValueOfOne(padded[0]);
      ParseIntSigned(sign, padded);
      assert |digits| == 0 ==> sign + digits + "0" == sign + padded;
    }
  }

  lemma FractionOfSigned(w: Signed)
    requires w.Valid()
    ensures FractionPaise(w.Body()) == Some(w.Paise()) && -10 < w.Paise() < 100
  {
    CutSigned(w);
    hide ParseInt, HasPoint, FractionPart, WholePart, AllDigits, IndexOf, Signed.Body, IsSignText, PaiseOf;
    if w.fraction.Some? {
      PaiseSigned(w.fraction.value.0, w.fraction.value.1);
    }
  }

  lemma WholeOfSigned(w: Signed)
    requires w.Valid()
    ensures ParseInt(WholePart(w.Body())) == if InRange(w.Rupees()) then Some(w.Rupees()) else None
  {
    CutSigned(w);
    hide ParseInt, HasPoint, FractionPart, WholePart, IndexOf, Signed.Body;
    ValueOfOne('0');
    if w.whole == "" {
      ParseIntSigned("", "0");
      assert "" + "0" == "0";
    } else {
      ParseIntSigned(w.inner, w.whole);
    }
  }

  lemma UnsignedSigned(w: Signed)
    requires w.Valid() && w.Text() != ""
    ensures Unsigned(w.Text()) == w.Body() && SaysNegative(w.Text()) == (w.outer == "-")
  {
    if w.outer != "" {
      assert w.Text()[1..] == w.Body();
    } else {
      assert w.Text() == w.Body() && w.inner == "";
    }
  }

  lemma EndsOfSigned(w: Signed)
    requires w.Valid() && w.Text() != ""
    ensures NoSpaceAtEnds(w.Text())
  {
    BodyIsPlain(w);
    hide Signed.Body, AllDigits;
    var s := w.Text();
    assert s[0] == if w.outer != "" then w.outer[0] else w.Body()[0];
    assert s[|s| - 1] == if w.Body() != "" then w.Body()[|w.Body()| - 1] else w.outer[0];
  }

  lemma BodyIsPlain(w: Signed)
    requires w.Valid()
    ensures forall i :: 0 <= i < |w.Body()| ==> IsSign(w.Body()[i]) || IsDigit(w.Body()[i]) || w.Body()[i] == '.'
  {
  }

  /** What a signed text comes to. */
  function Meaning(w: Signed): Result<int, TextError>
    requires w.Valid()
  {
    var sum := Summed(w.Rupees(), w.Paise());
    if w.Text() == "" || !InRange(w.Rupees()) then Failure(Malformed)
    else if !Fits(w.Rupees(), w.Paise()) then Failure(TooLarge)
    else Success(if w.outer == "-" && sum != MIN then 0 - sum else sum)
  }

  /** Every signed text, with its refusals and its value, the wrapped sums included. */
  lemma ParsesWhatIsSigned(w: Signed, before: string, after: string)
    requires w.Valid() && AllSpaces(before) && AllSpaces(after)
    ensures
      match Meaning(w)
      case Success(v) => InRange(v) && ParseText(before + w.Text() + after) == Success(v)
      case Failure(e) => ParseText(before + w.Text() + after) == Failure(e)
  {
    var text := before + w.Text() + after;
    if w.Text() == "" {
      assert text == before + after + "";
      TrimLeftPadded(before + after, "");
    } else {
      EndsOfSigned(w);
      TrimPadded(before, w.Text(), after);
      SignedTrimmed(text, w);
    }
  }

  lemma SignedTrimmed(text: string, w: Signed)
    requires w.Valid() && w.Text() != "" && TrimSpace(text) == w.Text()
    ensures
      match Meaning(w)
      case Success(v) => InRange(v) && ParseText(text) == Success(v)
      case Failure(e) => ParseText(text) == Failure(e)
  {
    hide Combine, ParseInt, FractionPaise, Value, AllDigits, IndexOf, TrimSpace, Unsigned, SaysNegative, Fits, Summed,
         Signed.Rupees, Signed.Paise, WholePart;
    UnsignedSigned(w);
    WholeOfSigned(w);
    FractionOfSigned(w);
    if InRange(w.Rupees()) {
      CombineSigned(w.Rupees(), w.Paise(), w.outer == "-");
    }
  }

  function SignOf(s: string): string {
    if s != "" && IsSign(s[0]) then s[..1] else ""
  }

  /** A text taken apart: the signs in front of the text, of its whole part and of its fraction. */
  function AsSigned(text: string): Signed {
    var s := TrimSpace(text);
    var body := Unsigned(s);
    var whole := body[..IndexOf(body, '.')];
    Signed(SignOf(s), SignOf(whole), Unsigned(whole),
           if HasPoint(body) then Some((SignOf(FractionPart(body)), Unsigned(FractionPart(body)))) else None)
  }

  lemma SignAndRest(s: string)
    ensures SignOf(s) + Unsigned(s) == s && IsSignText(SignOf(s))
  {
    if s != "" && IsSign(s[0]) {
      assert s[..1] + s[1..] == s && s[..1] == [s[0]];
    }
  }

  lemma AsSignedText(text: string)
    ensures AsSigned(text).Text() == TrimSpace(text)
  {
    SignAndRest(TrimSpace(text));
    AsSignedBody(text);
    hide TrimSpace, Unsigned, IndexOf, Signed.Body, HasPoint, FractionPart;
  }

  lemma AsSignedBody(text: string)
    ensures AsSigned(text).Body() == Unsigned(TrimSpace(text))
  {
    hide TrimSpace, Unsigned, SignOf;
    var body := Unsigned(TrimSpace(text));
    var i := IndexOf(body, '.');
    SignAndRest(body[..i]);
    if i < |body| {
      SignAndRest(body[i + 1..]);
      assert body == body[..i] + ("." + body[i + 1..]);
    } else {
      assert body[..i] == body;
    }
  }

  lemma ParseIntParts(s: string)
    requires ParseInt(s).Some?
    ensures Unsigned(s) != "" && AllDigits(Unsigned(s))
  {
  }

  lemma AcceptedFraction(frac: string)
    requires 1 <= |frac| <= 2 && ParseInt(if |frac| == 1 then frac + "0" else frac).Some?
    ensures AllDigits(Unsigned(frac))
  {
    var padded := if |frac| == 1 then frac + "0" else frac;
    ParseIntParts(padded);
    assert forall i :: 0 <= i < |Unsigned(frac)| ==> Unsigned(frac)[i] == Unsigned(padded)[i];
  }

  lemma AcceptedWhole(text: string)
    requires ParseText(text).Success?
    ensures AllDigits(AsSigned(text).whole) && (AsSigned(text).inner != "" ==> AsSigned(text).whole != "")
    ensures AsSigned(text).inner != "" ==> AsSigned(text).outer != ""
  {
    hide TrimSpace, Combine, Value, FractionPaise;
    var body := Unsigned(TrimSpace(text));
    ParseIntParts(WholePart(body));
  }

  /**
    Nothing else is accepted: together with ParsesWhatIsSigned the accepted texts and their
    values are known completely, whatever signs they carry.
   */
  lemma AcceptsOnlySigned(text: string)
    requires ParseText(text).Success?
    ensures AsSigned(text).Valid() && AsSigned(text).Text() == TrimSpace(text)
    ensures Meaning(AsSigned(text)) == Success(ParseText(text).value)
  {
    AsSignedText(text);
    AcceptedWhole(text);
    AcceptedForm(text);
    hide Unsigned, IndexOf, TrimSpace, AsSigned, Meaning;
    SignedTrimmed(text, AsSigned(text));
  }

  lemma AcceptedForm(text: string)
    requires ParseText(text).Success?
    requires AllDigits(AsSigned(text).whole)
    requires AsSigned(text).inner != "" ==> AsSigned(text).outer != "" && AsSigned(text).whole != ""
    ensures AsSigned(text).Valid()
  {
    hide TrimSpace, Combine, Value, ParseInt, AllDigits;
    var s := TrimSpace(text);
    var body := Unsigned(s);
    SignAndRest(s);
    SignAndRest(body[..IndexOf(body, '.')]);
    if HasPoint(body) {
      SignAndRest(FractionPart(body));
      AcceptedFraction(FractionPart(body));
    }
  }

  /**
    A signed text is read as the amount it spells, outer * (100 * rupees + paise), exactly when
    its paise are not negative and 100 * rupees needs no wrap. So "--5" is 500, every text with
    negative paise that is accepted at all is misread, and so are rupees below MIN / 100.
   */
  lemma ReadAsSpeltIff(w: Signed)
    requires w.Valid() && Meaning(w).Success?
    ensures
      var spelt := 100 * w.Rupees() + w.Paise();
      Meaning(w).value == (if w.outer == "-" then 0 - spelt else spelt) <==>
        w.Paise() >= 0 && 100 * w.Rupees() >= MIN && !(w.outer == "-" && spelt == MIN)
  {
    hide Value, AllDigits, Signed.Rupees, Signed.Paise, Signed.Text;
    PaiseAreSmall(w);
    WrapOfHundredfold(w.Rupees());
  }

  lemma PaiseAreSmall(w: Signed)
    requires w.Valid()
    ensures -10 < w.Paise() < 100
  {
    FractionOfSigned(w);
  }

  /** Rupees that pass the first guard only ever wrap below, and then by at most fifty turns. */
  lemma WrapOfHundredfold(rupees: int)
    requires InRange(rupees) && rupees <= MAX / 100
    ensures 100 * rupees >= MIN ==> Hundredfold(rupees) == 100 * rupees
    ensures 100 * rupees < MIN ==> Hundredfold(rupees) >= 100 * rupees + MODULUS
  {
  }

  // ----- plain texts

  /** The written forms: optional sign, digits, and optionally a point with one or two digits. */
  datatype Written = Written(sign: string, whole: string, fraction: Option<string>) {

    predicate Valid() {
      && (sign == "" || sign == "-" || sign == "+")
      && AllDigits(whole)
      && (fraction.Some? ==> AllDigits(fraction.value) && 1 <= |fraction.value| <= 2)
    }

    function Body(): string {
      whole + match fraction case None => "" case Some(f) => "." + f
    }

    function Text(): string {
      sign + Body()
    }

    /** The magnitude written, in paise. */
    function Magnitude(): nat
      requires Valid()
    {
      Value(whole) * 100 +
      match fraction
      case None => 0
      case Some(f) => if |f| == 1 then Value(f) * 10 else Value(f)
    }

    function Amount(): int
      requires Valid()
    {
      if sign == "-" then 0 - Magnitude() else Magnitude()
    }
  }

  function AsForm(w: Written): Signed {
    Signed(w.sign, "", w.whole, match w.fraction case None => None case Some(f) => Some(("", f)))
  }

  lemma FormText(w: Written)
    requires w.Valid()
    ensures AsForm(w).Valid() && AsForm(w).Text() == w.Text()
  {
    hide AllDigits;
    assert "" + w.whole == w.whole;
    if w.fraction.Some? {
      assert "" + w.fraction.value == w.fraction.value;
    }
  }

  /** Rupees and paise without a sign of their own add up plainly, or are refused. */
  lemma PlainSum(rupees: nat, paise: int)
    requires 0 <= paise < 100
    ensures Fits(rupees, paise) <==> rupees * 100 + paise <= MAX
    ensures Fits(rupees, paise) ==> Summed(rupees, paise) == rupees * 100 + paise
  {
  }

  lemma FormValues(w: Written)
    requires w.Valid() && AsForm(w).Valid()
    ensures AsForm(w).Rupees() == Value(w.whole) && 0 <= AsForm(w).Paise() < 100
    ensures w.Magnitude() == Value(w.whole) * 100 + AsForm(w).Paise()
  {
    FractionOfSigned(AsForm(w));
    hide Value, AllDigits;
  }

  /** A written form is a signed text without inner signs, and means its amount. */
  lemma WrittenMeans(w: Written)
    requires w.Valid()
    ensures AsForm(w).Valid() && AsForm(w).Text() == w.Text()
    ensures
      Meaning(AsForm(w)) ==
        if w.Text() == "" || Value(w.whole) > MAX then Failure(Malformed)
        else if w.Magnitude() > MAX then Failure(TooLarge)
        else Success(w.Amount())
  {
    hide Value, AllDigits, Signed.Text, Written.Text, Signed.Valid, Signed.Rupees, Signed.Paise,
         Written.Magnitude, Fits, Summed, IsSignText;
    FormText(w);
    FormValues(w);
    PlainSum(Value(w.whole), AsForm(w).Paise());
  }

  /**
    Parse reads exactly the amount written, whatever white space surrounds it, and refuses it
    exactly when its magnitude in paise does not fit in an int64. (Nothing at all is refused;
    a lone sign is read as zero.)
   */
  lemma ParsesWhatIsWritten(w: Written, before: string, after: string)
    requires w.Valid() && AllSpaces(before) && AllSpaces(after)
    ensures
      ParseText(before + w.Text() + after) ==
        if w.Text() == "" || Value(w.whole) > MAX then Failure(Malformed)
        else if w.Magnitude() > MAX then Failure(TooLarge)
        else Success(w.Amount())
  {
    hide ParseText, Meaning, Signed.Text, Signed.Valid, Written.Text, Written.Valid, Value;
    WrittenMeans(w);
    ParsesWhatIsSigned(AsForm(w), before, after);
  }

  /** A fraction that is empty or has three or more characters is refused, never rounded. */
  lemma LongFractionRefused(text: string)
    requires
      var body := Unsigned(TrimSpace(text));
      HasPoint(body) && !(1 <= |FractionPart(body)| <= 2)
    ensures ParseText(text) == Failure(Malformed)
  {
  }

  /** A sign anywhere but in front, which Go's ParseInt is willing to read. */
  predicate InnerSign(text: string) {
    var s := TrimSpace(text);
    exists i :: 1 <= i < |s| && IsSign(s[i])
  }

  /** The written form of an accepted text without inner signs. */
  function AsWritten(text: string): Written {
    var s := AsSigned(text);
    Written(s.outer, s.whole, match s.fraction case None => None case Some((_, digits)) => Some(digits))
  }

  lemma InnerSignShows(w: Signed)
    requires w.Valid() && (w.inner != "" || (w.fraction.Some? && w.fraction.value.0 != ""))
    ensures exists i :: 1 <= i < |w.Text()| && IsSign(w.Text()[i])
  {
    hide AllDigits;
    if w.inner != "" {
      assert IsSign(w.Text()[|w.outer|]);
    } else {
      assert IsSign(w.Text()[|w.outer| + |w.whole| + 1]);
    }
  }

  lemma NoInnerSigns(text: string)
    requires !InnerSign(text) && AsSigned(text).Valid() && AsSigned(text).Text() == TrimSpace(text)
    ensures AsSigned(text) == AsForm(AsWritten(text)) && AsWritten(text).Valid()
  {
    hide TrimSpace, AsSigned, AllDigits, Signed.Text;
    var w := AsSigned(text);
    if w.inner != "" || (w.fraction.Some? && w.fraction.value.0 != "") {
      InnerSignShows(w);
    }
  }

  /** Without an inner sign the parser accepts nothing but the written forms. */
  lemma AcceptsOnlyWritten(text: string)
    requires ParseText(text).Success? && !InnerSign(text)
    ensures AsWritten(text).Valid() && AsWritten(text).Text() == TrimSpace(text)
    ensures ParseText(text) == Success(AsWritten(text).Amount())
  {
    AcceptsOnlySigned(text);
    NoInnerSigns(text);
    WrittenMeans(AsWritten(text));
    hide AsWritten, AsSigned, TrimSpace, Written.Valid, Value;
  }

  // ----- printing and reading back

  function PrintedForm(p: Paise): Written {
    Written(if p < 0 then "-" else "", Digits(Abs(Rupees(p))), Some(TwoDigits(Fraction(p))))
  }

  lemma TwoDigitsRead(n: int64)
    requires 0 <= n < 100
    ensures AllDigits(TwoDigits(n)) && |TwoDigits(n)| == 2 && Value(TwoDigits(n)) == n
  {
    if n < 10 {
      assert TwoDigits(n) == [DigitChar(0), DigitChar(n)];
      ValueOfTwo(DigitChar(0), DigitChar(n));
    } else {
      assert Digits(n) == [DigitChar(n / 10), DigitChar(n % 10)];
      ValueOfTwo(DigitChar(n / 10), DigitChar(n % 10));
    }
  }

  lemma PrintIsWritten(p: Paise)
    ensures PrintedForm(p).Valid() && PrintedForm(p).Text() == Print(p)
    ensures PrintedForm(p).Magnitude() == Abs(p) && PrintedForm(p).Amount() == p
  {
    RupeesAndFraction(p);
    TwoDigitsRead(Fraction(p));
    DigitsRead(Abs(Rupees(p)));
    var w := PrintedForm(p);
    assert w.Text() == w.sign + (w.whole + ("." + w.fraction.value));
  }

  /** The form of every printed amount: a minus if below zero, rupees, a point, and two digits. */
  lemma PrintShape(p: Paise)
    ensures Print(p) == (if p < 0 then "-" else "") + Digits(Abs(p) / 100) + "." +
                        [DigitChar(Abs(p) % 100 / 10), DigitChar(Abs(p) % 10)]
  {
    RupeesAndFraction(p);
    RupeesOf(Abs(p), Abs(Rupees(p)), Fraction(p));
    TwoDigitsSpelt(Fraction(p));
    hide TwoDigits, Fraction, Digits;
  }

  lemma RupeesOf(p: int, rupees: int, paise: int)
    requires p == 100 * rupees + paise && 0 <= paise < 100 && 0 <= rupees
    ensures p / 100 == rupees && p % 100 == paise && p % 10 == paise % 10
  {
    FloorUnique(p, 100, rupees);
    FloorUnique(p, 10, 10 * rupees + paise / 10);
  }

  lemma TwoDigitsSpelt(n: int64)
    requires 0 <= n < 100
    ensures TwoDigits(n) == [DigitChar(n / 10), DigitChar(n % 10)]
  {
    if n >= 10 {
      assert Digits(n) == Digits(n / 10) + [DigitChar(n % 10)];
    }
  }

  /** Printing and parsing is the identity on every amount but the most negative one. */
  lemma PrintParse(p: Paise)
    ensures ParseText(Print(p)) == Success(p) <==> p > MIN
    ensures p == MIN ==> ParseText(Print(p)) == Failure(TooLarge)
  {
    hide *;
    PrintIsWritten(p);
    PrintRange(p);
    NothingIsSpace();
    ParsesWhatIsWritten(PrintedForm(p), "", "");
    assert "" + PrintedForm(p).Text() + "" == Print(p);
  }

  lemma NothingIsSpace()
    ensures AllSpaces("")
  {
  }

  lemma PrintRange(p: Paise)
    ensures PrintedForm(p).Valid() && PrintedForm(p).Text() != "" && Value(PrintedForm(p).whole) <= MAX
    ensures Abs(p) <= MAX <==> p > MIN
    ensures MIN < 0 < MAX
  {
    PrintIsWritten(p);
    RupeesAndFraction(p);
    DigitsRead(Abs(Rupees(p)));
  }

  lemma PrintInjective(p: Paise, q: Paise)
    requires Print(p) == Print(q)
    ensures p == q
  {
    PrintParse(p);
    PrintParse(q);
  }
}
