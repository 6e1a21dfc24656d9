/**
  Password hashes as self-describing PHC strings. Argon2id itself is a parameter: any function
  from a password, a salt and cost parameters to key bytes.
 */
module Passwd {
  import opened Wrappers
  import opened Decimal
  import opened Strings
  import opened Base64

  const VERSION: nat := 19
  const UINT32_MAX: nat := 0xffff_ffff
  const UINT8_MAX: nat := 255

  datatype Params = Params(memory: nat, iterations: nat, parallelism: nat, saltLength: nat, keyLength: nat)

  datatype Decoded = Decoded(params: Params, salt: seq<byte>, key: seq<byte>)

  type Kdf = (string, seq<byte>, nat, nat, nat, nat) -> seq<byte>

  /** What the constructor of a hasher insists on, within the fixed-width fields. */
  predicate Usable(p: Params) {
    && 8 * 1024 <= p.memory <= UINT32_MAX && 1 <= p.iterations <= UINT32_MAX
    && 1 <= p.parallelism <= UINT8_MAX
    && 16 <= p.saltLength <= UINT32_MAX && 32 <= p.keyLength <= UINT32_MAX
  }

  function CostField(p: Params): string {
    "m=" + Digits(p.memory) + ",t=" + Digits(p.iterations) + ",p=" + Digits(p.parallelism)
  }

  /** `$argon2id$v=19$m=..,t=..,p=..$<salt>$<key>` */
  function HashText(p: Params, salt: seq<byte>, key: seq<byte>): string {
    "" + "$" + ("argon2id" + "$" + ("v=" + Digits(VERSION) + "$" +
      (CostField(p) + "$" + (Encode(salt) + "$" + Encode(key)))))
  }

  function Hash(kdf: Kdf, p: Params, password: string, salt: seq<byte>): string {
    HashText(p, salt, kdf(password, salt, p.iterations, p.memory, p.parallelism, p.keyLength))
  }

  /** The costs as they stand in the text. */
  lemma CostsInFull()
    ensures CostField(Params(65536, 3, 4, 16, 32)) == "m=65536,t=3,p=4"
  {
    assert Digits(6) == "6" && Digits(65) == "65" && Digits(655) == "655" && Digits(6553) == "6553";
    assert Digits(65536) == "65536" && Digits(3) == "3" && Digits(4) == "4";
    hide Digits;
    assert "m=" + "65536" + ",t=" + "3" + ",p=" + "4" == "m=65536,t=3,p=4";
  }

  // ----- fmt.Sscanf, as far as the decoder uses it

  /** Sscanf skips blanks before a number but refuses a line feed. */
  function SkipBlanks(s: string): string {
    if s != "" && IsSpace(s[0]) && s[0] != '\n' then SkipBlanks(s[1..]) else s
  }

  function DigitCount(s: string): (n: nat)
    ensures n <= |s| && AllDigits(s[..n])
    ensures n < |s| ==> !IsDigit(s[n])
  {
    if s == "" || !IsDigit(s[0]) then 0
    else
      var n := DigitCount(s[1..]);
      assert s[..n + 1] == [s[0]] + s[1..][..n];
      n + 1
  }

  /** An unsigned `%d`: the number, at most max, and the text after it. */
  function ScanUint(s: string, max: nat): Option<(nat, string)> {
    var t := SkipBlanks(s);
    var n := DigitCount(t);
    if n == 0 || Value(t[..n]) > max then None else Some((Value(t[..n]), t[n..]))
  }

  /** A signed `%d` into an int. */
  function ScanInt(s: string): Option<int> {
    var t := SkipBlanks(s);
    var digits := if t != "" && (t[0] == '-' || t[0] == '+') then t[1..] else t;
    var n := DigitCount(digits);
    if n == 0 then None
    else
      var v := Value(digits[..n]);
      var signed: int := if t[0] == '-' then 0 - v else v;
      if -0x8000_0000_0000_0000 <= signed <= 0x7fff_ffff_ffff_ffff then Some(signed) else None
  }

  /** A literal of the format, then an unsigned number. */
  function ScanField(s: string, literal: string, max: nat): Option<(nat, string)> {
    if literal <= s then ScanUint(s[|literal|..], max) else None
  }

  function ScanVersion(s: string): Option<int> {
    if "v=" <= s then ScanInt(s[2..]) else None
  }

  /** `m=%d,t=%d,p=%d`; like Sscanf it ignores whatever follows. */
  function ScanCosts(s: string): Option<(nat, nat, nat)> {
    match ScanField(s, "m=", UINT32_MAX)
    case None => None
    case Some((m, s1)) =>
      match ScanField(s1, ",t=", UINT32_MAX)
      case None => None
      case Some((t, s2)) =>
        match ScanField(s2, ",p=", UINT8_MAX)
        case None => None
        case Some((p, _)) => Some((m, t, p))
  }

  function DecodeHash(encoded: string): Option<Decoded> {
    var parts := Split(encoded, '$');
    if |parts| != 6 || parts[0] != "" || parts[1] != "argon2id" || ScanVersion(parts[2]) != Some(VERSION as int)
    then None
    else
      match (ScanCosts(parts[3]), Decode(parts[4]), Decode(parts[5]))
      case (Some((m, t, p)), Some(salt), Some(key)) =>
        if |salt| == 0 || |key| == 0 then None
        else Some(Decoded(Params(m, t, p, |salt|, |key|), salt, key))
      case _ => None
  }

  /** The decoder, filling in the parameters field by field. */
  method DecodePhc(encoded: string) returns (r: Option<Decoded>)
    ensures r == DecodeHash(encoded)
  {
    var parts := Split(encoded, '$');
    if |parts| != 6 || parts[0] != "" || parts[1] != "argon2id" {
      return None;
    }
    var version := ScanVersion(parts[2]);
    if version.None? || version.value != VERSION {
      return None;
    }
    var p := Params(0, 0, 0, 0, 0);
    var costs := ScanCosts(parts[3]);
    if costs.None? {
      return None;
    }
    var (m, t, lanes) := costs.value;
    p := p.(memory := m, iterations := t, parallelism := lanes);
    var salt := Decode(parts[4]);
    if salt.None? {
      return None;
    }
    var key := Decode(parts[5]);
    if key.None? {
      return None;
    }
    if |salt.value| == 0 || |key.value| == 0 {
      return None;
    }
    p := p.(saltLength := |salt.value|);
    p := p.(keyLength := |key.value|);
    return Some(Decoded(p, salt.value, key.value));
  }

  function NeedsRehash(hasher: Params, encoded: string): bool {
    match DecodeHash(encoded)
    case None => true
    case Some(d) =>
      d.params.memory < hasher.memory || d.params.iterations < hasher.iterations || |d.key| < hasher.keyLength
  }

  function Verify(kdf: Kdf, encoded: string, password: string): bool {
    match DecodeHash(encoded)
    case None => false
    case Some(d) =>
      kdf(password, d.salt, d.params.iterations, d.params.memory, d.params.parallelism, |d.key|) == d.key
  }

  // ----- the round trip

  lemma {:induction false} DigitCountOf(digits: string, rest: string)
    requires AllDigits(digits) && (rest != "" ==> !IsDigit(rest[0]))
    ensures DigitCount(digits + rest) == |digits|
  {
    if digits != "" {
      assert (digits + rest)[1..] == digits[1..] + rest;
      DigitCountOf(digits[1..], rest);
    } else {
      assert digits + rest == rest;
    }
  }

  lemma ScanUintDigits(n: nat, rest: string, max: nat)
    requires n <= max && (rest != "" ==> !IsDigit(rest[0]))
    ensures ScanUint(Digits(n) + rest, max) == Some((n, rest))
  {
    var s := Digits(n) + rest;
    assert IsDigit(s[0]);
    assert SkipBlanks(s) == s;
    DigitCountOf(Digits(n), rest);
    DigitsRead(n);
    assert s[..|Digits(n)|] == Digits(n) && s[|Digits(n)|..] == rest;
  }

  lemma ScanFieldWritten(literal: string, n: nat, rest: string, max: nat)
    requires n <= max && (rest != "" ==> !IsDigit(rest[0]))
    ensures ScanField(literal + Digits(n) + rest, literal, max) == Some((n, rest))
  {
    var s := literal + Digits(n) + rest;
    assert s == literal + (Digits(n) + rest);
    assert s[|literal|..] == Digits(n) + rest;
    ScanUintDigits(n, rest, max);
  }

  lemma ScanCostsWritten(p: Params)
    requires p.memory <= UINT32_MAX && p.iterations <= UINT32_MAX && p.parallelism <= UINT8_MAX
    ensures ScanCosts(CostField(p)) == Some((p.memory, p.iterations, p.parallelism))
  {
    hide ScanField;
    var tail2 := ",p=" + Digits(p.parallelism) + "";
    var tail1 := ",t=" + Digits(p.iterations) + tail2;
    assert CostField(p) == "m=" + Digits(p.memory) + tail1;
    ScanFieldWritten("m=", p.memory, tail1, UINT32_MAX);
    ScanFieldWritten(",t=", p.iterations, tail2, UINT32_MAX);
    ScanFieldWritten(",p=", p.parallelism, "", UINT8_MAX);
  }

  lemma ScanVersionWritten()
    ensures ScanVersion("v=" + Digits(VERSION)) == Some(VERSION as int)
  {
    var s := "v=" + Digits(VERSION);
    assert s[2..] == Digits(VERSION);
    assert IsDigit(Digits(VERSION)[0]);
    assert SkipBlanks(Digits(VERSION)) == Digits(VERSION);
    DigitCountOf(Digits(VERSION), "");
    assert Digits(VERSION) + "" == Digits(VERSION);
    DigitsRead(VERSION);
    assert Digits(VERSION)[..|Digits(VERSION)|] == Digits(VERSION);
  }

  lemma DigitsLackSeparator(n: nat)
    ensures Lacks(Digits(n), '$')
  {
    assert forall i :: 0 <= i < |Digits(n)| ==> IsDigit(Digits(n)[i]);
  }

  /** No field can contain the separator, so the text splits back into exactly its fields. */
  lemma SplitHashText(p: Params, salt: seq<byte>, key: seq<byte>)
    ensures Split(HashText(p, salt, key), '$') ==
      ["", "argon2id", "v=" + Digits(VERSION), CostField(p), Encode(salt), Encode(key)]
  {
    hide Split, Encode;
    DecodeEncode(salt);
    DecodeEncode(key);
    DigitsLackSeparator(VERSION);
    CostFieldLacksSeparator(p);
    var s4 := Encode(salt) + "$" + Encode(key);
    var s3 := CostField(p) + "$" + s4;
    var s2 := "v=" + Digits(VERSION) + "$" + s3;
    var s1 := "argon2id" + "$" + s2;
    SplitLast(Encode(key), '$');
    SplitFirst(Encode(salt), '$', Encode(key));
    SplitFirst(CostField(p), '$', s4);
    SplitFirst("v=" + Digits(VERSION), '$', s3);
    SplitFirst("argon2id", '$', s2);
    SplitFirst("", '$', s1);
  }

  lemma CostFieldLacksSeparator(p: Params)
    ensures Lacks(CostField(p), '$')
  {
    DigitsLackSeparator(p.memory);
    DigitsLackSeparator(p.iterations);
    DigitsLackSeparator(p.parallelism);
  }

  /** Decoding a printed hash gives back its parameters, salt and key, whatever they are. */
  lemma DecodeHashText(p: Params, salt: seq<byte>, key: seq<byte>)
    requires p.memory <= UINT32_MAX && p.iterations <= UINT32_MAX && p.parallelism <= UINT8_MAX
    requires salt != [] && key != []
    ensures DecodeHash(HashText(p, salt, key))
         == Some(Decoded(p.(saltLength := |salt|, keyLength := |key|), salt, key))
  {
    hide Split, Encode, Decode, ScanCosts, ScanVersion, HashText, CostField;
    SplitHashText(p, salt, key);
    ScanVersionWritten();
    ScanCostsWritten(p);
    DecodeEncode(salt);
    DecodeEncode(key);
  }

  // ----- what else the decoder refuses

  /** The same layout with any algorithm and version. */
  function AnyHashText(algorithm: string, version: nat, p: Params, salt: seq<byte>, key: seq<byte>): string {
    "" + "$" + (algorithm + "$" + ("v=" + Digits(version) + "$" +
      (CostField(p) + "$" + (Encode(salt) + "$" + Encode(key)))))
  }

  lemma ScanUintAny(n: nat, rest: string, max: nat)
    requires rest != "" ==> !IsDigit(rest[0])
    ensures ScanUint(Digits(n) + rest, max) == if n <= max then Some((n, rest)) else None
  {
    ScanUintDigits(n, rest, n);
    var s := Digits(n) + rest;
    assert IsDigit(s[0]);
    assert SkipBlanks(s) == s;
  }

  lemma ScanFieldAny(literal: string, n: nat, rest: string, max: nat)
    requires rest != "" ==> !IsDigit(rest[0])
    ensures ScanField(literal + Digits(n) + rest, literal, max) == if n <= max then Some((n, rest)) else None
  {
    var s := literal + Digits(n) + rest;
    assert s == literal + (Digits(n) + rest);
    assert s[|literal|..] == Digits(n) + rest;
    ScanUintAny(n, rest, max);
  }

  predicate CostsFit(p: Params) {
    p.memory <= 0xffff_ffff && p.iterations <= 0xffff_ffff && p.parallelism <= 255
  }

  lemma ScanCostsAny(p: Params)
    ensures ScanCosts(CostField(p)) == if CostsFit(p) then Some((p.memory, p.iterations, p.parallelism)) else None
  {
    hide ScanField;
    var tail2 := ",p=" + Digits(p.parallelism) + "";
    var tail1 := ",t=" + Digits(p.iterations) + tail2;
    assert CostField(p) == "m=" + Digits(p.memory) + tail1;
    ScanFieldAny("m=", p.memory, tail1, UINT32_MAX);
    ScanFieldAny(",t=", p.iterations, tail2, UINT32_MAX);
    ScanFieldAny(",p=", p.parallelism, "", UINT8_MAX);
  }

  lemma ScanVersionAny(version: nat)
    ensures ScanVersion("v=" + Digits(version)) == Some(19) <==> version == 19
  {
    var digits := Digits(version);
    var s := "v=" + digits;
    assert s[2..] == digits;
    assert IsDigit(digits[0]);
    assert SkipBlanks(digits) == digits;
    DigitCountOf(digits, "");
    assert digits + "" == digits;
    DigitsRead(version);
    assert digits[..|digits|] == digits;
  }

  lemma SplitAnyHashText(algorithm: string, version: nat, p: Params, salt: seq<byte>, key: seq<byte>)
    requires Lacks(algorithm, '$')
    ensures Split(AnyHashText(algorithm, version, p, salt, key), '$') ==
      ["", algorithm, "v=" + Digits(version), CostField(p), Encode(salt), Encode(key)]
  {
    hide Split, Encode;
    DecodeEncode(salt);
    DecodeEncode(key);
    DigitsLackSeparator(version);
    CostFieldLacksSeparator(p);
    var s4 := Encode(salt) + "$" + Encode(key);
    var s3 := CostField(p) + "$" + s4;
    var s2 := "v=" + Digits(version) + "$" + s3;
    SplitLast(Encode(key), '$');
    SplitFirst(Encode(salt), '$', Encode(key));
    SplitFirst(CostField(p), '$', s4);
    SplitFirst("v=" + Digits(version), '$', s3);
    SplitFirst(algorithm, '$', s2);
    SplitFirst("", '$', algorithm + "$" + s2);
  }

  /**
    A text in this layout is decoded exactly for the one algorithm and version, costs that fit their
    fields, and a salt and key that are there; what it is decoded to is what was written.
   */
  lemma DecodeHashIff(algorithm: string, version: nat, p: Params, salt: seq<byte>, key: seq<byte>)
    requires Lacks(algorithm, '$')
    ensures DecodeHash(AnyHashText(algorithm, version, p, salt, key)) ==
      if algorithm == "argon2id" && version == 19 && CostsFit(p) && salt != [] && key != []
      then Some(Decoded(Params(p.memory, p.iterations, p.parallelism, |salt|, |key|), salt, key)) else None
  {
    hide Split, Encode, Decode, ScanCosts, ScanVersion, AnyHashText, CostField;
    SplitAnyHashText(algorithm, version, p, salt, key);
    ScanVersionAny(version);
    ScanCostsAny(p);
    DecodeEncode(salt);
    DecodeEncode(key);
  }

  /** What cannot be decoded verifies no password and is replaced at the next chance. */
  lemma UnreadableVerifiesNothing(kdf: Kdf, hasher: Params, encoded: string, password: string)
    requires DecodeHash(encoded).None?
    ensures !Verify(kdf, encoded, password) && NeedsRehash(hasher, encoded)
  {
    hide DecodeHash;
  }

  /** The key a hasher derives; the derivation returns as many bytes as it is asked for. */
  function Key(kdf: Kdf, p: Params, password: string, salt: seq<byte>): seq<byte> {
    kdf(password, salt, p.iterations, p.memory, p.parallelism, p.keyLength)
  }

  /** A hasher never flags its own output for rehash. */
  lemma OwnHashNeedsNoRehash(kdf: Kdf, p: Params, password: string, salt: seq<byte>)
    requires Usable(p) && |salt| == p.saltLength && |Key(kdf, p, password, salt)| == p.keyLength
    ensures !NeedsRehash(p, Hash(kdf, p, password, salt))
  {
    hide HashText, DecodeHash;
    DecodeHashText(p, salt, Key(kdf, p, password, salt));
  }

  /** A printed hash verifies exactly the passwords that derive the same key. */
  lemma HashVerifies(kdf: Kdf, p: Params, password: string, salt: seq<byte>, attempt: string)
    requires Usable(p) && |salt| == p.saltLength && |Key(kdf, p, password, salt)| == p.keyLength
    ensures Verify(kdf, Hash(kdf, p, password, salt), attempt)
       <==> Key(kdf, p, attempt, salt) == Key(kdf, p, password, salt)
  {
    hide HashText, DecodeHash;
    DecodeHashText(p, salt, Key(kdf, p, password, salt));
  }

  /** Raising a hasher's costs flags exactly the hashes made below one of the new costs. */
  lemma RaisedCostFlags(kdf: Kdf, p: Params, raised: Params, password: string, salt: seq<byte>)
    requires Usable(p) && |salt| == p.saltLength && |Key(kdf, p, password, salt)| == p.keyLength
    ensures NeedsRehash(raised, Hash(kdf, p, password, salt)) <==>
      p.memory < raised.memory || p.iterations < raised.iterations || p.keyLength < raised.keyLength
  {
    hide HashText, DecodeHash;
    DecodeHashText(p, salt, Key(kdf, p, password, salt));
  }

  // ----- the password policy

  function CommonLogins(): set<string> {
    {"password", "passw0rd", "pass", "passcode", "welcome", "letmein", "admin", "administrator", "login", "master"}
  }

  function CommonKeys(): set<string> {
    {"qwerty", "qwertyuiop", "asdfgh", "zxcvbn", "abc", "abcd", "abcdef", "abcdefgh"}
  }

  function CommonWords(): set<string> {
    {"iloveyou", "sunshine", "princess", "monkey", "football", "cricket", "dragon", "secret", "whatever", "freedom"}
  }

  function CommonDefaults(): set<string> {
    {"changeme", "temporary", "temp", "default", "trustno"}
  }

  function CommonIndia(): set<string> {
    {"bharat", "india", "indian", "namaste", "ganesh", "krishna", "shivam", "sairam", "jaishreeram"}
  }

  function CommonCities(): set<string> {
    {"mumbai", "delhi", "chennai", "kolkata", "bangalore"}
  }

  function CommonShops(): set<string> {
    {"steleios", "shop", "store", "billing", "counter", "mystore", "myshop", "business"}
  }

  function Common(): set<string> {
    CommonLogins() + CommonKeys() + CommonWords() + CommonDefaults() + CommonIndia() + CommonCities() + CommonShops()
  }

  predicate IsDecoration(c: char) {
    IsDigit(c) || c in "!@#$"
  }

  function TrimDecoration(s: string): string {
    if s != "" && IsDecoration(s[|s| - 1]) then TrimDecoration(s[..|s| - 1]) else s
  }

  /** ASCII case folding. */
  function Lower(s: string): (r: string)
    ensures |r| == |s|
  {
    seq(|s|, i requires 0 <= i < |s| =>
      if 'A' <= s[i] <= 'Z' then (s[i] as int - 'A' as int + 'a' as int) as char else s[i])
  }

  predicate IsCommon(password: string) {
    var normalised := TrimDecoration(Lower(TrimSpace(password)));
    normalised in Common() || (normalised == "" && AllDigits(password))
  }

  /** CheckPolicy accepts: ten to 256 characters, not blank, not a common password in disguise. */
  predicate Acceptable(password: string) {
    10 <= |password| <= 256 && TrimSpace(password) != "" && !IsCommon(password)
  }
}
