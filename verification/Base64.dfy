/** Unpadded standard base64 in strict mode: RFC 4648, sections 3.2, 3.5 and 4. */
module Base64 {
  import opened Wrappers
  import opened Strings

  type byte = x: int | 0 <= x < 256
  type sextet = x: int | 0 <= x < 64

  function Symbol(v: sextet): (c: char)
    ensures Sextet(c) == Some(v) && c != '$' && c != '\r' && c != '\n'
  {
    if v < 26 then ('A' as int + v) as char
    else if v < 52 then ('a' as int + v - 26) as char
    else if v < 62 then ('0' as int + v - 52) as char
    else if v == 62 then '+' else '/'
  }

  function Sextet(c: char): (v: Option<sextet>)
  {
    if 'A' <= c <= 'Z' then Some(c as int - 'A' as int)
    else if 'a' <= c <= 'z' then Some(c as int - 'a' as int + 26)
    else if '0' <= c <= '9' then Some(c as int - '0' as int + 52)
    else if c == '+' then Some(62)
    else if c == '/' then Some(63)
    else None
  }

  lemma SextetInjective(c: char, v: sextet)
    requires Sextet(c) == Some(v)
    ensures c == Symbol(v)
  {
  }

  function Sextet0(x: byte): sextet {
    x / 4
  }

  function Sextet1(x: byte, y: byte): sextet {
    x % 4 * 16 + y / 16
  }

  function Sextet2(y: byte, z: byte): sextet {
    y % 16 * 4 + z / 64
  }

  function Sextet3(z: byte): sextet {
    z % 64
  }

  /** Bytes regrouped six bits at a time, a short final group padded with zero bits. */
  function Pack(bs: seq<byte>): seq<sextet> {
    if |bs| == 0 then []
    else if |bs| == 1 then [Sextet0(bs[0]), Sextet1(bs[0], 0)]
    else if |bs| == 2 then [Sextet0(bs[0]), Sextet1(bs[0], bs[1]), Sextet2(bs[1], 0)]
    else
      [Sextet0(bs[0]), Sextet1(bs[0], bs[1]), Sextet2(bs[1], bs[2]), Sextet3(bs[2])] + Pack(bs[3..])
  }

  /** Strict regrouping: the bits a short final group leaves over must be zero. */
  function Unpack(vs: seq<sextet>): Option<seq<byte>> {
    if |vs| == 0 then Some([])
    else if |vs| == 1 then None
    else if |vs| == 2 then
      if vs[1] % 16 == 0 then Some([First(vs[0], vs[1])]) else None
    else if |vs| == 3 then
      if vs[2] % 4 == 0 then Some([First(vs[0], vs[1]), Second(vs[1], vs[2])]) else None
    else
      match Unpack(vs[4..])
      case None => None
      case Some(rest) => Some([First(vs[0], vs[1]), Second(vs[1], vs[2]), Third(vs[2], vs[3])] + rest)
  }

  function First(a: sextet, b: sextet): byte {
    (a as int) * 4 + b / 16
  }

  function Second(b: sextet, c: sextet): byte {
    (b as int) % 16 * 16 + c / 4
  }

  function Third(c: sextet, d: sextet): byte {
    (c as int) % 4 * 64 + d
  }

  function Symbols(vs: seq<sextet>): (s: string)
    ensures |s| == |vs|
  {
    seq(|vs|, i requires 0 <= i < |vs| => Symbol(vs[i]))
  }

  predicate IsSymbols(s: string) {
    forall i :: 0 <= i < |s| ==> Sextet(s[i]).Some?
  }

  function Sextets(s: string): (vs: seq<sextet>)
    requires IsSymbols(s)
    ensures |vs| == |s|
  {
    seq(|s|, i requires 0 <= i < |s| => Sextet(s[i]).value)
  }

  function Encode(bs: seq<byte>): string {
    Symbols(Pack(bs))
  }

  function DecodeSymbols(s: string): Option<seq<byte>> {
    if IsSymbols(s) then Unpack(Sextets(s)) else None
  }

  /** Line breaks are the one thing Go's decoder skips, strict or not. */
  function WithoutBreaks(s: string): string {
    if s == "" then ""
    else if s[0] == '\r' || s[0] == '\n' then WithoutBreaks(s[1..])
    else [s[0]] + WithoutBreaks(s[1..])
  }

  function Decode(s: string): Option<seq<byte>> {
    DecodeSymbols(WithoutBreaks(s))
  }

  lemma {:induction false} SymbolsHaveNoBreaks(s: string)
    requires IsSymbols(s)
    ensures WithoutBreaks(s) == s && Lacks(s, '$')
  {
    if s != "" {
      assert Sextet(s[0]).Some?;
      SymbolsHaveNoBreaks(s[1..]);
    }
  }

  lemma SymbolsRead(vs: seq<sextet>)
    ensures IsSymbols(Symbols(vs)) && Sextets(Symbols(vs)) == vs
  {
  }

  lemma SextetsSpell(s: string)
    requires IsSymbols(s)
    ensures Symbols(Sextets(s)) == s
  {
    forall i | 0 <= i < |s| ensures Symbol(Sextets(s)[i]) == s[i] {
      SextetInjective(s[i], Sextets(s)[i]);
    }
  }

  lemma GroupDown(x: byte, y: byte, z: byte)
    ensures First(Sextet0(x), Sextet1(x, y)) == x
    ensures Second(Sextet1(x, y), Sextet2(y, z)) == y
    ensures Third(Sextet2(y, z), Sextet3(z)) == z
    ensures Sextet1(x, 0) % 16 == 0 && Sextet2(y, 0) % 4 == 0
  {
    hide First, Second, Third, Sextet0, Sextet1, Sextet2, Sextet3;
    FirstDown(x, y);
    SecondDown(x, y, z);
    ThirdDown(y, z);
    LeftoverBits(x, y);
  }

  lemma LeftoverBits(x: byte, y: byte)
    ensures Sextet1(x, 0) % 16 == 0 && Sextet2(y, 0) % 4 == 0
  {
  }

  lemma FirstDown(x: byte, y: byte)
    ensures First(Sextet0(x), Sextet1(x, y)) == x
  {
    CutAt16(x % 4, y / 16);
  }

  lemma CutAt16(high: nat, low: nat)
    requires low < 16
    ensures (high * 16 + low) / 16 == high && (high * 16 + low) % 16 == low
  {
  }

  lemma CutAt4(high: nat, low: nat)
    requires low < 4
    ensures (high * 4 + low) / 4 == high && (high * 4 + low) % 4 == low
  {
  }

  lemma SecondDown(x: byte, y: byte, z: byte)
    ensures Second(Sextet1(x, y), Sextet2(y, z)) == y
  {
    CutAt16(x % 4, y / 16);
    CutAt4(y % 16, z / 64);
  }

  lemma ThirdDown(y: byte, z: byte)
    ensures Third(Sextet2(y, z), Sextet3(z)) == z
  {
    CutAt4(y % 16, z / 64);
  }

  lemma GroupUp(a: sextet, b: sextet, c: sextet, d: sextet)
    ensures Sextet0(First(a, b)) == a
    ensures Sextet1(First(a, b), Second(b, c)) == b
    ensures Sextet2(Second(b, c), Third(c, d)) == c
    ensures Sextet3(Third(c, d)) == d
    ensures b % 16 == 0 ==> Sextet1(First(a, b), 0) == b
    ensures c % 4 == 0 ==> Sextet2(Second(b, c), 0) == c
  {
  }

  lemma {:induction false} UnpackPack(bs: seq<byte>)
    ensures Unpack(Pack(bs)) == Some(bs)
  {
    hide Sextet0, Sextet1, Sextet2, Sextet3, First, Second, Third;
    if |bs| == 1 {
      GroupDown(bs[0], 0, 0);
      assert bs == [bs[0]];
    } else if |bs| == 2 {
      GroupDown(bs[0], bs[1], 0);
      assert bs == [bs[0], bs[1]];
    } else if |bs| >= 3 {
      UnpackPack(bs[3..]);
      GroupDown(bs[0], bs[1], bs[2]);
      assert Pack(bs)[4..] == Pack(bs[3..]);
      assert bs == [bs[0], bs[1], bs[2]] + bs[3..];
    }
  }

  lemma {:induction false} PackUnpack(vs: seq<sextet>)
    requires Unpack(vs).Some?
    ensures Pack(Unpack(vs).value) == vs
  {
    hide Sextet0, Sextet1, Sextet2, Sextet3, First, Second, Third;
    if |vs| == 2 {
      GroupUp(vs[0], vs[1], 0, 0);
    } else if |vs| == 3 {
      GroupUp(vs[0], vs[1], vs[2], 0);
    } else if |vs| >= 4 {
      PackUnpack(vs[4..]);
      GroupUp(vs[0], vs[1], vs[2], vs[3]);
      var bs := Unpack(vs).value;
      assert bs[3..] == Unpack(vs[4..]).value;
      assert vs == [vs[0], vs[1], vs[2], vs[3]] + vs[4..];
    }
  }

  /** Decoding what was encoded gives the same bytes back. */
  lemma DecodeEncode(bs: seq<byte>)
    ensures Decode(Encode(bs)) == Some(bs)
    ensures Lacks(Encode(bs), '$')
  {
    SymbolsRead(Pack(bs));
    SymbolsHaveNoBreaks(Encode(bs));
    UnpackPack(bs);
  }

  /** Strictness: line breaks aside, every accepted text is the one encoding of its bytes. */
  lemma EncodeDecode(s: string)
    requires Decode(s).Some?
    ensures Encode(Decode(s).value) == WithoutBreaks(s)
  {
    var symbols := WithoutBreaks(s);
    PackUnpack(Sextets(symbols));
    SextetsSpell(symbols);
  }

  /** Table 1 of RFC 4648: capitals, small letters, digits, plus and slash, each run in order. */
  lemma AlphabetIs(v: sextet)
    ensures Symbol(0) == 'A' && Symbol(26) == 'a' && Symbol(52) == '0' && Symbol(62) == '+' && Symbol(63) == '/'
    ensures v < 25 || 26 <= v < 51 || 52 <= v < 61 ==> Symbol(v + 1) as int == Symbol(v) as int + 1
  {
  }

  /** A number written in base 64. */
  function Base64Value(vs: seq<sextet>): nat {
    if vs == [] then 0 else Base64Value(vs[..|vs| - 1]) * 64 + vs[|vs| - 1]
  }

  lemma ValueOfOne(a: sextet)
    ensures Base64Value([a]) == a
  {
    assert [a][..|[a]| - 1] == [];
  }

  lemma ValueOfMore(vs: seq<sextet>, v: sextet)
    ensures Base64Value(vs + [v]) == Base64Value(vs) * 64 + v
  {
    assert (vs + [v])[..|vs + [v]| - 1] == vs;
  }

  lemma ValueOfGroup(a: sextet, b: sextet, c: sextet, d: sextet)
    ensures Base64Value([a, b]) == (a as int) * 64 + b
    ensures Base64Value([a, b, c]) == ((a as int) * 64 + b) * 64 + c
    ensures Base64Value([a, b, c, d]) == (((a as int) * 64 + b) * 64 + c) * 64 + d
  {
    hide Base64Value;
    ValueOfOne(a);
    ValueOfMore([a], b);
    ValueOfMore([a, b], c);
    ValueOfMore([a, b, c], d);
    assert [a] + [b] == [a, b] && [a, b] + [c] == [a, b, c] && [a, b, c] + [d] == [a, b, c, d];
  }

  /**
    Section 4 of RFC 4648: a group is one number, written in base 256 by its bytes and in base 64
    by its symbols; a short group is filled up with zero bits.
   */
  lemma GroupIsNumber(x: byte, y: byte, z: byte)
    ensures |Pack([x, y, z])| == 4 && Base64Value(Pack([x, y, z])) == ((x as int) * 256 + y) * 256 + z
    ensures |Pack([x, y])| == 3 && Base64Value(Pack([x, y])) == ((x as int) * 256 + y) * 4
    ensures |Pack([x])| == 2 && Base64Value(Pack([x])) == (x as int) * 16
  {
    hide Sextet0, Sextet1, Sextet2, Sextet3, Base64Value;
    PacksOf(x, y, z);
    hide Pack;
    ValueOfGroup(Sextet0(x), Sextet1(x, y), Sextet2(y, z), Sextet3(z));
    ValueOfGroup(Sextet0(x), Sextet1(x, y), Sextet2(y, 0), 0);
    ValueOfGroup(Sextet0(x), Sextet1(x, 0), 0, 0);
    SextetsOf(x, y, z);
    ShortGroups(x, y);
  }

  lemma PacksOf(x: byte, y: byte, z: byte)
    ensures Pack([x, y, z]) == [Sextet0(x), Sextet1(x, y), Sextet2(y, z), Sextet3(z)]
    ensures Pack([x, y]) == [Sextet0(x), Sextet1(x, y), Sextet2(y, 0)]
    ensures Pack([x]) == [Sextet0(x), Sextet1(x, 0)]
  {
    hide Sextet0, Sextet1, Sextet2, Sextet3;
    assert [x, y, z][3..] == [];
  }

  lemma ShortGroups(x: byte, y: byte)
    ensures (Sextet0(x) as int) * 64 + Sextet1(x, 0) == (x as int) * 16
    ensures ((Sextet0(x) as int) * 64 + Sextet1(x, y)) * 64 + Sextet2(y, 0) == ((x as int) * 256 + y) * 4
  {
  }

  lemma SextetsOf(x: byte, y: byte, z: byte)
    ensures (((Sextet0(x) as int) * 64 + Sextet1(x, y)) * 64 + Sextet2(y, z)) * 64 + Sextet3(z)
         == ((x as int) * 256 + y) * 256 + z
  {
  }

  lemma GroupsInOrder(x: byte, y: byte, z: byte, rest: seq<byte>)
    ensures Pack([x, y, z] + rest) == Pack([x, y, z]) + Pack(rest)
  {
    var bs := [x, y, z] + rest;
    assert bs[3..] == rest && [x, y, z][3..] == [];
    assert bs[0] == x && bs[1] == y && bs[2] == z;
  }

  /** Decoding reads on over carriage returns and line feeds, and over nothing else. */
  lemma {:induction false} BreaksAppend(a: string, b: string)
    ensures WithoutBreaks(a + b) == WithoutBreaks(a) + WithoutBreaks(b)
  {
    if a == "" {
      assert a + b == b;
    } else {
      assert (a + b)[1..] == a[1..] + b;
      BreaksAppend(a[1..], b);
    }
  }

  lemma BreaksOne(c: char)
    ensures WithoutBreaks([c]) == if c == '\n' || c == '\r' then "" else [c]
  {
    assert [c][1..] == "";
  }
}
