/** Generated passwords: random words joined by hyphens. */
module Passphrase {
  import opened Wrappers
  import opened Strings
  import Passwd

  const MIN_WORDS: int := 3

  /** The source's list: 256 different lower-case words of four to nine letters. */
  predicate IsWordList(list: seq<string>) {
    && |list| == 256
    && (forall i :: 0 <= i < |list| ==> IsWord(list[i]))
    && (forall i, j :: 0 <= i < j < |list| ==> list[i] != list[j])
  }

  predicate IsWord(w: string) {
    4 <= |w| <= 9 && forall i :: 0 <= i < |w| ==> 'a' <= w[i] <= 'z'
  }

  type Byte = n: nat | n < 256

  function Joined(parts: seq<string>): string {
    if parts == [] then ""
    else if |parts| == 1 then parts[0]
    else parts[0] + "-" + Joined(parts[1..])
  }

  function Chosen(list: seq<string>, entropy: seq<Byte>): seq<string>
    requires |list| == 256
  {
    seq(|entropy|, i requires 0 <= i < |entropy| => list[entropy[i]])
  }

  datatype TooFew = TooFew(words: int)

  /** `entropy` is what the random source yields, one byte a word. */
  method Generate(list: seq<string>, words: int, entropy: seq<Byte>) returns (r: Result<string, TooFew>)
    requires IsWordList(list) && (words >= 0 ==> |entropy| == words)
    ensures r.Success? <==> words >= 3
    ensures r.Failure? ==> r.error == TooFew(words)
    ensures r.Success? ==> r.value == Joined(Chosen(list, entropy))
  {
    if words < MIN_WORDS {
      return Failure(TooFew(words));
    }
    var sb := "";
    ghost var chosen := Chosen(list, entropy);
    for i := 0 to |entropy|
      invariant sb == Joined(chosen[..i])
    {
      if i > 0 {
        JoinedSnoc(chosen[..i], chosen[i]);
        sb := sb + "-";
      }
      sb := sb + list[entropy[i]];
      assert chosen[..i + 1] == chosen[..i] + [chosen[i]];
    }
    assert chosen[..|entropy|] == chosen;
    return Success(sb);
  }

  lemma {:induction false} JoinedSnoc(parts: seq<string>, last: string)
    requires parts != []
    ensures Joined(parts + [last]) == Joined(parts) + "-" + last
  {
    assert (parts + [last])[1..] == parts[1..] + [last];
    if |parts| > 1 {
      JoinedSnoc(parts[1..], last);
    } else {
      assert parts[1..] + [last] == [last];
    }
  }

  lemma {:induction false} SplitJoined(parts: seq<string>)
    requires parts != [] && forall i :: 0 <= i < |parts| ==> Lacks(parts[i], '-')
    ensures Split(Joined(parts), '-') == parts
  {
    if |parts| == 1 {
      SplitLast(parts[0], '-');
    } else {
      SplitJoined(parts[1..]);
      SplitFirst(parts[0], '-', Joined(parts[1..]));
    }
  }

  /** The words of the phrase, in order, are those the bytes stand for. */
  lemma GeneratedSpells(list: seq<string>, entropy: seq<Byte>)
    requires IsWordList(list) && entropy != []
    ensures
      var words := Split(Joined(Chosen(list, entropy)), '-');
      |words| == |entropy| && forall i :: 0 <= i < |entropy| ==> words[i] == list[entropy[i]]
  {
    hide Joined, Split;
    SplitJoined(Chosen(list, entropy));
  }

  /** The phrase gives back its words, so every word carries its full eight bits. */
  lemma GeneratedDistinct(list: seq<string>, a: seq<Byte>, b: seq<Byte>)
    requires IsWordList(list) && a != [] && b != [] && Joined(Chosen(list, a)) == Joined(Chosen(list, b))
    ensures a == b
  {
    var left, right := Chosen(list, a), Chosen(list, b);
    hide Joined, Split;
    SplitJoined(left);
    SplitJoined(right);
    assert left == right;
    forall i | 0 <= i < |a| ensures a[i] == b[i] {
      assert left[i] == list[a[i]] && right[i] == list[b[i]];
    }
  }

  lemma {:induction false} JoinedShape(parts: seq<string>)
    requires parts != [] && forall i :: 0 <= i < |parts| ==> IsWord(parts[i])
    ensures
      var s := Joined(parts);
      && 5 * |parts| - 1 <= |s| <= 10 * |parts| - 1
      && 'a' <= s[0] <= 'z' && 'a' <= s[|s| - 1] <= 'z'
      && (forall i :: 0 <= i < |s| ==> 'a' <= s[i] <= 'z' || s[i] == '-')
      && (|parts| > 1 ==> '-' in s)
  {
    if |parts| > 1 {
      JoinedShape(parts[1..]);
      assert Joined(parts)[|parts[0]|] == '-';
    }
  }

  lemma LowerAlready(s: string)
    requires forall i :: 0 <= i < |s| ==> 'a' <= s[i] <= 'z' || s[i] == '-'
    ensures Passwd.Lower(s) == s
  {
  }

  predicate AllShort(words: set<string>) {
    forall w :: w in words ==> |w| <= 13
  }

  lemma LoginsShort()
    ensures AllShort(Passwd.CommonLogins())
  {
  }

  lemma KeysShort()
    ensures AllShort(Passwd.CommonKeys())
  {
  }

  lemma WordsShort()
    ensures AllShort(Passwd.CommonWords())
  {
  }

  lemma DefaultsShort()
    ensures AllShort(Passwd.CommonDefaults())
  {
  }

  lemma IndiaShort()
    ensures AllShort(Passwd.CommonIndia())
  {
  }

  lemma CitiesShort()
    ensures AllShort(Passwd.CommonCities())
  {
  }

  lemma ShopsShort()
    ensures AllShort(Passwd.CommonShops())
  {
  }

  /** "administrator" is the longest of the common passwords; three words are longer. */
  lemma CommonIsShort()
    ensures AllShort(Passwd.Common())
  {
    hide Passwd.CommonLogins, Passwd.CommonKeys, Passwd.CommonWords, Passwd.CommonDefaults, Passwd.CommonIndia,
         Passwd.CommonCities, Passwd.CommonShops;
    LoginsShort();
    KeysShort();
    WordsShort();
    DefaultsShort();
    IndiaShort();
    CitiesShort();
    ShopsShort();
  }

  lemma NotCommon(s: string)
    requires |s| >= 14 && 'a' <= s[0] <= 'z' && 'a' <= s[|s| - 1] <= 'z'
    requires forall i :: 0 <= i < |s| ==> 'a' <= s[i] <= 'z' || s[i] == '-'
    ensures TrimSpace(s) == s && !Passwd.IsCommon(s)
  {
    hide Passwd.Lower, Passwd.Common, TrimSpace, Passwd.CommonLogins, Passwd.CommonKeys, Passwd.CommonWords,
         Passwd.CommonDefaults, Passwd.CommonIndia, Passwd.CommonCities, Passwd.CommonShops;
    LowerAlready(s);
    assert "" + s + "" == s;
    TrimPadded("", s, "");
    assert Passwd.TrimDecoration(s) == s;
    CommonIsShort();
  }

  /** A generated password of up to 25 words always meets the policy it will be checked against. */
  lemma GeneratedAcceptable(list: seq<string>, entropy: seq<Byte>)
    requires IsWordList(list) && MIN_WORDS <= |entropy| <= 25
    ensures Passwd.Acceptable(Joined(Chosen(list, entropy)))
  {
    ChosenAreWords(list, entropy);
    hide IsWordList, IsWord, Joined, Passwd.Acceptable;
    PhraseAcceptable(Chosen(list, entropy));
  }

  lemma PhraseAcceptable(parts: seq<string>)
    requires MIN_WORDS <= |parts| <= 25 && forall i :: 0 <= i < |parts| ==> IsWord(parts[i])
    ensures Passwd.Acceptable(Joined(parts))
  {
    hide Joined, IsWord, TrimSpace, Passwd.IsCommon, Passwd.Acceptable;
    JoinedShape(parts);
    NotCommon(Joined(parts));
    LongEnough(Joined(parts));
  }

  lemma ChosenAreWords(list: seq<string>, entropy: seq<Byte>)
    requires IsWordList(list)
    ensures forall i :: 0 <= i < |entropy| ==> IsWord(Chosen(list, entropy)[i])
  {
  }

  lemma LongEnough(s: string)
    requires 14 <= |s| <= 256 && TrimSpace(s) == s && !Passwd.IsCommon(s)
    ensures Passwd.Acceptable(s)
  {
    hide TrimSpace, Passwd.IsCommon;
  }
}
