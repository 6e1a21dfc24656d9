/** What the password policy refuses, said without the trimming and folding that finds it out. */
module PasswordPolicy {
  import opened Strings
  import opened Decimal
  import opened Passwd

  // ----- decoration and case

  /** Only digits and the four signs people put behind a word. */
  predicate AllDecoration(tail: string) {
    forall i :: 0 <= i < |tail| ==> '0' <= tail[i] <= '9' || tail[i] in ['!', '@', '#', '$']
  }

  lemma {:induction false} DecorationCut(s: string)
    ensures |TrimDecoration(s)| <= |s| && TrimDecoration(s) == s[..|TrimDecoration(s)|]
    ensures AllDecoration(s[|TrimDecoration(s)|..])
  {
    if s != "" && IsDecoration(s[|s| - 1]) {
      var k := |s| - 1;
      DecorationCut(s[..k]);
      var n := |TrimDecoration(s)|;
      assert s[n..] == s[..k][n..] + [s[k]];
    }
  }

  lemma {:induction false} DecorationPadded(s: string, tail: string)
    requires s != "" && 'a' <= s[|s| - 1] <= 'z' && AllDecoration(tail)
    ensures TrimDecoration(s + tail) == s
    decreases |tail|
  {
    if tail == "" {
      assert s + tail == s;
    } else {
      var k := |tail| - 1;
      assert (s + tail)[..|s + tail| - 1] == s + tail[..k];
      DecorationPadded(s, tail[..k]);
    }
  }

  lemma {:induction false} NothingButDecoration(s: string)
    requires AllDecoration(s)
    ensures TrimDecoration(s) == ""
  {
    if s != "" {
      NothingButDecoration(s[..|s| - 1]);
    }
  }

  lemma LowerAppend(a: string, b: string)
    ensures Lower(a + b) == Lower(a) + Lower(b)
  {
  }

  lemma LowerDecoration(tail: string)
    ensures AllDecoration(Lower(tail)) <==> AllDecoration(tail)
    ensures AllDecoration(tail) ==> Lower(tail) == tail
  {
    if AllDecoration(Lower(tail)) {
      forall i | 0 <= i < |tail| ensures '0' <= tail[i] <= '9' || tail[i] in ['!', '@', '#', '$'] {
        assert '0' <= Lower(tail)[i] <= '9' || Lower(tail)[i] in ['!', '@', '#', '$'];
      }
    }
  }

  // ----- the common passwords

  predicate Plain(w: string) {
    w != "" && 'a' <= w[0] <= 'z' && 'a' <= w[|w| - 1] <= 'z'
  }

  lemma LoginsPlain()
    ensures forall w :: w in CommonLogins() ==> Plain(w)
  {
  }

  lemma KeysPlain()
    ensures forall w :: w in CommonKeys() ==> Plain(w)
  {
  }

  lemma WordsPlain()
    ensures forall w :: w in CommonWords() ==> Plain(w)
  {
  }

  lemma DefaultsPlain()
    ensures forall w :: w in CommonDefaults() ==> Plain(w)
  {
  }

  lemma IndiaPlain()
    ensures forall w :: w in CommonIndia() ==> Plain(w)
  {
  }

  lemma CitiesPlain()
    ensures forall w :: w in CommonCities() ==> Plain(w)
  {
  }

  lemma ShopsPlain()
    ensures forall w :: w in CommonShops() ==> Plain(w)
  {
  }

  /** Every common password begins and ends with a letter. */
  lemma CommonIsPlain(w: string)
    requires w in Common()
    ensures Plain(w)
  {
    hide CommonLogins, CommonKeys, CommonWords, CommonDefaults, CommonIndia, CommonCities, CommonShops, Plain;
    LoginsPlain();
    KeysPlain();
    WordsPlain();
    DefaultsPlain();
    IndiaPlain();
    CitiesPlain();
    ShopsPlain();
  }

  /** A common password in any case, decorated behind, with white space around it. */
  predicate Disguise(password: string, before: string, shown: string, tail: string, after: string) {
    && AllSpaces(before) && AllSpaces(after) && AllDecoration(tail)
    && Lower(shown) in Common() && password == before + (shown + tail) + after
  }

  lemma DisguiseIsCommon(password: string, before: string, shown: string, tail: string, after: string)
    requires Disguise(password, before, shown, tail, after)
    ensures IsCommon(password)
  {
    hide Common, Lower, TrimSpace;
    var word := Lower(shown);
    CommonIsPlain(word);
    ShownHasLetters(shown);
    TrimPadded(before, shown + tail, after);
    LowerAppend(shown, tail);
    LowerDecoration(tail);
    DecorationPadded(word, tail);
  }

  lemma ShownHasLetters(shown: string)
    requires Plain(Lower(shown))
    ensures shown != "" && !IsSpace(shown[0]) && !IsSpace(shown[|shown| - 1])
  {
    assert 'a' <= Lower(shown)[0] <= 'z' && 'a' <= Lower(shown)[|shown| - 1] <= 'z';
  }

  lemma CommonIsDisguise(password: string)
    requires TrimDecoration(Lower(TrimSpace(password))) in Common()
    ensures exists before, shown, tail, after :: Disguise(password, before, shown, tail, after)
  {
    hide Common, Lower, TrimSpace, TrimDecoration;
    TrimCuts(password);
    var t := TrimSpace(password);
    var before, after :| AllSpaces(before) && AllSpaces(after) && password == before + t + after;
    DecorationCut(Lower(t));
    var k := |TrimDecoration(Lower(t))|;
    var shown, tail := t[..k], t[k..];
    assert t == shown + tail;
    LowerAppend(shown, tail);
    assert Lower(shown) == Lower(t)[..k] && Lower(tail) == Lower(t)[k..];
    LowerDecoration(tail);
    assert Disguise(password, before, shown, tail, after);
  }

  lemma DigitsAreCommon(password: string)
    requires password != "" && AllDigits(password)
    ensures IsCommon(password)
  {
    assert "" + password + "" == password;
    TrimPadded("", password, "");
    LowerDecoration(password);
    NothingButDecoration(password);
    hide TrimSpace, Lower, TrimDecoration, Common;
  }

  lemma BlankIff(password: string)
    ensures TrimSpace(password) == "" <==> AllSpaces(password)
  {
    TrimCuts(password);
    if AllSpaces(password) {
      TrimBlank(password);
    }
    hide TrimSpace;
  }

  /**
    Exactly what the policy accepts: ten to 256 characters, not all white space, not all digits,
    and no common password in any disguise of case, decoration and surrounding space.
   */
  lemma AcceptableIff(password: string)
    ensures Acceptable(password) <==>
      && 10 <= |password| <= 256 && !AllSpaces(password) && !AllDigits(password)
      && !exists before, shown, tail, after :: Disguise(password, before, shown, tail, after)
  {
    BlankIff(password);
    var normalised := TrimDecoration(Lower(TrimSpace(password)));
    if normalised in Common() {
      CommonIsDisguise(password);
    }
    if before, shown, tail, after :| Disguise(password, before, shown, tail, after) {
      DisguiseIsCommon(password, before, shown, tail, after);
    }
    if AllDigits(password) && password != "" {
      DigitsAreCommon(password);
    }
    hide TrimSpace, Lower, TrimDecoration, Common, Disguise;
  }
}
