/**
 Validation of a Canadian telephone number written "AAA BBB-CCCC": a known
 area code, a space, three digits, a hyphen and four digits.
 */
module Phone {
  import opened Text

  /** The area codes as listed in `validerTelephone`: 32 entries, "902" and "867" twice. */
  const AreaCodeList: seq<string> :=
    ["403", "780", "604", "236", "250", "873", "306", "709", "778", "902",
     "204", "506", "902", "905", "519", "289", "705", "613", "867", "867", "800", "966",
     "807", "416", "647", "438", "514", "450", "579", "418", "581", "819"]

  /** The distinct area codes, in increasing numeric order. */
  const SortedAreaCodes: seq<string> :=
    ["204", "236", "250", "289", "306", "403", "416", "418", "438", "450",
     "506", "514", "519", "579", "581", "604", "613", "647", "705", "709",
     "778", "780", "800", "807", "819", "867", "873", "902", "905", "966"]

  /** The area codes as a set: only membership matters. */
  const AreaCodes: set<string> := set code | code in SortedAreaCodes

  /** What one position of the local number must hold. */
  datatype Slot = Digit | Literal(c: char)

  /** The nine characters that follow the area code: " BBB-CCCC". */
  const LocalTemplate: seq<Slot> :=
    [Literal(' '), Digit, Digit, Digit, Literal('-'), Digit, Digit, Digit, Digit]

  predicate Fits(slot: Slot, c: char) {
    match slot
    case Digit => IsDigit(c)
    case Literal(l) => c == l
  }

  /** Declarative reading of a valid number: length, area code, then one rule per position. */
  predicate IsCanadianPhone(t: string) {
    && |t| == 12
    && t[..3] in AreaCodes
    && forall i :: 0 <= i < |LocalTemplate| ==> Fits(LocalTemplate[i], t[3 + i])
  }

  /** Searching the list with duplicates is the same as testing set membership. */
  lemma AreaCodeListAsSet(code: string)
    ensures code in AreaCodeList <==> code in AreaCodes
  {
  }

  /** Every known area code is three decimal digits. */
  lemma AreaCodesAreDigits()
    ensures forall code :: code in AreaCodes ==> |code| == 3 && AllDigits(code)
  {
    SortedAreaCodesDigits();
  }

  /** Each entry of the sorted table is three decimal digits. */
  lemma SortedAreaCodesDigits()
    ensures forall i :: 0 <= i < |SortedAreaCodes| ==> |SortedAreaCodes[i]| == 3 && AllDigits(SortedAreaCodes[i])
  {
  }

  /** The number a three-digit area code denotes. */
  function AreaCodeNumber(code: string): nat
    requires |code| == 3 && AllDigits(code)
  {
    100 * DigitValue(code[0]) + 10 * DigitValue(code[1]) + DigitValue(code[2])
  }

  /** Codes in strictly increasing numeric order. */
  predicate IncreasingCodes(codes: seq<string>) {
    && (forall i :: 0 <= i < |codes| ==> |codes[i]| == 3 && AllDigits(codes[i]))
    && (forall i :: 0 <= i < |codes| - 1 ==> AreaCodeNumber(codes[i]) < AreaCodeNumber(codes[i + 1]))
  }

  /** Codes in strictly increasing order are pairwise distinct, so none is counted twice. */
  lemma {:induction false} IncreasingCodesDistinct(codes: seq<string>)
    requires IncreasingCodes(codes)
    ensures |set code | code in codes| == |codes|
    ensures forall code :: code in codes ==> AreaCodeNumber(codes[0]) <= AreaCodeNumber(code)
  {
    if codes != [] {
      var rest := codes[1..];
      assert IncreasingCodes(rest);
      IncreasingCodesDistinct(rest);
      assert (set code | code in codes) == (set code | code in rest) + {codes[0]};
      if codes[0] in rest {
        assert false;
      }
      forall code | code in codes
        ensures AreaCodeNumber(codes[0]) <= AreaCodeNumber(code)
      {
        if code != codes[0] {
          assert code in rest;
        }
      }
    }
  }

  /** The sorted table really is in strictly increasing numeric order. */
  lemma SortedAreaCodesIncreasing()
    ensures IncreasingCodes(SortedAreaCodes)
  {
    SortedAreaCodesDigits();
    forall i | 0 <= i < |SortedAreaCodes| - 1
      ensures AreaCodeNumber(SortedAreaCodes[i]) < AreaCodeNumber(SortedAreaCodes[i + 1])
    {
    }
  }

  /** The list has 32 entries but names only 30 distinct area codes. */
  lemma AreaCodeCount()
    ensures |AreaCodeList| == 32
    ensures |AreaCodes| == 30
  {
    SortedAreaCodesIncreasing();
    IncreasingCodesDistinct(SortedAreaCodes);
  }

  /**
   `validerTelephone`: reject a length other than 12, reject an area code
   not in the list, then scan the last nine characters position by position.
   */
  method ValidatePhone(telephone: string) returns (valid: bool)
    ensures |telephone| != 12 ==> !valid
    ensures valid <==> IsCanadianPhone(telephone)
  {
    if |telephone| != 12 {
      return false;
    }
    AreaCodeListAsSet(telephone[..3]);
    if telephone[..3] !in AreaCodeList {
      return false;
    }
    var local := telephone[|telephone| - 9..];
    var i := 0;
    while i < |local|
      invariant 0 <= i <= |local|
      invariant forall j :: 0 <= j < i ==> Fits(LocalTemplate[j], local[j])
    {
      var c := local[i];
      if i != 0 && i != 4 && !IsDigit(c) {
        assert !Fits(LocalTemplate[i], telephone[3 + i]);
        return false;
      }
      if i == 4 && c != '-' {
        assert !Fits(LocalTemplate[i], telephone[3 + i]);
        return false;
      }
      if i == 0 && c != ' ' {
        assert !Fits(LocalTemplate[i], telephone[3 + i]);
        return false;
      }
      i := i + 1;
    }
    return true;
  }

  /** The template spelled out position by position. */
  lemma CanadianPhoneShape(t: string)
    ensures IsCanadianPhone(t) <==>
              && |t| == 12
              && t[..3] in AreaCodes
              && t[3] == ' ' && t[7] == '-'
              && AllDigits(t[4..7]) && AllDigits(t[8..12])
  {
    if |t| == 12 {
      if forall i :: 0 <= i < |LocalTemplate| ==> Fits(LocalTemplate[i], t[3 + i]) {
        assert Fits(LocalTemplate[0], t[3]) && Fits(LocalTemplate[4], t[7]);
        forall k | 0 <= k < 3 ensures IsDigit(t[4..7][k]) {
          assert Fits(LocalTemplate[1 + k], t[4 + k]);
        }
        forall k | 0 <= k < 4 ensures IsDigit(t[8..12][k]) {
          assert Fits(LocalTemplate[5 + k], t[8 + k]);
        }
      }
      if t[3] == ' ' && t[7] == '-' && AllDigits(t[4..7]) && AllDigits(t[8..12]) {
        forall i | 0 <= i < |LocalTemplate| ensures Fits(LocalTemplate[i], t[3 + i]) {
          if 1 <= i < 4 {
            assert t[3 + i] == t[4..7][i - 1];
          } else if 5 <= i {
            assert t[3 + i] == t[8..12][i - 5];
          }
        }
      }
    }
  }

  /** An accepted number is digits everywhere except its space and its hyphen. */
  lemma AcceptedPhoneDigits(t: string)
    requires IsCanadianPhone(t)
    ensures forall i :: 0 <= i < 12 && i != 3 && i != 7 ==> IsDigit(t[i])
  {
    AreaCodesAreDigits();
    forall i | 0 <= i < 12 && i != 3 && i != 7 ensures IsDigit(t[i]) {
      if i < 3 {
        assert t[i] == t[..3][i];
      } else {
        assert Fits(LocalTemplate[i - 3], t[i]);
      }
    }
  }

  /** The number from `main`'s example, an unknown area code, and wrong separators. */
  lemma PhoneExamples()
    ensures IsCanadianPhone("418 666-6666")
    ensures !IsCanadianPhone("999 666-6666")
    ensures !IsCanadianPhone("418.666.6666")
  {
    var good := "418 666-6666";
    assert good[..3] == "418";
    assert forall i :: 0 <= i < 9 ==> Fits(LocalTemplate[i], good[3 + i]);
    var bad := "999 666-6666";
    assert bad[..3] == "999";
    assert "418.666.6666"[3] == '.';
    assert !Fits(LocalTemplate[0], "418.666.6666"[3]);
  }
}
