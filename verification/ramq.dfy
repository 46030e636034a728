/**
 Validation of a Quebec health-insurance (RAMQ) number against the holder's
 surname, given name, birth date and sex. The first twelve characters of a
 RAMQ number are "NNNP YYMM DD": three letters of the surname, the first
 letter of the given name, a space, the year of the century, the month (plus
 50 for a woman), a space and the day, each field two digits.
 */
module Ramq {
  import opened Text

  /** Java's `byte` and `int` parameter types. */
  type JavaByte = x: int | -0x80 <= x < 0x80
  type JavaInt = x: int | -0x8000_0000 <= x < 0x8000_0000

  /**
   What a call of the Java method does: return a boolean, or throw
   `StringIndexOutOfBoundsException` when a name is too short to index.
   */
  datatype Outcome = Returned(valid: bool) | IndexOutOfBounds

  predicate IsFemale(sexe: char) {
    sexe == 'f' || sexe == 'F'
  }

  predicate IsMale(sexe: char) {
    sexe == 'm' || sexe == 'M'
  }

  /** Characters allowed in a name: letters, spaces and hyphens. */
  predicate IsNameChar(c: char) {
    IsLetter(c) || c == ' ' || c == '-'
  }

  predicate AllNameChars(s: string) {
    forall i :: 0 <= i < |s| ==> IsNameChar(s[i])
  }

  predicate ValidBirthDate(jour: int, mois: int, annee: int) {
    1 <= jour <= 31 && 1 <= mois <= 12 && annee >= 1910
  }

  /**
   The month as written in the number: unchanged for a man, plus 50 for a
   woman. The code alone gives back both the month and the sex.
   */
  function MonthCode(mois: int, sexe: char): (code: int)
    requires 1 <= mois <= 12
    ensures IsFemale(sexe) ==> 51 <= code <= 62
    ensures !IsFemale(sexe) ==> 1 <= code <= 12
    ensures code % 50 == mois
    ensures code > 50 <==> IsFemale(sexe)
  {
    if IsFemale(sexe) then mois + 50 else mois
  }

  /**
   The twelve characters the number must start with, before upper-casing:
   surname initials, given-name initial, space, year, month code, space, day.
   */
  function BirthPrefix(nom: string, prenom: string, jour: nat, code: nat, annee: nat): (p: string)
    requires |nom| >= 3 && |prenom| >= 1
    requires jour < 100 && code < 100
    ensures |p| == 12
    ensures p[..3] == nom[..3] && p[3] == prenom[0]
    ensures p[4] == ' ' && p[9] == ' '
    ensures AllDigits(p[5..7]) && DecimalValue(p[5..7]) == annee % 100
    ensures AllDigits(p[7..9]) && DecimalValue(p[7..9]) == code
    ensures AllDigits(p[10..12]) && DecimalValue(p[10..12]) == jour
  {
    var yy, mm, dd := ZeroPad2(annee % 100), ZeroPad2(code), ZeroPad2(jour);
    var p := nom[..3] + [prenom[0]] + " " + yy + mm + " " + dd;
    assert p[5..7] == yy && p[7..9] == mm && p[10..12] == dd;
    p
  }

  /**
   `validerRAMQ`, step by step: length of the number, letters at the
   start of both names (indexing them as Java does, so that a short name
   throws), allowed name characters, date ranges, sex code, and finally the
   case-insensitive comparison of the rebuilt prefix with the number.
   */
  function ValidateRamq(numero: string, nom: string, prenom: string,
                        jour: JavaByte, mois: JavaByte, annee: JavaInt, sexe: char): (r: Outcome)
    ensures |numero| != 14 ==> r == Returned(false)
    ensures |nom| >= 3 && |prenom| >= 1 ==> r.Returned?
    ensures r == IndexOutOfBounds <==>
              |numero| == 14 && (|prenom| == 0 || (IsLetter(prenom[0]) && |nom| < 3 && AllLetters(nom)))
    ensures r == Returned(true) ==>
              && AllNameChars(prenom + nom)
              && ValidBirthDate(jour, mois, annee)
              && (IsFemale(sexe) || IsMale(sexe))
  {
    if |numero| != 14 then Returned(false)
    // The four `charAt` calls, evaluated left to right with short-circuit `||`.
    else if |prenom| == 0 then IndexOutOfBounds
    else if !IsLetter(prenom[0]) then Returned(false)
    else if |nom| == 0 then IndexOutOfBounds
    else if !IsLetter(nom[0]) then Returned(false)
    else if |nom| == 1 then IndexOutOfBounds
    else if !IsLetter(nom[1]) then Returned(false)
    else if |nom| == 2 then IndexOutOfBounds
    else if !IsLetter(nom[2]) then Returned(false)
    else if !AllNameChars(prenom + nom) then Returned(false)
    else if jour < 1 || jour > 31 || mois < 1 || mois > 12 || annee < 1910 then Returned(false)
    else if !IsFemale(sexe) && !IsMale(sexe) then Returned(false)
    else
      var expected := BirthPrefix(nom, prenom, jour, MonthCode(mois, sexe), annee);
      Returned(Upper(expected) == Upper(numero)[..12])
  }

  /**
   The first twelve characters of `q` read, up to case, as the surname's
   first three letters, the given name's first letter, a space, the two-digit
   fields `yy` and `mm`, a space and the two-digit field `dd`.
   */
  predicate PrefixFields(q: string, nom: string, prenom: string, yy: int, mm: int, dd: int)
    requires |q| >= 12 && |nom| >= 3 && |prenom| >= 1
  {
    && SameIgnoringCase(q[0], nom[0]) && SameIgnoringCase(q[1], nom[1]) && SameIgnoringCase(q[2], nom[2])
    && SameIgnoringCase(q[3], prenom[0])
    && q[4] == ' ' && q[9] == ' '
    && AllDigits(q[5..7]) && DecimalValue(q[5..7]) == yy
    && AllDigits(q[7..9]) && DecimalValue(q[7..9]) == mm
    && AllDigits(q[10..12]) && DecimalValue(q[10..12]) == dd
  }

  /**
   When `p` has the prefix fields, another string agrees with `p` up to case
   exactly when it has the same fields.
   */
  lemma {:induction false} FieldsDetermineAgreement(p: string, q: string, nom: string, prenom: string, yy: int, mm: int, dd: int)
    requires |p| == 12 && |q| == 12 && |nom| >= 3 && |prenom| >= 1
    requires PrefixFields(p, nom, prenom, yy, mm, dd)
    ensures Agree(p, q) <==> PrefixFields(q, nom, prenom, yy, mm, dd)
  {
    if Agree(p, q) {
      forall i | 0 <= i < 3 ensures SameIgnoringCase(q[i], nom[i]) {
        SameIgnoringCaseTransitive(q[i], p[i], nom[i]);
      }
      SameIgnoringCaseTransitive(q[3], p[3], prenom[0]);
      assert SameIgnoringCase(p[4], q[4]) && SameIgnoringCase(p[9], q[9]);
      FieldAgreement(p, q, 5);
      FieldAgreement(p, q, 7);
      FieldAgreement(p, q, 10);
    }
    if PrefixFields(q, nom, prenom, yy, mm, dd) {
      TwoDigitsEqual(p[5..7], q[5..7]);
      TwoDigitsEqual(p[7..9], q[7..9]);
      TwoDigitsEqual(p[10..12], q[10..12]);
      forall i | 0 <= i < 12 ensures SameIgnoringCase(p[i], q[i]) {
        if i < 3 {
          SameIgnoringCaseTransitive(p[i], nom[i], q[i]);
        } else if i == 3 {
          SameIgnoringCaseTransitive(p[3], prenom[0], q[3]);
        } else if 5 <= i < 7 {
          assert p[i] == p[5..7][i - 5] == q[5..7][i - 5] == q[i];
        } else if 7 <= i < 9 {
          assert p[i] == p[7..9][i - 7] == q[7..9][i - 7] == q[i];
        } else if 10 <= i {
          assert p[i] == p[10..12][i - 10] == q[10..12][i - 10] == q[i];
        }
      }
    }
  }

  /** Agreement on a two-digit field starting at `k` makes that field equal. */
  lemma FieldAgreement(p: string, q: string, k: nat)
    requires Agree(p, q) && k + 2 <= |p|
    requires AllDigits(p[k..k + 2])
    ensures q[k..k + 2] == p[k..k + 2]
  {
  }

  /**
   An independent description of an accepted RAMQ number, field by field:
   the inputs pass their checks, and the number's first twelve characters are
   the surname's first three letters and the given name's first letter (in
   either case), a space, two digits for the year of the century, two digits
   for the month (plus 50 for a woman), a space and two digits for the day.
   */
  predicate AcceptedRamq(numero: string, nom: string, prenom: string,
                         jour: int, mois: int, annee: int, sexe: char) {
    && |numero| == 14 && |nom| >= 3 && |prenom| >= 1
    && AllLetters(nom[..3]) && IsLetter(prenom[0])
    && AllNameChars(prenom + nom)
    && ValidBirthDate(jour, mois, annee)
    && (IsFemale(sexe) || IsMale(sexe))
    && PrefixFields(numero, nom, prenom, annee % 100, if IsFemale(sexe) then mois + 50 else mois, jour)
  }

  /**
   Comparing the upper-cased rebuilt prefix with the upper-cased number is
   the same as reading the number's fields.
   */
  lemma PrefixComparison(numero: string, nom: string, prenom: string, jour: nat, code: nat, annee: nat)
    requires |numero| >= 12 && |nom| >= 3 && |prenom| >= 1
    requires jour < 100 && code < 100
    ensures Upper(BirthPrefix(nom, prenom, jour, code, annee)) == Upper(numero)[..12] <==>
              PrefixFields(numero, nom, prenom, annee % 100, code, jour)
  {
    var p := BirthPrefix(nom, prenom, jour, code, annee);
    var q := numero[..12];
    UpperPrefix(numero, 12);
    UpperEqual(p, q);
    BirthPrefixFields(nom, prenom, jour, code, annee);
    FieldsDetermineAgreement(p, q, nom, prenom, annee % 100, code, jour);
    FieldsOfFirstTwelve(numero, nom, prenom, annee % 100, code, jour);
  }

  /** The rebuilt prefix reads back as the fields it was built from. */
  lemma BirthPrefixFields(nom: string, prenom: string, jour: nat, code: nat, annee: nat)
    requires |nom| >= 3 && |prenom| >= 1
    requires jour < 100 && code < 100
    ensures PrefixFields(BirthPrefix(nom, prenom, jour, code, annee), nom, prenom, annee % 100, code, jour)
  {
  }

  /** Only the first twelve characters are read by the prefix fields. */
  lemma FieldsOfFirstTwelve(numero: string, nom: string, prenom: string, yy: int, mm: int, dd: int)
    requires |numero| >= 12 && |nom| >= 3 && |prenom| >= 1
    ensures PrefixFields(numero[..12], nom, prenom, yy, mm, dd) <==> PrefixFields(numero, nom, prenom, yy, mm, dd)
  {
    var q := numero[..12];
    assert q[5..7] == numero[5..7] && q[7..9] == numero[7..9] && q[10..12] == numero[10..12];
  }

  /** The validator accepts exactly the numbers the field-by-field description accepts. */
  lemma RamqAcceptance(numero: string, nom: string, prenom: string,
                       jour: JavaByte, mois: JavaByte, annee: JavaInt, sexe: char)
    ensures ValidateRamq(numero, nom, prenom, jour, mois, annee, sexe) == Returned(true) <==>
              AcceptedRamq(numero, nom, prenom, jour, mois, annee, sexe)
  {
    if |numero| == 14 && |nom| >= 3 && |prenom| >= 1 {
      assert AllLetters(nom[..3]) <==> IsLetter(nom[0]) && IsLetter(nom[1]) && IsLetter(nom[2]) by {
        assert forall i :: 0 <= i < 3 ==> nom[..3][i] == nom[i];
      }
      if 1 <= mois <= 12 {
        var code := MonthCode(mois, sexe);
        if 1 <= jour <= 31 && annee >= 1910 {
          PrefixComparison(numero, nom, prenom, jour, code, annee);
        }
      }
    }
  }

  /**
   The hardened form of the check: a name too short to index rejects the
   number instead of throwing.
   */
  function ValidateRamqSafe(numero: string, nom: string, prenom: string,
                            jour: JavaByte, mois: JavaByte, annee: JavaInt, sexe: char): (ok: bool)
    ensures ok <==> AcceptedRamq(numero, nom, prenom, jour, mois, annee, sexe)
    ensures |prenom| == 0 || |nom| < 3 ==> !ok
  {
    RamqAcceptance(numero, nom, prenom, jour, mois, annee, sexe);
    ValidateRamq(numero, nom, prenom, jour, mois, annee, sexe) == Returned(true)
  }

  /** An accepted number reads "LLLL DDDD DD??": four letters, a space, four digits, a space, two digits. */
  lemma AcceptedNumberShape(numero: string, nom: string, prenom: string,
                            jour: JavaByte, mois: JavaByte, annee: JavaInt, sexe: char)
    requires ValidateRamq(numero, nom, prenom, jour, mois, annee, sexe) == Returned(true)
    ensures |numero| == 14
    ensures forall i :: 0 <= i < 4 ==> IsLetter(numero[i])
    ensures numero[4] == ' ' && numero[9] == ' '
    ensures forall i :: 5 <= i < 9 || 10 <= i < 12 ==> IsDigit(numero[i])
  {
    RamqAcceptance(numero, nom, prenom, jour, mois, annee, sexe);
    assert forall i :: 0 <= i < 3 ==> IsLetter(nom[..3][i]);
    forall i | 5 <= i < 9 || 10 <= i < 12 ensures IsDigit(numero[i]) {
      if i < 7 {
        assert numero[i] == numero[5..7][i - 5];
      } else if i < 9 {
        assert numero[i] == numero[7..9][i - 7];
      } else {
        assert numero[i] == numero[10..12][i - 10];
      }
    }
  }

  /**
   The number matters only through its length and its first twelve
   characters up to case: characters 12 and 13 and the case of letters never
   change the outcome.
   */
  lemma RamqNumberUpToCase(numero1: string, numero2: string, nom: string, prenom: string,
                           jour: JavaByte, mois: JavaByte, annee: JavaInt, sexe: char)
    requires |numero1| == |numero2|
    requires |numero1| >= 12 ==> Upper(numero1[..12]) == Upper(numero2[..12])
    ensures ValidateRamq(numero1, nom, prenom, jour, mois, annee, sexe) ==
            ValidateRamq(numero2, nom, prenom, jour, mois, annee, sexe)
  {
    if |numero1| >= 12 {
      UpperPrefix(numero1, 12);
      UpperPrefix(numero2, 12);
    }
  }

  /** The year matters only through which side of 1910 it lies and its last two digits. */
  lemma RamqYearModulo(numero: string, nom: string, prenom: string,
                       jour: JavaByte, mois: JavaByte, annee1: JavaInt, annee2: JavaInt, sexe: char)
    requires annee1 % 100 == annee2 % 100
    requires annee1 >= 1910 <==> annee2 >= 1910
    ensures ValidateRamq(numero, nom, prenom, jour, mois, annee1, sexe) ==
            ValidateRamq(numero, nom, prenom, jour, mois, annee2, sexe)
  {
  }

  /**
   Beyond the character check on the whole names, the names matter only
   through the surname's first three characters and the given name's first.
   */
  lemma RamqNamesThroughInitials(numero: string, nom1: string, prenom1: string, nom2: string, prenom2: string,
                                 jour: JavaByte, mois: JavaByte, annee: JavaInt, sexe: char)
    requires |nom1| >= 3 && |nom2| >= 3 && |prenom1| >= 1 && |prenom2| >= 1
    requires nom1[..3] == nom2[..3] && prenom1[0] == prenom2[0]
    requires AllNameChars(prenom1 + nom1) == AllNameChars(prenom2 + nom2)
    ensures ValidateRamq(numero, nom1, prenom1, jour, mois, annee, sexe) ==
            ValidateRamq(numero, nom2, prenom2, jour, mois, annee, sexe)
  {
    assert forall i :: 0 <= i < 3 ==> nom1[i] == nom1[..3][i] == nom2[..3][i] == nom2[i];
    if 1 <= jour <= 31 && 1 <= mois <= 12 && annee >= 1910 {
      var code := MonthCode(mois, sexe);
      assert BirthPrefix(nom1, prenom1, jour, code, annee) == BirthPrefix(nom2, prenom2, jour, code, annee);
    }
  }

  /** `main`'s example is accepted. */
  lemma RamqExampleAccepted(numero: string, nom: string, prenom: string)
    // The inputs arrive as equalities rather than literal arguments: a call whose
    // arguments are all literals makes the verifier unfold all of `ValidateRamq`.
    requires numero == "POIG 9758 0316" && nom == "Poitras" && prenom == "Ginette"
    ensures ValidateRamq(numero, nom, prenom, 3, 8, 1997, 'F') == Returned(true)
  {
    assert AcceptedRamq(numero, nom, prenom, 3, 8, 1997, 'F') by {
      assert AllLetters(nom[..3]);
      assert AllNameChars(prenom + nom);
      assert PrefixFields(numero, nom, prenom, 97, 58, 3) by {
        assert numero[5..7] == [numero[5], numero[6]] == ['9', '7'];
        assert numero[7..9] == [numero[7], numero[8]] == ['5', '8'];
        assert numero[10..12] == [numero[10], numero[11]] == ['0', '3'];
        TwoDigitValue(numero[5..7]);
        TwoDigitValue(numero[7..9]);
        TwoDigitValue(numero[10..12]);
      }
    }
    RamqAcceptance(numero, nom, prenom, 3, 8, 1997, 'F');
  }

  /** The same person with an unknown sex code, or a digit in the given name, is rejected. */
  lemma RamqExampleRejected(numero: string, nom: string, prenom: string, prenom2: string)
    // The inputs arrive as equalities rather than literal arguments: a call whose
    // arguments are all literals makes the verifier unfold all of `ValidateRamq`.
    requires numero == "POIG 9758 0316" && nom == "Poitras" && prenom == "Ginette" && prenom2 == "G1nette"
    ensures ValidateRamq(numero, nom, prenom, 3, 8, 1997, 'X') == Returned(false)
    ensures ValidateRamq(numero, nom, prenom2, 3, 8, 1997, 'F') == Returned(false)
  {
    assert !IsNameChar((prenom2 + nom)[1]);
  }

  /**
   A 14-character number checked against a two-letter surname makes the
   `validerRAMQ` throw instead of answering.
   */
  lemma ShortSurnameThrows(numero: string, nom: string, prenom: string)
    // The inputs arrive as equalities rather than literal arguments: a call whose
    // arguments are all literals makes the verifier unfold all of `ValidateRamq`.
    requires numero == "LIXG 9758 0316" && nom == "Li" && prenom == "Ginette"
    ensures ValidateRamq(numero, nom, prenom, 3, 8, 1997, 'F') == IndexOutOfBounds
    ensures !ValidateRamqSafe(numero, nom, prenom, 3, 8, 1997, 'F')
  {
  }
}
