/** Uzbek phone numbers (utils/validators.py): normalisation to `+998`
    followed by the local number, and validation against `+998` plus exactly
    nine digits. Regular-expression digits are the ASCII digits. */
module Validators {
  import opened Text

  /** The characters `re.sub(r'[^\d+]', '', ...)` keeps. */
  predicate Kept(c: char) {
    IsDigit(c) || c == '+'
  }

  /** `re.sub(r'[^\d+]', '', s)`: the characters of `s` that are digits or
      `+`, in order. */
  function KeepDigitsAndPlus(s: string): (r: string)
    ensures |r| <= |s|
    ensures forall i :: 0 <= i < |r| ==> Kept(r[i])
  {
    if s == [] then []
    else (if Kept(s[0]) then [s[0]] else []) + KeepDigitsAndPlus(s[1..])
  }

  /** Every digit and `+` of the input survives the filter, as often as it
      occurs there. */
  lemma {:induction false} KeepLosesNoKept(s: string, c: char)
    requires Kept(c)
    ensures multiset(KeepDigitsAndPlus(s))[c] == multiset(s)[c]
  {
    if s != [] {
      assert s == [s[0]] + s[1..];
      KeepLosesNoKept(s[1..], c);
    }
  }

  /** The filter works character by character, so it keeps the order of
      the characters it keeps. */
  lemma {:induction false} KeepDistributes(a: string, b: string)
    ensures KeepDigitsAndPlus(a + b) == KeepDigitsAndPlus(a) + KeepDigitsAndPlus(b)
  {
    if a != [] {
      assert (a + b)[1..] == a[1..] + b;
      KeepDistributes(a[1..], b);
    } else {
      assert a + b == b;
    }
  }

  /** Whitespace is dropped by the filter. */
  lemma {:induction false} KeepDropsSpaces(t: string)
    requires forall k :: 0 <= k < |t| ==> IsSpace(t[k])
    ensures KeepDigitsAndPlus(t) == []
  {
    if t != [] {
      assert IsSpace(t[0]);
      KeepDropsSpaces(t[1..]);
    }
  }

  /** The filter keeps a string made only of digits and `+` whole. */
  lemma {:induction false} KeepAllKept(s: string)
    requires forall i :: 0 <= i < |s| ==> Kept(s[i])
    ensures KeepDigitsAndPlus(s) == s
  {
    if s != [] {
      assert Kept(s[0]);
      KeepAllKept(s[1..]);
      assert s == [s[0]] + s[1..];
    }
  }

  /** Whitespace around a string does not change what the filter keeps. */
  lemma KeepIgnoresSpaceEdges(p: string, m: string, q: string)
    requires forall k :: 0 <= k < |p| ==> IsSpace(p[k])
    requires forall k :: 0 <= k < |q| ==> IsSpace(q[k])
    ensures KeepDigitsAndPlus(p + m + q) == KeepDigitsAndPlus(m)
  {
    KeepDistributes(p + m, q);
    KeepDistributes(p, m);
    KeepDropsSpaces(p);
    KeepDropsSpaces(q);
  }

  /** Stripping before filtering makes no difference: `strip()` removes
      only whitespace, which the filter drops anyway. */
  lemma StripBeforeFilterIsMoot(phone: string)
    ensures KeepDigitsAndPlus(Strip(phone)) == KeepDigitsAndPlus(phone)
  {
    StripCutsOnlySpace(phone);
    var i, j :| 0 <= i <= j <= |phone| && Strip(phone) == phone[i..j]
      && (forall k :: 0 <= k < i ==> IsSpace(phone[k]))
      && (forall k :: j <= k < |phone| ==> IsSpace(phone[k]));
    var p, m, q := phone[..i], phone[i..j], phone[j..];
    assert forall k :: 0 <= k < |q| ==> q[k] == phone[j + k];
    assert phone == p + m + q;
    KeepIgnoresSpaceEdges(p, m, q);
  }

  /** The number after `strip()` and the character filter: exactly the
      digits and `+` signs of the input, in their order. */
  function Cleaned(phone: string): (r: string)
    ensures forall i :: 0 <= i < |r| ==> Kept(r[i])
    ensures r == KeepDigitsAndPlus(phone)
  {
    StripBeforeFilterIsMoot(phone);
    KeepDigitsAndPlus(Strip(phone))
  }

  /** The cleaned number without one leading `+`. */
  function LocalPart(cleaned: string): (r: string)
    requires forall i :: 0 <= i < |cleaned| ==> Kept(cleaned[i])
    ensures forall i :: 0 <= i < |r| ==> Kept(r[i])
    ensures StartsWith(cleaned, "+") ==> cleaned == "+" + r
    ensures !StartsWith(cleaned, "+") ==> r == cleaned
  {
    if StartsWith(cleaned, "+") then cleaned[1..] else cleaned
  }

  /** `998` is prepended unless already there. The source has two branches
      that both prepend it. */
  function WithCountryCode(local: string): (r: string)
    ensures StartsWith(r, "998")
    ensures StartsWith(local, "998") ==> r == local
    ensures !StartsWith(local, "998") ==> r == "998" + local
  {
    if StartsWith(local, "998") then local else "998" + local
  }

  /** `normalize_phone`. */
  function NormalizePhone(phone: string): (r: string)
  {
    if phone == [] then [] else "+" + WithCountryCode(LocalPart(Cleaned(phone)))
  }

  /** A digit or `+` is not whitespace. */
  lemma KeptNotSpace(c: char)
    requires Kept(c)
    ensures !IsSpace(c)
  {
  }

  /** A string of digits and `+` comes out of cleaning unchanged. */
  lemma CleanedKeeps(s: string)
    requires forall i :: 0 <= i < |s| ==> Kept(s[i])
    ensures Cleaned(s) == s
  {
    if s != [] {
      KeptNotSpace(s[0]);
      KeptNotSpace(s[|s| - 1]);
      StripNoSpaceEnds(s);
    }
    KeepAllKept(s);
  }

  /** The shape of a normalised number: empty for empty input, otherwise
      `+998` and then only digits and `+`. */
  lemma NormalizeShape(phone: string)
    ensures phone == [] ==> NormalizePhone(phone) == []
    ensures phone != [] ==> StartsWith(NormalizePhone(phone), "+998")
    ensures phone != [] ==> forall i :: 1 <= i < |NormalizePhone(phone)| ==> Kept(NormalizePhone(phone)[i])
  {
    if phone != [] {
      var c := Cleaned(phone);
      var local := LocalPart(c);
      assert forall i :: 0 <= i < |local| ==> Kept(local[i]);
      var body := WithCountryCode(local);
      assert forall i :: 0 <= i < |body| ==> Kept(body[i]) by {
        if !StartsWith(local, "998") {
          forall i | 0 <= i < |body| ensures Kept(body[i]) {
            if i >= 3 {
              assert body[i] == local[i - 3];
            }
          }
        }
      }
      var n := NormalizePhone(phone);
      assert n == "+" + body;
      assert n[..4] == "+" + body[..3];
      forall i | 1 <= i < |n| ensures Kept(n[i]) {
        assert n[i] == body[i - 1];
      }
    }
  }

  /** Normalising a normalised number changes nothing, so `validate_phone`
      may normalise its argument again. */
  lemma NormalizeIdempotent(phone: string)
    ensures NormalizePhone(NormalizePhone(phone)) == NormalizePhone(phone)
  {
    if phone != [] {
      var body := WithCountryCode(LocalPart(Cleaned(phone)));
      NormalizedIsClean(phone);
      NormalizeFixedPoint(NormalizePhone(phone), body);
    }
  }

  /** A normalised number is left alone by `strip()` and the filter. */
  lemma NormalizedIsClean(phone: string)
    requires phone != []
    ensures Cleaned(NormalizePhone(phone)) == NormalizePhone(phone)
  {
    var n := NormalizePhone(phone);
    NormalizeShape(phone);
    assert forall i :: 0 <= i < |n| ==> Kept(n[i]) by {
      assert Kept(n[0]);
    }
    CleanedKeeps(n);
  }

  /** `+` and a number starting with `998`, when the filter keeps it, is a
      fixed point of the normalisation. */
  lemma NormalizeFixedPoint(n: string, body: string)
    requires n == "+" + body && StartsWith(body, "998")
    requires Cleaned(n) == n
    ensures NormalizePhone(n) == n
  {
    assert n[..1] == "+";
    assert n[1..] == body;
    assert LocalPart(n) == body;
  }

  /** `^\+998\d{9}$`. */
  predicate MatchesPattern(n: string) {
    |n| == 13 && StartsWith(n, "+998") && AllDigits(n[4..])
  }

  /** The operator digits accepted after `+998`: all ten. */
  const ValidOperators: set<char> := {'9', '8', '7', '6', '5', '3', '4', '0', '1', '2'}

  datatype PhoneError = Missing | BadOperator | TooShort | TooLong | MissingPrefix | BadFormat

  /** `validate_phone`: whether the number is valid and, if not, which error
      message is returned. */
  function ValidatePhone(phone: string): (r: (bool, Option<PhoneError>))
    ensures r.0 <==> r.1.None?
    ensures phone == [] ==> r == (false, Some(Missing))
  {
    if phone == [] then (false, Some(Missing))
    else
      var n := NormalizePhone(phone);
      if MatchesPattern(n) then
        if n[4] in ValidOperators then (true, None) else (false, Some(BadOperator))
      else if |n| < 13 then (false, Some(TooShort))
      else if |n| > 13 then (false, Some(TooLong))
      else if !StartsWith(n, "+998") then (false, Some(MissingPrefix))
      else (false, Some(BadFormat))
  }

  /** The message text of each error. */
  function ErrorText(e: PhoneError): string
  {
    match e
    case Missing => "Telefon raqami kiritilmagan."
    case BadOperator => "Noto'g'ri operator kodi. O'zbekiston telefon raqami +998 dan keyin 9, 8, 7, 6, 5, 3, 4, 0 yoki 1 bilan boshlanishi kerak.\nMasalan: +998901234567"
    case TooShort => "Telefon raqami juda qisqa. O'zbekiston raqami +998 bilan boshlanib, undan keyin 9 ta raqam bo'lishi kerak.\nMasalan: +998901234567"
    case TooLong => "Telefon raqami juda uzun. O'zbekiston raqami +998 bilan boshlanib, undan keyin 9 ta raqam bo'lishi kerak.\nMasalan: +998901234567"
    case MissingPrefix => "Telefon raqami +998 bilan boshlanishi kerak.\nMasalan: +998901234567"
    case BadFormat => "Noto'g'ri telefon raqam formati. O'zbekiston raqami +998 bilan boshlanib, undan keyin 9 ta raqam bo'lishi kerak.\nMasalan: +998901234567"
  }

  /** A number is valid exactly when its normalised form is `+998` and nine
      digits. The operator and prefix errors never occur; the other errors
      are decided by the normalised length alone. */
  lemma ValidityCondition(phone: string)
    ensures ValidatePhone(phone).0 <==> phone != [] && MatchesPattern(NormalizePhone(phone))
    ensures ValidatePhone(phone).1 != Some(BadOperator)
    ensures ValidatePhone(phone).1 != Some(MissingPrefix)
    ensures phone != [] ==>
      (ValidatePhone(phone).1 == Some(TooShort) <==> |NormalizePhone(phone)| < 13)
    ensures phone != [] ==>
      (ValidatePhone(phone).1 == Some(TooLong) <==> |NormalizePhone(phone)| > 13)
    ensures phone != [] ==>
      (ValidatePhone(phone).1 == Some(BadFormat) <==>
         |NormalizePhone(phone)| == 13 && !MatchesPattern(NormalizePhone(phone)))
  {
    if phone != [] {
      NormalizeShape(phone);
      var n := NormalizePhone(phone);
      assert StartsWith(n, "+998");
      if MatchesPattern(n) {
        assert n[4] == n[4..][0];
        DigitIsOperator(n[4]);
        assert ValidatePhone(phone) == (true, None);
      } else if |n| < 13 {
        assert ValidatePhone(phone) == (false, Some(TooShort));
      } else if |n| > 13 {
        assert ValidatePhone(phone) == (false, Some(TooLong));
      } else {
        assert ValidatePhone(phone) == (false, Some(BadFormat));
      }
    }
  }

  /** Every digit is one of the accepted operator digits. */
  lemma DigitIsOperator(c: char)
    requires IsDigit(c)
    ensures c in ValidOperators
  {
  }

  /** Validating an already normalised number gives the same answer. */
  lemma ValidateNormalized(phone: string)
    ensures ValidatePhone(NormalizePhone(phone)) == ValidatePhone(phone)
  {
    NormalizeIdempotent(phone);
    NormalizeShape(phone);
  }

  /** `is_uzbek_phone`. */
  function IsUzbekPhone(phone: string): (r: bool)
    ensures r <==> phone != [] && MatchesPattern(NormalizePhone(phone))
  {
    ValidityCondition(phone);
    ValidatePhone(phone).0
  }

  /** A full international number is kept as it is. */
  lemma InternationalNumberKept(digits: string)
    requires |digits| == 9 && AllDigits(digits)
    ensures NormalizePhone("+998" + digits) == "+998" + digits
    ensures ValidatePhone("+998" + digits) == (true, None)
  {
    var n := "+998" + digits;
    assert forall i :: 0 <= i < |n| ==> Kept(n[i]) by {
      forall i | 0 <= i < |n| ensures Kept(n[i]) {
        if i >= 4 {
          assert n[i] == digits[i - 4];
        }
      }
    }
    CleanedKeeps(n);
    assert n == "+" + ("998" + digits);
    NormalizeFixedPoint(n, "998" + digits);
    assert n[4..] == digits;
    assert MatchesPattern(n);
    ValidityCondition(n);
  }

  // ---------------------------------------------------------------------
  // A nine-digit local number that begins with 998

  /** The local numbers the prepend branch is written for: nine digits
      beginning with 9, as in `901234567`. */
  predicate LocalNumber(d: string) {
    |d| == 9 && AllDigits(d) && d[0] == '9'
  }

  /** A local number is made of digits, so cleaning keeps it and there is no
      `+` to drop. */
  lemma LocalNumberIsLocalPart(d: string)
    requires LocalNumber(d)
    ensures LocalPart(Cleaned(d)) == d
  {
    assert forall i :: 0 <= i < |d| ==> Kept(d[i]);
    CleanedKeeps(d);
    assert !StartsWith(d, "+") by {
      assert d[..1][0] == '9';
    }
  }

  /** As written, a local number that begins with 998 (operator 99, as in
      `998123456`) is taken to carry the country code already, gets none,
      and is rejected as too short. */
  lemma LocalNumberWithLeading998Rejected(d: string)
    requires LocalNumber(d) && StartsWith(d, "998")
    ensures NormalizePhone(d) == "+" + d
    ensures ValidatePhone(d) == (false, Some(TooShort))
  {
    LocalNumberIsLocalPart(d);
  }

  /** `998123456` is such a number. */
  lemma LocalNumberWithLeading998Exists()
    ensures LocalNumber("998123456") && StartsWith("998123456", "998")
  {
    var d := "998123456";
    assert d[..3] == "998";
  }

  /** The normalisation with the local-number case decided first: a cleaned
      nine-digit number beginning with 9 always gets the country code. */
  function NormalizePhoneLocalFirst(phone: string): (r: string)
  {
    if phone == [] then []
    else
      var local := LocalPart(Cleaned(phone));
      if LocalNumber(local) then "+998" + local else "+" + WithCountryCode(local)
  }

  /** Every local number normalises to `+998` followed by it, and is valid. */
  lemma LocalNumberAccepted(d: string)
    requires LocalNumber(d)
    ensures NormalizePhoneLocalFirst(d) == "+998" + d
    ensures MatchesPattern(NormalizePhoneLocalFirst(d))
  {
    LocalNumberIsLocalPart(d);
    assert ("+998" + d)[4..] == d;
  }

  /** The two normalisations differ only on local numbers beginning with 998. */
  lemma LocalFirstAgreesElsewhere(phone: string)
    ensures NormalizePhoneLocalFirst(phone) != NormalizePhone(phone) ==>
      LocalNumber(LocalPart(Cleaned(phone))) && StartsWith(LocalPart(Cleaned(phone)), "998")
  {
    if phone != [] {
      var local := LocalPart(Cleaned(phone));
      if LocalNumber(local) && !StartsWith(local, "998") {
        assert "+" + WithCountryCode(local) == "+998" + local;
      }
    }
  }

  // ---------------------------------------------------------------------
  // The registration check (handlers/users/start.py)

  /** Python truthiness of the pair `validate_phone` returns: a non-empty
      tuple is always true, whatever it holds. */
  predicate PairTruthy(r: (bool, Option<PhoneError>)) {
    true
  }

  /** As written, registration rejects a phone when `not validate_phone(phone)`. */
  predicate RegistrationRejectsAsWritten(text: string) {
    !PairTruthy(ValidatePhone(NormalizePhone(text)))
  }

  /** It never rejects: `abc` is registered as `+998`, an invalid number. */
  lemma RegistrationNeverRejects(text: string)
    ensures !RegistrationRejectsAsWritten(text)
    ensures !RegistrationRejectsAsWritten("abc") && !IsUzbekPhone(NormalizePhone("abc"))
  {
    assert NormalizePhone("abc") == "+998" by {
      assert KeepDigitsAndPlus("abc") == [];
      assert Strip("abc") == "abc" by { StripNoSpaceEnds("abc"); }
    }
    NormalizeIdempotent("abc");
  }

  /** Registration testing the validity flag instead. */
  predicate RegistrationRejects(text: string) {
    !ValidatePhone(NormalizePhone(text)).0
  }

  /** A registration that is not rejected stores a number of the form `+998`
      and nine digits, the same one `is_uzbek_phone` accepts. */
  lemma RegistrationStoresValidNumbers(text: string)
    ensures !RegistrationRejects(text) <==> IsUzbekPhone(text)
    ensures !RegistrationRejects(text) ==> MatchesPattern(NormalizePhone(text))
  {
    ValidateNormalized(text);
    ValidityCondition(text);
    NormalizeIdempotent(text);
  }
}
