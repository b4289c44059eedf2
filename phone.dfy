/**
 * The phone-number filter, `is_likely_phone_number` (app.py:57-60): a
 * search for an optional country code (an optional '+', one to three
 * digits and an optional separator), an optional '(', three digits, an
 * optional ')', an optional separator, three digits, an optional separator
 * and four digits ending at a word boundary. Only whether some match exists is used, so the pattern is read as a
 * list of pieces and matched by trying every way each piece can match.
 * The optional leading group with its `\d{1,3}` becomes four variants of
 * the pattern: no country code, or a code of one, two or three digits.
 */
module PhoneFilter {
  import opened PyStr
  import opened Patterns
  import opened PatternFacts

  /** The class `[-.\s]`. */
  predicate IsPhoneSep(c: char) {
    c == '-' || c == '.' || IsSpace(c)
  }

  /** A piece of the pattern: `c?`, `[-.\s]?`, `\d{n}` or `\b`. */
  datatype Piece = OptChar(c: char) | OptSep | Digits(n: nat) | WordEnd

  /** A pattern is a list of pieces matched one after the other. */
  datatype Pattern = Done | Then(head: Piece, rest: Pattern)

  /** `\d{4}\b`, the end of every variant. */
  const FourDigitsTail: Pattern := Then(Digits(4), Then(WordEnd, Done))

  /** The pattern after the optional country-code group: area code, exchange and line number. */
  const LocalPattern: Pattern :=
    Then(OptChar('('), Then(Digits(3), Then(OptChar(')'), Then(OptSep,
    Then(Digits(3), Then(OptSep, FourDigitsTail))))))

  /** `\+?\d{n}[-.\s]?` followed by the local pattern. */
  function WithCode(n: nat): Pattern {
    Then(OptChar('+'), Then(Digits(n), Then(OptSep, LocalPattern)))
  }

  /** Some way of matching `pat` starting at position `p`. */
  predicate Matches(s: string, p: nat, pat: Pattern)
    decreases pat
  {
    match pat
    case Done => true
    case Then(OptChar(c), rest) =>
      Matches(s, p, rest) || (p < |s| && s[p] == c && Matches(s, p + 1, rest))
    case Then(OptSep, rest) =>
      Matches(s, p, rest) || (p < |s| && IsPhoneSep(s[p]) && Matches(s, p + 1, rest))
    case Then(Digits(n), rest) =>
      p + n <= |s| && AllDigits(s[p..p + n]) && Matches(s, p + n, rest)
    case Then(WordEnd, rest) =>
      Boundary(s, p) && Matches(s, p, rest)
  }

  /** The pattern without the optional group (`n == 0`) or with a country code of `n` digits. */
  function Variant(n: nat): Pattern {
    if n == 0 then LocalPattern else WithCode(n)
  }

  /** The pattern matches at `i`: `\d{1,3}` allows codes of one to three digits. */
  predicate PhoneMatchAt(text: string, i: nat) {
    exists n: nat :: n <= 3 && Matches(text, i, Variant(n))
  }

  /** The phone pattern matches somewhere in `text`. */
  predicate IsLikelyPhoneNumber(text: string) {
    exists i: nat :: i <= |text| && PhoneMatchAt(text, i)
  }

  /** One matching variant at one position makes the text a phone number. */
  lemma MatchIsPhone(s: string, i: nat, n: nat)
    requires i <= |s| && n <= 3 && Matches(s, i, Variant(n))
    ensures IsLikelyPhoneNumber(s)
  {
    assert PhoneMatchAt(s, i);
  }

  /** `tail` is what remains of `pat` after some of its leading pieces. */
  predicate EndsWithPattern(pat: Pattern, tail: Pattern) {
    pat == tail || (pat.Then? && EndsWithPattern(pat.rest, tail))
  }

  /** Whatever the leading pieces match, some later position is reached from which `tail` matches. */
  lemma {:induction false} MatchesReach(s: string, p: nat, pat: Pattern, tail: Pattern)
    requires Matches(s, p, pat) && EndsWithPattern(pat, tail)
    ensures exists q: nat :: p <= q && Matches(s, q, tail)
    decreases pat
  {
    if pat != tail {
      match pat
      case Then(OptChar(c), rest) =>
        if Matches(s, p, rest) {
          MatchesReach(s, p, rest, tail);
        } else {
          MatchesReach(s, p + 1, rest, tail);
        }
      case Then(OptSep, rest) =>
        if Matches(s, p, rest) {
          MatchesReach(s, p, rest, tail);
        } else {
          MatchesReach(s, p + 1, rest, tail);
        }
      case Then(Digits(n), rest) =>
        MatchesReach(s, p + n, rest, tail);
      case Then(WordEnd, rest) =>
        MatchesReach(s, p, rest, tail);
    }
  }

  /** `c?` consuming the character `c`. */
  lemma TakeChar(s: string, p: nat, c: char, rest: Pattern)
    requires p < |s| && s[p] == c && Matches(s, p + 1, rest)
    ensures Matches(s, p, Then(OptChar(c), rest))
  {
  }

  /** `[-.\s]?` consuming a separator. */
  lemma TakeSep(s: string, p: nat, rest: Pattern)
    requires p < |s| && IsPhoneSep(s[p]) && Matches(s, p + 1, rest)
    ensures Matches(s, p, Then(OptSep, rest))
  {
  }

  /** `\d{n}` consuming `n` digits. */
  lemma TakeDigits(s: string, p: nat, n: nat, rest: Pattern)
    requires p + n <= |s| && AllDigits(s[p..p + n]) && Matches(s, p + n, rest)
    ensures Matches(s, p, Then(Digits(n), rest))
  {
  }

  /** Four digits end at `j`, and no word character follows them. */
  predicate FourDigitsEndAt(s: string, j: nat) {
    4 <= j <= |s| && AllDigits(s[j - 4..j]) && (j == |s| || !IsWord(s[j]))
  }

  /** `\d{4}\b` matched at `q`: the four digits end at a word boundary. */
  lemma FourDigitsThenWordEnd(s: string, q: nat)
    requires Matches(s, q, FourDigitsTail)
    ensures FourDigitsEndAt(s, q + 4)
  {
    assert Boundary(s, q + 4);
    AllDigitsAt(s, q, q + 4, q + 3);
  }

  /** Four digits at `j` that end at a word boundary match `\d{4}\b`. */
  lemma FourDigitsTailAt(s: string, j: nat)
    requires j + 4 <= |s| && AllDigits(s[j..j + 4])
    requires j + 4 == |s| || !IsWord(s[j + 4])
    ensures Matches(s, j, FourDigitsTail)
  {
    AllDigitsAt(s, j, j + 4, j + 3);
    assert Boundary(s, j + 4);
  }

  /** "<3 digits><sep><3 digits><sep><4 digits>" at `a`, ending at a word boundary. */
  predicate LocalShape(s: string, a: nat) {
    && a + 12 <= |s|
    && AllDigits(s[a..a + 3]) && IsPhoneSep(s[a + 3])
    && AllDigits(s[a + 4..a + 7]) && IsPhoneSep(s[a + 7])
    && AllDigits(s[a + 8..a + 12])
    && (a + 12 == |s| || !IsWord(s[a + 12]))
  }

  /** A local number matches the local pattern. */
  lemma LocalNumber(s: string, a: nat)
    requires LocalShape(s, a)
    ensures Matches(s, a, LocalPattern)
  {
    FourDigitsTailAt(s, a + 8);
    TakeSep(s, a + 7, FourDigitsTail);
    var p3 := Then(Digits(3), Then(OptSep, FourDigitsTail));
    TakeDigits(s, a + 4, 3, Then(OptSep, FourDigitsTail));
    TakeSep(s, a + 3, p3);
    var p1 := Then(OptChar(')'), Then(OptSep, p3));
    assert Matches(s, a + 3, p1);
    TakeDigits(s, a, 3, p1);
  }

  /** Ten digits in a row that end at a word boundary are a phone number. */
  lemma PhoneOfTenDigits(s: string, i: nat)
    requires i + 10 <= |s| && AllDigits(s[i..i + 10])
    requires i + 10 == |s| || !IsWord(s[i + 10])
    ensures IsLikelyPhoneNumber(s)
  {
    AllDigitsSlice(s, i, i + 10, i, i + 3);
    AllDigitsSlice(s, i, i + 10, i + 3, i + 6);
    AllDigitsSlice(s, i, i + 10, i + 6, i + 10);
    FourDigitsTailAt(s, i + 6);
    var p4 := Then(OptSep, FourDigitsTail);
    assert Matches(s, i + 6, p4);
    TakeDigits(s, i + 3, 3, p4);
    var p3 := Then(OptSep, Then(Digits(3), p4));
    assert Matches(s, i + 3, p3);
    var p1 := Then(OptChar(')'), p3);
    assert Matches(s, i + 3, p1);
    TakeDigits(s, i, 3, p1);
    MatchIsPhone(s, i, 0);
  }

  /** Every variant of the pattern ends with `\d{4}\b`. */
  lemma VariantEndsWithFourDigits(n: nat)
    ensures EndsWithPattern(Variant(n), FourDigitsTail)
  {
    var p := Then(OptSep, FourDigitsTail);
    assert EndsWithPattern(p, FourDigitsTail);
    p := Then(Digits(3), p);
    assert EndsWithPattern(p, FourDigitsTail);
    p := Then(OptSep, p);
    assert EndsWithPattern(p, FourDigitsTail);
    p := Then(OptChar(')'), p);
    assert EndsWithPattern(p, FourDigitsTail);
    p := Then(Digits(3), p);
    assert EndsWithPattern(p, FourDigitsTail);
    p := Then(OptChar('('), p);
    assert p == LocalPattern;
    if n != 0 {
      p := Then(OptSep, p);
      assert EndsWithPattern(p, FourDigitsTail);
      p := Then(Digits(n), p);
      assert EndsWithPattern(p, FourDigitsTail);
      p := Then(OptChar('+'), p);
      assert p == WithCode(n);
    }
  }

  /** Every phone match ends with four digits followed by a word boundary. */
  lemma PhoneNeedsFourDigits(s: string)
    requires IsLikelyPhoneNumber(s)
    ensures exists j: nat :: FourDigitsEndAt(s, j)
  {
    var i: nat :| i <= |s| && PhoneMatchAt(s, i);
    var n: nat :| n <= 3 && Matches(s, i, Variant(n));
    VariantEndsWithFourDigits(n);
    MatchesReach(s, i, Variant(n), FourDigitsTail);
    var q: nat :| i <= q && Matches(s, q, FourDigitsTail);
    FourDigitsThenWordEnd(s, q);
  }

  /** Hence text without a digit is never taken for a phone number. */
  lemma NoDigitsNoPhone(s: string)
    requires forall k :: 0 <= k < |s| ==> !IsDigit(s[k])
    ensures !IsLikelyPhoneNumber(s)
  {
    forall j: nat ensures !FourDigitsEndAt(s, j) {
      if 4 <= j <= |s| {
        assert s[j - 4..j][0] == s[j - 4];
      }
    }
    if IsLikelyPhoneNumber(s) {
      PhoneNeedsFourDigits(s);
    }
  }

  /** "+<n digits><sep>" at `i`. */
  predicate CodeShape(s: string, i: nat, n: nat) {
    i + n + 2 <= |s| && s[i] == '+' && AllDigits(s[i + 1..i + n + 1]) && IsPhoneSep(s[i + n + 1])
  }

  /** "+<n digits><sep>" in front of whatever matches `rest` matches `\+?\d{n}[-.\s]?` then `rest`. */
  lemma CountryCode(s: string, i: nat, n: nat, rest: Pattern)
    requires CodeShape(s, i, n) && Matches(s, i + n + 2, rest)
    ensures Matches(s, i, Then(OptChar('+'), Then(Digits(n), Then(OptSep, rest))))
  {
    TakeSep(s, i + n + 1, rest);
    TakeDigits(s, i + 1, n, Then(OptSep, rest));
    TakeChar(s, i, '+', Then(Digits(n), Then(OptSep, rest)));
  }

  /**
   * A number in the international shape "+<1-3 digit code><sep><3 digits><sep><3 digits><sep><4 digits>"
   * that ends at a word boundary is recognised.
   */
  lemma PhoneWithCountryCode(s: string, i: nat, n: nat)
    requires 1 <= n <= 3 && CodeShape(s, i, n) && LocalShape(s, i + n + 2)
    ensures IsLikelyPhoneNumber(s)
  {
    LocalNumber(s, i + n + 2);
    CountryCode(s, i, n, LocalPattern);
    assert Variant(n) == Then(OptChar('+'), Then(Digits(n), Then(OptSep, LocalPattern)));
    MatchIsPhone(s, i, n);
  }

  /** The international example "+1-800-555-1234" is a phone number. */
  lemma InternationalNumberIsPhone()
    ensures IsLikelyPhoneNumber("+1-800-555-1234")
  {
    var s := "+1-800-555-1234";
    assert CodeShape(s, 0, 1) by {
      assert AllDigits(s[1..2]);
    }
    assert LocalShape(s, 3) by {
      assert AllDigits(s[3..6]) && AllDigits(s[7..10]) && AllDigits(s[11..15]);
    }
    PhoneWithCountryCode(s, 0, 1);
  }
}
