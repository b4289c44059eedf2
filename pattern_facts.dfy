/**
 * Facts about the hand-written matchers: that they take the only path the
 * regex engine's backtracking can succeed on, that each search returns the
 * match at the first position, and what the groups app.py inspects hold.
 */
module PatternFacts {
  import opened Results
  import opened PyStr
  import opened Patterns

  // ---------------------------------------------------------------------------
  // Runs

  lemma {:induction false} DigitRunIs(s: string, i: nat, e: nat)
    requires i <= e <= |s|
    requires forall k :: i <= k < e ==> IsDigit(s[k])
    requires e < |s| ==> !IsDigit(s[e])
    ensures DigitRun(s, i) == e
    decreases e - i
  {
    if i < e {
      DigitRunIs(s, i + 1, e);
    }
  }

  lemma {:induction false} SpaceRunIs(s: string, i: nat, e: nat)
    requires i <= e <= |s|
    requires forall k :: i <= k < e ==> IsSpace(s[k])
    requires e < |s| ==> !IsSpace(s[e])
    ensures SpaceRun(s, i) == e
    decreases e - i
  {
    if i < e {
      SpaceRunIs(s, i + 1, e);
    }
  }

  lemma SliceCons(s: string, i: nat, j: nat)
    requires i < j <= |s|
    ensures s[i..j] == [s[i]] + s[i + 1..j]
  {
  }

  lemma AllDigitsAt(s: string, a: nat, b: nat, k: nat)
    requires a <= k < b <= |s| && AllDigits(s[a..b])
    ensures IsDigit(s[k])
  {
    assert s[a..b][k - a] == s[k];
  }

  lemma AllDigitsSlice(s: string, a: nat, b: nat, c: nat, d: nat)
    requires a <= c <= d <= b <= |s| && AllDigits(s[a..b])
    ensures AllDigits(s[c..d])
  {
    forall k | 0 <= k < d - c ensures IsDigit(s[c..d][k]) {
      AllDigitsAt(s, a, b, c + k);
    }
  }

  // ---------------------------------------------------------------------------
  // number_pattern

  /**
   * Every way number_pattern can match at a position is one of the
   * candidates the matcher lists, so the backtracking order between the
   * two candidates is all that is left to model.
   */
  lemma NumberCandidatesComplete(s: string, n: Num)
    requires NumberToken(s, n)
    ensures n in NumberCandidates(s, n.start)
  {
    var i, m, p := n.start, n.intEnd, n.end;
    forall k | i <= k < m ensures IsDigit(s[k]) {
      AllDigitsAt(s, i, m, k);
    }
    AllDigitsAt(s, i, m, i);
    // `\b` between two digits fails, and a digit is not the fraction's '.'
    assert m < |s| ==> !IsDigit(s[m]);
    DigitRunIs(s, i, m);
    if p == m {
      assert Num(i, m, m) in NumberCandidates(s, i);
    } else {
      forall k | m + 1 <= k < p ensures IsDigit(s[k]) {
        AllDigitsAt(s, m + 1, p, k);
      }
      AllDigitsAt(s, m + 1, p, m + 1);
      assert WordBefore(s, p);
      assert p < |s| ==> !IsDigit(s[p]);
      DigitRunIs(s, m + 1, p);
      assert FractionEnd(s, m) == p;
      assert Num(i, m, p) in NumberCandidates(s, i);
    }
  }

  // ---------------------------------------------------------------------------
  // Punctuation strip

  /** One character is deleted exactly when it is punctuation. */
  lemma RemovePunctChar(c: char)
    ensures RemovePunct([c]) == if IsPunct(c) then [] else [c]
  {
    assert [c][1..] == [];
  }

  /**
   * The strip works character by character: the rest of the text is kept
   * in order, with every occurrence of a character kept or deleted alike.
   */
  lemma {:induction false} RemovePunctAppend(a: string, b: string)
    ensures RemovePunct(a + b) == RemovePunct(a) + RemovePunct(b)
  {
    if a != [] {
      assert (a + b)[1..] == a[1..] + b;
      RemovePunctAppend(a[1..], b);
    } else {
      assert a + b == b;
    }
  }

  // ---------------------------------------------------------------------------
  // Unit fragment of the name cleanup

  /**
   * A match of the unit-fragment pattern at `i` exists exactly
   * when the matcher reports one, and then it is the one the matcher
   * reports: no backtracking path ends elsewhere.
   */
  lemma UnitFragmentComplete(s: string, unit: string, i: nat, a: nat, m: nat, p: nat, q: nat, e: nat)
    requires |unit| > 0 && IsLowerLetter(unit[0])
    requires UnitFragmentSplit(s, unit, i, a, m, p, q, e)
    ensures UnitFragmentAt(s, i, unit) == Some(e)
  {
    assert LowerChar(s[q]) == unit[0] by {
      assert Lower(s[q..q + |unit|])[0] == LowerChar(s[q]);
    }
    assert !IsDigit(s[q]) && !IsSpace(s[q]) && s[q] != '.';
    assert p < |s| ==> !IsDigit(s[p]) && (p == m ==> s[p] != '.');
    DigitRunOf(s, a, m);
    SpaceRunIs(s, i, a);
    FractionEndIs(s, m, p);
    SpaceRunIs(s, p, q);
  }

  /** The digits `a..m`, not followed by a digit, are the greedy `\d+` at `a`. */
  lemma DigitRunOf(s: string, a: nat, m: nat)
    requires a < m <= |s| && AllDigits(s[a..m]) && (m < |s| ==> !IsDigit(s[m]))
    ensures IsDigit(s[a]) && DigitRun(s, a) == m
  {
    forall k | a <= k < m ensures IsDigit(s[k]) {
      AllDigitsAt(s, a, m, k);
    }
    DigitRunIs(s, a, m);
  }

  /** A fraction `m..p` (empty, or a '.' and digits) that no digit follows is the greedy `(\.\d+)?`. */
  lemma FractionEndIs(s: string, m: nat, p: nat)
    requires m <= p <= |s|
    requires p == m || (m + 1 < p && s[m] == '.' && AllDigits(s[m + 1..p]))
    requires p == m ==> m == |s| || s[m] != '.'
    requires p < |s| ==> !IsDigit(s[p])
    ensures FractionEnd(s, m) == p
  {
    if p != m {
      DigitRunOf(s, m + 1, p);
    }
  }

  /**
   * A fragment that ends the text, with no fragment starting before it,
   * is deleted and everything before it is kept.
   */
  lemma {:induction false} TrailingFragmentRemoved(s: string, unit: string, i: nat, j: nat)
    requires i <= j < |s|
    requires forall k :: i <= k < j ==> UnitFragmentAt(s, k, unit).None?
    requires UnitFragmentAt(s, j, unit) == Some(|s|)
    ensures RemoveUnitFragments(s, unit, i) == s[i..j]
    decreases j - i
  {
    if i < j {
      assert UnitFragmentAt(s, i, unit).None?;
      assert RemoveUnitFragments(s, unit, i) == [s[i]] + RemoveUnitFragments(s, unit, i + 1);
      TrailingFragmentRemoved(s, unit, i + 1, j);
      SliceCons(s, i, j);
    } else {
      assert RemoveUnitFragments(s, unit, i) == RemoveUnitFragments(s, unit, |s|);
    }
  }

  /** What the matcher reports is a genuine match of the fragment pattern. */
  lemma UnitFragmentSound(s: string, unit: string, i: nat)
    requires i <= |s|
    requires UnitFragmentAt(s, i, unit).Some?
    ensures var a := SpaceRun(s, i);
            var m := DigitRun(s, a);
            var p := FractionEnd(s, m);
            UnitFragmentSplit(s, unit, i, a, m, p, SpaceRun(s, p), UnitFragmentAt(s, i, unit).value)
  {
    var a := SpaceRun(s, i);
    var m := DigitRun(s, a);
    assert AllDigits(s[a..m]);
  }

  // ---------------------------------------------------------------------------
  // Triplet

  /** A separator starts with whitespace or its '-', so never with a digit. */
  lemma DashSepStart(s: string, a: nat, b: nat)
    requires DashSep(s, a, b)
    ensures a < |s| && !IsDigit(s[a])
  {
    var d :| a <= d < b <= |s| && s[d] == '-'
      && (forall k :: a <= k < d ==> IsSpace(s[k])) && (forall k :: d < k < b ==> IsSpace(s[k]));
  }

  /** The matcher finds the separator `a..b` and the digits `b..c` after it. */
  lemma DashNumberIs(s: string, a: nat, b: nat, c: nat)
    requires DashSep(s, a, b) && DigitsEndAt(s, b, c)
    ensures DashNumber(s, a) == Some((b, c))
  {
    var d :| a <= d < b <= |s| && s[d] == '-'
      && (forall k :: a <= k < d ==> IsSpace(s[k])) && (forall k :: d < k < b ==> IsSpace(s[k]));
    SpaceRunIs(s, a, d);
    AllDigitsAt(s, b, c, b);
    SpaceRunIs(s, d + 1, b);
    DigitRunOf(s, b, c);
    DashNumberUnfold(s, a, d, b, c);
  }

  lemma DashNumberUnfold(s: string, a: nat, d: nat, b: nat, c: nat)
    requires a <= d < b < c <= |s| && s[d] == '-' && IsDigit(s[b])
    requires SpaceRun(s, a) == d && SpaceRun(s, d + 1) == b && DigitRun(s, b) == c
    ensures DashNumber(s, a) == Some((b, c))
  {
  }

  /**
   * Every way the triplet pattern can match at `i` is the match the
   * matcher reports there, with the same three groups.
   */
  lemma TripletComplete(s: string, i: nat, a: nat, b: nat, c: nat, d: nat, e: nat)
    requires TripletSplit(s, i, a, b, c, d, e)
    ensures TripletAt(s, i) == Some(Triplet(s[i..a], s[b..c], s[d..e]))
  {
    DashSepStart(s, a, b);
    DashSepStart(s, c, d);
    DigitRunOf(s, i, a);
    DashNumberIs(s, a, b, c);
    AllDigitsAt(s, d, e, e - 1);
    assert e < |s| ==> !IsDigit(s[e]) by {
      assert WordBefore(s, e);
    }
    DashNumberIs(s, c, d, e);
  }

  /** No way for the triplet pattern to match starts before `i`. */
  ghost predicate NoTripletBefore(s: string, i: nat) {
    forall k: nat, t: Triplet :: k < i ==> !TripletMatch(s, k, t)
  }

  /**
   * The triplet search returns the groups of the first position at which
   * the triplet pattern can match.
   */
  lemma TripletSearchFirst(s: string, i: nat, a: nat, b: nat, c: nat, d: nat, e: nat)
    requires TripletSplit(s, i, a, b, c, d, e) && NoTripletBefore(s, i)
    ensures TripletSearch(s) == Some(Triplet(s[i..a], s[b..c], s[d..e]))
  {
    TripletComplete(s, i, a, b, c, d, e);
    var at := (k: nat) => TripletAt(s, k);
    forall k | 0 <= k < i ensures at(k).None? {
      assert at(k) == TripletAt(s, k);
    }
    assert at(i) == TripletAt(s, i);
    assert TripletSearch(s) == Leftmost(|s|, 0, at);
  }

  /** Without any way for the triplet pattern to match, the search finds nothing. */
  lemma NoTripletFound(s: string)
    requires NoTripletBefore(s, |s| + 1)
    ensures TripletSearch(s).None?
  {
  }

  // ---------------------------------------------------------------------------
  // Bare number

  /** The bare-number pattern matches at `i` exactly when a number token starts there. */
  lemma NumberOnlyAtIff(s: string, i: nat)
    ensures NumberOnlyAt(s, i).Some? <==> exists m: Num :: m.start == i && NumberToken(s, m)
  {
    if m: Num :| m.start == i && NumberToken(s, m) {
      NumberCandidatesComplete(s, m);
    }
  }

  /** Where it matches, it reports the longest number token starting there. */
  lemma NumberOnlyAtLongest(s: string, n: Num)
    requires LongestNumberAt(s, n)
    ensures NumberOnlyAt(s, n.start) == Some(s[n.start..n.end])
  {
    NumberCandidatesComplete(s, n);
    var cs := NumberCandidates(s, n.start);
    assert cs[0] in cs;
  }

  /** Where the bare-number pattern matches, it reports the longest number token starting there. */
  lemma NumberOnlyAtReports(s: string, j: nat) returns (n: Num)
    requires NumberOnlyAt(s, j).Some?
    ensures n.start == j && LongestNumberAt(s, n) && NumberOnlyAt(s, j) == Some(s[n.start..n.end])
  {
    var cs := NumberCandidates(s, j);
    n := cs[0];
    assert n in cs;
    forall m | NumberToken(s, m) && m.start == j ensures m.end <= n.end {
      NumberCandidatesComplete(s, m);
    }
  }

  /** The bare-number search reports the longest number at the first position where one starts. */
  lemma NumberOnlySearchFirst(s: string, n: Num)
    requires FirstNumber(s, n)
    ensures NumberOnlySearch(s) == Some(s[n.start..n.end])
  {
    var at := (i: nat) => NumberOnlyAt(s, i);
    forall k | 0 <= k < n.start ensures at(k).None? {
      NumberOnlyAtIff(s, k);
      assert at(k) == NumberOnlyAt(s, k);
    }
    NumberOnlyAtLongest(s, n);
    assert at(n.start) == NumberOnlyAt(s, n.start);
    assert NumberOnlySearch(s) == Leftmost(|s|, 0, at);
  }

  /** A bare number the search reports is the longest number at the first position where one starts. */
  lemma NumberOnlySearchSound(s: string) returns (n: Num)
    requires NumberOnlySearch(s).Some?
    ensures FirstNumber(s, n) && NumberOnlySearch(s) == Some(s[n.start..n.end])
  {
    var at := (i: nat) => NumberOnlyAt(s, i);
    assert NumberOnlySearch(s) == Leftmost(|s|, 0, at);
    var j :| 0 <= j <= |s| && at(j) == NumberOnlySearch(s) && forall k :: 0 <= k < j ==> at(k).None?;
    assert at(j) == NumberOnlyAt(s, j);
    n := NumberOnlyAtReports(s, j);
    forall m | NumberToken(s, m) ensures j <= m.start {
      NumberOnlyAtIff(s, m.start);
      assert at(m.start) == NumberOnlyAt(s, m.start);
    }
  }

  /** The bare-number search finds something exactly when the line holds a number token. */
  lemma NumberOnlySearchIff(s: string)
    ensures NumberOnlySearch(s).Some? <==> exists m :: NumberToken(s, m)
  {
    if NumberOnlySearch(s).Some? {
      var n := NumberOnlySearchSound(s);
    }
    if m :| NumberToken(s, m) {
      var at := (i: nat) => NumberOnlyAt(s, i);
      NumberOnlyAtIff(s, m.start);
      assert at(m.start) == NumberOnlyAt(s, m.start);
      assert NumberOnlySearch(s) == Leftmost(|s|, 0, at);
    }
  }

  // ---------------------------------------------------------------------------
  // Groups that app.py inspects

  /** A fraction group never contains "times": it is a '.' and digits. */
  lemma FractionHasNoTimes(t: string)
    requires IsFractionText(t)
    ensures !Contains(t, "times")
  {
    forall i: nat ensures !StartsAt(t, i, "times") {
      if i + 5 <= |t| {
        assert t[i..i + 5][0] == t[i];
        if i > 0 {
          assert t[1..][i - 1] == t[i];
        }
      }
    }
  }

  // ---------------------------------------------------------------------------
  // re.search returns the leftmost match

  lemma DosageSearchFirst(s: string, j: nat)
    requires j <= |s| && DosageAt(s, j).Some?
    requires forall k: nat :: k < j ==> DosageAt(s, k).None?
    ensures DosageSearch(s) == DosageAt(s, j)
  {
    var at := (i: nat) => DosageAt(s, i);
    forall k | 0 <= k < j ensures at(k).None? {
      assert at(k) == DosageAt(s, k);
    }
    assert at(j) == DosageAt(s, j);
    assert DosageSearch(s) == Leftmost(|s|, 0, at);
  }

  lemma FreqNumberSearchFirst(s: string, kw: string, j: nat)
    requires j <= |s| && FreqNumberAt(s, kw, j).Some?
    requires forall k: nat :: k < j ==> FreqNumberAt(s, kw, k).None?
    ensures FreqNumberSearch(s, kw) == FreqNumberAt(s, kw, j)
  {
    var at := (i: nat) => FreqNumberAt(s, kw, i);
    forall k | 0 <= k < j ensures at(k).None? {
      assert at(k) == FreqNumberAt(s, kw, k);
    }
    assert at(j) == FreqNumberAt(s, kw, j);
    assert FreqNumberSearch(s, kw) == Leftmost(|s|, 0, at);
  }

  /** A number-and-keyword match the search reports was found at a position with no match before it. */
  lemma FreqNumberSearchFound(s: string, kw: string) returns (j: nat)
    requires FreqNumberSearch(s, kw).Some?
    ensures j <= |s| && FreqNumberAt(s, kw, j) == FreqNumberSearch(s, kw)
    ensures forall k: nat :: k < j ==> FreqNumberAt(s, kw, k).None?
  {
    var at := (i: nat) => FreqNumberAt(s, kw, i);
    assert FreqNumberSearch(s, kw) == Leftmost(|s|, 0, at);
    j :| 0 <= j <= |s| && at(j) == FreqNumberSearch(s, kw) && forall k :: 0 <= k < j ==> at(k).None?;
    forall k: nat | k < j ensures FreqNumberAt(s, kw, k).None? {
      assert at(k) == FreqNumberAt(s, kw, k);
    }
  }
}
