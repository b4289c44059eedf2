/**
 * The dosage pattern (app.py:97-100) and the number-and-keyword pattern
 * (app.py:120) against declarative descriptions of their matches: what
 * each matcher reports is a match of the pattern (soundness), every way
 * the pattern can match at a position is found there (completeness), and
 * which of several matches the engine's order of trying prefers.
 */
module SearchFacts {
  import opened Results
  import opened PyStr
  import opened Patterns
  import opened PatternFacts

  /** A word that starts with a lower-case letter starts, in the line, with neither whitespace nor a digit. */
  lemma FoldStart(s: string, q: nat, w: string)
    requires |w| > 0 && IsLowerLetter(w[0]) && StartsAtFold(s, q, w)
    ensures q < |s| && LowerChar(s[q]) == w[0] && !IsSpace(s[q]) && !IsDigit(s[q])
  {
    assert Lower(s[q..q + |w|])[0] == LowerChar(s[q]);
  }

  // ---------------------------------------------------------------------------
  // "times a day"

  lemma TimesADaySound(s: string, q: nat)
    requires q <= |s| && TimesADayAt(s, q)
    ensures TimesADayMatch(s, q)
  {
    var r := SpaceRun(s, q + 5);
    if r < |s| && LowerChar(s[r]) == 'a' && StartsAtFold(s, SpaceRun(s, r + 1), "day") {
      assert TimesADaySplit(s, q, r, r + 1, SpaceRun(s, r + 1));
    } else {
      assert TimesADaySplit(s, q, r, r, r);
    }
  }

  lemma TimesADayComplete(s: string, q: nat, r: nat, a: nat, t: nat)
    requires TimesADaySplit(s, q, r, a, t)
    ensures TimesADayAt(s, q)
  {
    FoldStart(s, t, "day");
    if a == r {
      SpaceRunIs(s, q + 5, t);
    } else {
      assert !IsSpace(s[r]);
      SpaceRunIs(s, q + 5, r);
      SpaceRunIs(s, r + 1, t);
    }
  }

  // ---------------------------------------------------------------------------
  // Number and keyword

  /** The candidate `c` is followed, after whitespace, by the keyword or "times a day". */
  predicate FreqHits(s: string, kw: string, c: Num)
    requires c.end <= |s|
  {
    StartsAtFold(s, SpaceRun(s, c.end), kw) || TimesADayAt(s, SpaceRun(s, c.end))
  }

  lemma {:induction false} FreqNumberPicks(s: string, kw: string, cs: seq<Num>)
    requires forall c :: c in cs ==> NumberToken(s, c)
    requires FreqNumber(s, kw, cs).Some?
    ensures exists c :: c in cs && FreqHits(s, kw, c) && FreqNumber(s, kw, cs).value == FreqGroups(NumText(s, c), Fraction(s, c))
  {
    var c := cs[0];
    assert c in cs;
    if !FreqHits(s, kw, c) {
      assert forall d :: d in cs[1..] ==> d in cs;
      FreqNumberPicks(s, kw, cs[1..]);
      var d :| d in cs[1..] && FreqHits(s, kw, d) && FreqNumber(s, kw, cs[1..]).value == FreqGroups(NumText(s, d), Fraction(s, d));
      assert d in cs;
    }
  }

  /** What the matcher reports at `i` is a match of the pattern there, with its number's groups. */
  lemma FreqNumberSound(s: string, kw: string, i: nat)
    requires FreqNumberAt(s, kw, i).Some?
    ensures exists n: Num, q: nat :: n.start == i && FreqSplit(s, kw, n, q)
              && FreqNumberAt(s, kw, i).value == FreqGroups(NumText(s, n), Fraction(s, n))
  {
    var cs := NumberCandidates(s, i);
    FreqNumberPicks(s, kw, cs);
    var c :| c in cs && FreqHits(s, kw, c) && FreqNumber(s, kw, cs).value == FreqGroups(NumText(s, c), Fraction(s, c));
    var q := SpaceRun(s, c.end);
    if !StartsAtFold(s, q, kw) {
      TimesADaySound(s, q);
    }
    assert FreqSplit(s, kw, c, q);
  }

  /**
   * Every way the pattern can match at a position is the match found
   * there, with the same groups. At most one number can be followed by
   * the keyword: an integer that a decimal part follows is followed by '.'.
   */
  lemma FreqNumberComplete(s: string, kw: string, n: Num, q: nat)
    requires |kw| > 0 && IsLowerLetter(kw[0])
    requires FreqSplit(s, kw, n, q)
    ensures FreqNumberAt(s, kw, n.start) == Some(FreqGroups(NumText(s, n), Fraction(s, n)))
  {
    var cs := NumberCandidates(s, n.start);
    NumberCandidatesComplete(s, n);
    if StartsAtFold(s, q, kw) {
      FoldStart(s, q, kw);
    } else {
      var r: nat, a: nat, t: nat :| TimesADaySplit(s, q, r, a, t);
      FoldStart(s, q, "times");
      TimesADayComplete(s, q, r, a, t);
    }
    SpaceRunIs(s, n.end, q);
    assert FreqHits(s, kw, n);
    if n != cs[0] {
      assert false;
    }
  }

  /** The matcher finds something at `i` exactly when the pattern can match there. */
  lemma FreqNumberAtIff(s: string, kw: string, i: nat)
    requires |kw| > 0 && IsLowerLetter(kw[0])
    ensures FreqNumberAt(s, kw, i).Some? <==> FreqMatchAt(s, kw, i)
  {
    if FreqNumberAt(s, kw, i).Some? {
      FreqNumberSound(s, kw, i);
    }
    if FreqMatchAt(s, kw, i) {
      var n: Num, q: nat :| n.start == i && FreqSplit(s, kw, n, q);
      FreqNumberComplete(s, kw, n, q);
    }
  }

  /** An integer the search reports stands at the first position where the pattern can match. */
  lemma IntegerReported(s: string, kw: string) returns (j: nat)
    requires |kw| > 0 && IsLowerLetter(kw[0])
    requires FreqNumberSearch(s, kw).Some? && FreqNumberSearch(s, kw).value.g2.None?
    ensures FirstFreqMatch(s, kw, j) && IntegerFreqMatchAt(s, kw, j)
  {
    j := FreqNumberSearchFound(s, kw);
    FreqNumberSound(s, kw, j);
    forall k: nat | k < j ensures !FreqMatchAt(s, kw, k) {
      FreqNumberAtIff(s, kw, k);
    }
  }

  /** An integer at the first position where the pattern can match is what the search reports. */
  lemma IntegerFound(s: string, kw: string, i: nat)
    requires |kw| > 0 && IsLowerLetter(kw[0])
    requires FirstFreqMatch(s, kw, i) && IntegerFreqMatchAt(s, kw, i)
    ensures FreqNumberSearch(s, kw).Some? && FreqNumberSearch(s, kw).value.g2.None?
  {
    var n: Num, q: nat :| n.start == i && n.intEnd == n.end && FreqSplit(s, kw, n, q);
    FreqNumberComplete(s, kw, n, q);
    forall k: nat | k < i ensures FreqNumberAt(s, kw, k).None? {
      FreqNumberAtIff(s, kw, k);
    }
    FreqNumberSearchFirst(s, kw, i);
  }

  // ---------------------------------------------------------------------------
  // Dosage, for any list of units that each start with a lower-case letter

  /** Every dosage keyword starts with a lower-case letter. */
  lemma DosageKeywordsLowerLed()
    ensures LowerLed(DosageKeywords)
  {
  }

  lemma {:induction false} UnitWithBoundaryPicks(s: string, units: seq<string>, q: nat, k: nat) returns (j: nat)
    requires UnitWithBoundary(s, units, q, k).Some?
    ensures k <= j && UnitEndsAt(s, units, q, j) && UnitWithBoundary(s, units, q, k) == Some(q + |units[j]|)
    ensures forall h :: k <= h < j ==> !UnitEndsAt(s, units, q, h)
    decreases |units| - k
  {
    if UnitEndsAt(s, units, q, k) {
      j := k;
    } else {
      j := UnitWithBoundaryPicks(s, units, q, k + 1);
    }
  }

  lemma {:induction false} UnitWithBoundaryFinds(s: string, units: seq<string>, q: nat, k: nat, j: nat)
    requires k <= j && UnitEndsAt(s, units, q, j)
    ensures UnitWithBoundary(s, units, q, k).Some?
    decreases j - k
  {
    if k < j && !UnitEndsAt(s, units, q, k) {
      UnitWithBoundaryFinds(s, units, q, k + 1, j);
    }
  }

  /** The groups the first alternative reports for number `c` and unit `j` after whitespace. */
  function ForwardGroups(s: string, units: seq<string>, c: Num, j: nat): DosageGroups
    requires NumberToken(s, c) && UnitEndsAt(s, units, SpaceRun(s, c.end), j)
  {
    var q := SpaceRun(s, c.end);
    DosageGroups(Some(NumText(s, c)), Fraction(s, c), Some(s[q..q + |units[j]|]), None, None, None)
  }

  lemma ForwardGroupsAre(s: string, units: seq<string>, c: Num, q: nat, j: nat)
    requires NumberToken(s, c) && q == SpaceRun(s, c.end) && UnitEndsAt(s, units, q, j)
    ensures ForwardGroups(s, units, c, j) == DosageGroups(Some(NumText(s, c)), Fraction(s, c), Some(s[q..q + |units[j]|]), None, None, None)
  {
  }

  lemma {:induction false} ForwardDosagePicks(s: string, units: seq<string>, cs: seq<Num>) returns (c: Num, j: nat)
    requires forall c :: c in cs ==> NumberToken(s, c)
    requires ForwardDosage(s, units, cs).Some?
    ensures c in cs && NumberToken(s, c) && UnitEndsAt(s, units, SpaceRun(s, c.end), j)
    ensures ForwardDosage(s, units, cs) == Some(ForwardGroups(s, units, c, j))
    ensures c == cs[0] ==> forall h: nat :: h < j ==> !UnitEndsAt(s, units, SpaceRun(s, c.end), h)
    ensures UnitWithBoundary(s, units, SpaceRun(s, cs[0].end), 0).Some? ==> c == cs[0]
  {
    var c0 := cs[0];
    assert c0 in cs;
    var q := SpaceRun(s, c0.end);
    if UnitWithBoundary(s, units, q, 0).Some? {
      c := c0;
      j := UnitWithBoundaryPicks(s, units, q, 0);
    } else {
      assert forall d :: d in cs[1..] ==> d in cs;
      c, j := ForwardDosagePicks(s, units, cs[1..]);
      if c == cs[0] {
        UnitWithBoundaryFinds(s, units, q, 0, j);
      }
    }
  }

  /**
   * The number of a forward split is the first candidate at its position,
   * and the forward alternative reports it with the first unit in list
   * order that ends at a word boundary after the whitespace. No other
   * number at the position can be followed by a unit, since an integer that
   * a decimal part follows is followed by '.'.
   */
  lemma ForwardSplitPicked(s: string, units: seq<string>, n: Num, q: nat, j: nat) returns (j0: nat)
    requires LowerLed(units) && ForwardSplit(s, units, n, q, j)
    ensures SpaceRun(s, n.end) == q && UnitEndsAt(s, units, q, j0)
    ensures forall h: nat :: h < j0 ==> !UnitEndsAt(s, units, q, h)
    ensures ForwardDosage(s, units, NumberCandidates(s, n.start)) == Some(ForwardGroups(s, units, n, j0))
  {
    var cs := NumberCandidates(s, n.start);
    assert q < |s| && !IsSpace(s[q]) && !IsDigit(s[q]) by {
      FoldStart(s, q, units[j]);
    }
    assert SpaceRun(s, n.end) == q by {
      SpaceRunIs(s, n.end, q);
    }
    assert n == cs[0] by {
      NumberCandidatesComplete(s, n);
    }
    assert UnitWithBoundary(s, units, q, 0).Some? by {
      UnitWithBoundaryFinds(s, units, q, 0, j);
    }
    var c;
    c, j0 := ForwardDosagePicks(s, units, cs);
    assert c == n;
  }

  /**
   * Every way the first alternative can match is found at its position,
   * with that number as groups 1 and 2 and a unit at the same place as
   * group 3: the first one in list order.
   */
  lemma DosageForwardComplete(s: string, units: seq<string>, n: Num, q: nat, j: nat)
    requires LowerLed(units) && ForwardSplit(s, units, n, q, j)
    ensures var r := DosagePatternAt(s, units, n.start);
      && r.Some? && r.value.g1 == Some(NumText(s, n)) && r.value.g2 == Fraction(s, n)
      && r.value.g3.Some? && r.value.g4.None?
      && ((forall h: nat :: h < j ==> !UnitEndsAt(s, units, q, h)) ==> r.value.g3 == Some(s[q..q + |units[j]|]))
  {
    var j0 := ForwardSplitPicked(s, units, n, q, j);
    var r := DosagePatternAt(s, units, n.start);
    assert r == Some(DosageGroups(Some(NumText(s, n)), Fraction(s, n), Some(s[q..q + |units[j0]|]), None, None, None)) by {
      ForwardGroupsAre(s, units, n, q, j0);
      assert r == ForwardDosage(s, units, NumberCandidates(s, n.start));
    }
    if forall h: nat :: h < j ==> !UnitEndsAt(s, units, q, h) {
      assert j0 == j by {
        if j0 < j {
          assert false;
        }
      }
      assert r.value.g3 == Some(s[q..q + |units[j]|]);
    }
  }

  /** A match with a forward unit comes from the first alternative. */
  lemma ForwardReported(s: string, units: seq<string>, i: nat)
    requires DosagePatternAt(s, units, i).Some? && DosagePatternAt(s, units, i).value.g3.Some?
    ensures i <= |s| && DosagePatternAt(s, units, i) == ForwardDosage(s, units, NumberCandidates(s, i))
  {
  }

  /** The number and unit behind a forward match the matcher reports. */
  lemma ForwardWitness(s: string, units: seq<string>, i: nat) returns (n: Num, q: nat, j: nat)
    requires DosagePatternAt(s, units, i).Some? && DosagePatternAt(s, units, i).value.g3.Some?
    ensures n.start == i && ForwardSplit(s, units, n, q, j)
    ensures DosagePatternAt(s, units, i).value
              == DosageGroups(Some(NumText(s, n)), Fraction(s, n), Some(s[q..q + |units[j]|]), None, None, None)
  {
    ForwardReported(s, units, i);
    n, j := ForwardDosagePicks(s, units, NumberCandidates(s, i));
    q := SpaceRun(s, n.end);
    ForwardGroupsAre(s, units, n, q, j);
  }

  /** A forward match the matcher reports is a match of the first alternative, with that number and unit. */
  lemma DosageForwardSound(s: string, units: seq<string>, i: nat)
    requires DosagePatternAt(s, units, i).Some? && DosagePatternAt(s, units, i).value.g3.Some?
    ensures exists n: Num, q: nat, j: nat :: n.start == i && ForwardSplit(s, units, n, q, j)
              && DosagePatternAt(s, units, i).value
                 == DosageGroups(Some(NumText(s, n)), Fraction(s, n), Some(s[q..q + |units[j]|]), None, None, None)
  {
    var n, q, j := ForwardWitness(s, units, i);
  }

  /** The groups the second alternative reports for `unit` matched at `i` and the number `n`. */
  function ReverseGroups(s: string, i: nat, unit: string, n: Num): DosageGroups
    requires i + |unit| <= |s| && NumberToken(s, n)
  {
    DosageGroups(None, None, None, Some(s[i..i + |unit|]), Some(NumText(s, n)), Fraction(s, n))
  }

  lemma {:induction false} ReverseDosagePicks(s: string, units: seq<string>, i: nat, k: nat) returns (j: nat, n: Num)
    requires i <= |s| && ReverseDosage(s, units, i, k).Some?
    ensures k <= j < |units| && NumberAfterUnit(s, i, units[j]) == Some(n)
    ensures ReverseDosage(s, units, i, k) == Some(ReverseGroups(s, i, units[j], n))
    decreases |units| - k
  {
    match NumberAfterUnit(s, i, units[k])
    case Some(m) =>
      j, n := k, m;
    case None =>
      j, n := ReverseDosagePicks(s, units, i, k + 1);
  }

  /** After a unit, whitespace and a number, the second alternative reads a number. */
  lemma NumberAfterUnitFinds(s: string, i: nat, unit: string, n: Num)
    requires i <= |s| && StartsAtFold(s, i, unit) && SpaceSpan(s, i + |unit|, n.start) && NumberToken(s, n)
    ensures NumberAfterUnit(s, i, unit).Some?
  {
    assert SpaceRun(s, i + |unit|) == n.start by {
      AllDigitsAt(s, n.start, n.intEnd, n.start);
      SpaceRunIs(s, i + |unit|, n.start);
    }
    assert n in NumberCandidates(s, n.start) by {
      NumberCandidatesComplete(s, n);
    }
  }

  lemma {:induction false} ReverseDosageFinds(s: string, units: seq<string>, i: nat, k: nat, j: nat, n: Num)
    requires k <= j && ReverseSplit(s, units, i, j, n)
    ensures ReverseDosage(s, units, i, k).Some?
    decreases j - k
  {
    if k < j {
      if NumberAfterUnit(s, i, units[k]).None? {
        ReverseDosageFinds(s, units, i, k + 1, j, n);
      }
    } else {
      NumberAfterUnitFinds(s, i, units[k], n);
    }
  }

  /**
   * A reverse match the matcher reports is a match of the second
   * alternative, with that unit and number, at a position where the first
   * alternative cannot match.
   */
  lemma DosageReverseSound(s: string, units: seq<string>, i: nat)
    requires LowerLed(units)
    requires DosagePatternAt(s, units, i).Some? && DosagePatternAt(s, units, i).value.g4.Some?
    ensures !ForwardMatchAt(s, units, i)
    ensures exists j: nat, n: Num :: ReverseSplit(s, units, i, j, n)
              && DosagePatternAt(s, units, i).value
                 == DosageGroups(None, None, None, Some(s[i..i + |units[j]|]), Some(NumText(s, n)), Fraction(s, n))
  {
    if ForwardMatchAt(s, units, i) {
      var n: Num, q: nat, j: nat :| n.start == i && ForwardSplit(s, units, n, q, j);
      DosageForwardComplete(s, units, n, q, j);
      assert false;
    }
    assert ForwardDosage(s, units, NumberCandidates(s, i)).None?;
    var j, n := ReverseDosagePicks(s, units, i, 0);
    SpaceRunIs(s, i + |units[j]|, n.start);
    assert ReverseSplit(s, units, i, j, n);
    assert DosagePatternAt(s, units, i) == Some(ReverseGroups(s, i, units[j], n));
  }

  /** Every way the second alternative can match is found where the first cannot. */
  lemma DosageReverseComplete(s: string, units: seq<string>, i: nat, j: nat, n: Num)
    requires ReverseSplit(s, units, i, j, n) && !ForwardMatchAt(s, units, i)
    ensures DosagePatternAt(s, units, i).Some? && DosagePatternAt(s, units, i).value.g4.Some?
  {
    if ForwardDosage(s, units, NumberCandidates(s, i)).Some? {
      DosageForwardSound(s, units, i);
      assert false;
    }
    ReverseDosageFinds(s, units, i, 0, j, n);
  }

  /** The matcher finds something at `i` exactly when the dosage pattern can match there. */
  lemma DosagePatternAtIff(s: string, units: seq<string>, i: nat)
    requires LowerLed(units)
    ensures DosagePatternAt(s, units, i).Some? <==> DosageMatchAt(s, units, i)
  {
    if DosagePatternAt(s, units, i).Some? {
      if DosagePatternAt(s, units, i).value.g3.Some? {
        DosageForwardSound(s, units, i);
      } else {
        DosageReverseSound(s, units, i);
      }
    }
    if ForwardMatchAt(s, units, i) {
      var n: Num, q: nat, j: nat :| n.start == i && ForwardSplit(s, units, n, q, j);
      DosageForwardComplete(s, units, n, q, j);
    } else if ReverseMatchAt(s, units, i) {
      var j: nat, n: Num :| ReverseSplit(s, units, i, j, n);
      DosageReverseComplete(s, units, i, j, n);
    }
  }

  /** The same for the pattern of app.py:97-100, built from `dosage_keywords`. */
  lemma DosageAtIff(s: string, i: nat)
    ensures DosageAt(s, i).Some? <==> DosageMatchAt(s, DosageKeywords, i)
  {
    DosageKeywordsLowerLed();
    DosagePatternAtIff(s, DosageKeywords, i);
  }
}
