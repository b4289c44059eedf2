/**
 * The field extractor (app.py:94-125): the dosage and frequency heuristics
 * applied to the lower-cased form of a line that is not a name line.
 */
module FieldExtractor {
  import opened Results
  import opened PyStr
  import opened Patterns
  import opened PatternFacts
  import opened SearchFacts

  const NotSpecified := "Not specified"

  // ---------------------------------------------------------------------------
  // Dosage (app.py:94, 97-113)

  /**
   * The dosage of a line, given whether a medicine name is pending
   * (`current_medicine_name` is truthy). Groups are read as app.py reads
   * them: group 2 is the forward number's fraction, not the unit.
   */
  function Dosage(lower: string, hasName: bool): (dosage: string) {
    match DosageSearch(lower)
    case Some(g) =>
      if Truthy(g.g1) && Truthy(g.g2) then g.g1.value + " " + g.g2.value
      else if Truthy(g.g3) && Truthy(g.g4) then g.g4.value + " " + g.g3.value
      else NotSpecified
    case None =>
      match NumberOnlySearch(lower)
      case Some(number) =>
        if hasName || Contains(lower, "tablet") || Contains(lower, "cap") then
          if Contains(lower, "tablet") then number + " tablet(s)"
          else if Contains(lower, "cap") then number + " capsule(s)"
          else number
        else NotSpecified
      case None => NotSpecified
  }

  /**
   * When the unit-qualified pattern matches, the bare-number fallback is
   * not tried, so the pending name plays no part; the dosage is
   * "<number> <fraction>" for a forward match with a decimal part and
   * "Not specified" for every other match. The branch at app.py:104-105
   * never fires: a reverse match has no group 3.
   */
  lemma DosageWithUnitMatch(lower: string, hasName: bool)
    requires DosageSearch(lower).Some?
    ensures var g := DosageSearch(lower).value;
            && Dosage(lower, hasName) == Dosage(lower, !hasName)
            && Dosage(lower, hasName) == (if g.g1.Some? && g.g2.Some? then g.g1.value + " " + g.g2.value else NotSpecified)
            && (g.g2.Some? ==> g.g3.Some? && IsFractionText(g.g2.value))
  {
    var g := DosageSearch(lower).value;
    assert WellFormedDosage(g);
    assert !(Truthy(g.g3) && Truthy(g.g4));
    assert Truthy(g.g1) && Truthy(g.g2) <==> g.g1.Some? && g.g2.Some?;
  }

  /**
   * The dosage in terms of where the unit-qualified pattern first matches:
   * a number with a decimal part directly followed by a unit there gives
   * "<number> <decimal part>", and every other match there gives
   * "Not specified", whatever name is pending.
   */
  lemma DosageOfFirstMatch(lower: string, hasName: bool, i: nat)
    requires FirstDosageMatch(lower, DosageKeywords, i)
    ensures forall n: Num, q: nat, j: nat ::
              n.start == i && ForwardSplit(lower, DosageKeywords, n, q, j) && n.intEnd < n.end ==>
                Dosage(lower, hasName) == lower[n.start..n.end] + " " + lower[n.intEnd..n.end]
    ensures (forall n: Num, q: nat, j: nat ::
              n.start == i && ForwardSplit(lower, DosageKeywords, n, q, j) ==> n.intEnd == n.end) ==>
                Dosage(lower, hasName) == NotSpecified
  {
    DosageKeywordsLowerLed();
    forall k: nat | k < i ensures DosageAt(lower, k).None? {
      DosagePatternAtIff(lower, DosageKeywords, k);
    }
    DosagePatternAtIff(lower, DosageKeywords, i);
    DosageSearchFirst(lower, i);
    DosageWithUnitMatch(lower, hasName);
    var g := DosageAt(lower, i).value;
    forall n: Num, q: nat, j: nat |
      n.start == i && ForwardSplit(lower, DosageKeywords, n, q, j) && n.intEnd < n.end
      ensures Dosage(lower, hasName) == lower[n.start..n.end] + " " + lower[n.intEnd..n.end]
    {
      DosageForwardComplete(lower, DosageKeywords, n, q, j);
    }
    if g.g2.Some? {
      DosageForwardSound(lower, DosageKeywords, i);
    }
  }

  /**
   * Without a unit-qualified match, a bare number is accepted only when a
   * name is pending or the line mentions "tablet" or "cap"; its suffix is
   * " tablet(s)", else " capsule(s)", else nothing.
   */
  lemma DosageFallback(lower: string, hasName: bool)
    requires DosageSearch(lower).None?
    ensures var d := Dosage(lower, hasName);
            var tablet := Contains(lower, "tablet");
            var cap := Contains(lower, "cap");
            && (d != NotSpecified <==> NumberOnlySearch(lower).Some? && (hasName || tablet || cap))
            && (d != NotSpecified ==>
                 d == NumberOnlySearch(lower).value + (if tablet then " tablet(s)" else if cap then " capsule(s)" else ""))
  {
    var d := Dosage(lower, hasName);
    match NumberOnlySearch(lower)
    case None =>
      assert d == NotSpecified;
    case Some(number) =>
      var suffix := if Contains(lower, "tablet") then " tablet(s)" else if Contains(lower, "cap") then " capsule(s)" else "";
      if hasName || Contains(lower, "tablet") || Contains(lower, "cap") {
        assert d == number + suffix;
        assert (number + suffix)[0] == number[0];
        assert NotSpecified[0] == 'N';
      } else {
        assert d == NotSpecified;
      }
  }

  /**
   * The fallback's number, tied to the line: without a unit match, the
   * dosage is "Not specified" when the line holds no number token, and
   * otherwise, when a name is pending or "tablet" or "cap" occurs, the
   * longest number at the first position where one starts, with its suffix.
   */
  lemma DosageFallbackNumber(lower: string, hasName: bool)
    requires DosageSearch(lower).None?
    ensures (forall m :: !NumberToken(lower, m)) ==> Dosage(lower, hasName) == NotSpecified
    ensures forall n :: FirstNumber(lower, n) && (hasName || Contains(lower, "tablet") || Contains(lower, "cap")) ==>
              Dosage(lower, hasName) == lower[n.start..n.end]
                + (if Contains(lower, "tablet") then " tablet(s)" else if Contains(lower, "cap") then " capsule(s)" else "")
  {
    DosageFallback(lower, hasName);
    NumberOnlySearchIff(lower);
    forall n | FirstNumber(lower, n) && (hasName || Contains(lower, "tablet") || Contains(lower, "cap"))
      ensures Dosage(lower, hasName) == lower[n.start..n.end]
                + (if Contains(lower, "tablet") then " tablet(s)" else if Contains(lower, "cap") then " capsule(s)" else "")
    {
      NumberOnlySearchFirst(lower, n);
    }
  }

  // ---------------------------------------------------------------------------
  // Frequency (app.py:95, 115-125)

  /**
   * The loop at app.py:119-125 over the keyword table `keywords`, from
   * keyword `k` on, with `frequency` the value so far. The test for
   * "times" in group 2 raises a TypeError when that group (the fraction)
   * did not take part, which aborts the parse.
   */
  function ScanKeywords(lower: string, keywords: seq<string>, k: nat, frequency: string): (r: Outcome<string>)
    decreases |keywords| - k
  {
    if k >= |keywords| then Ok(frequency)
    else
      var kw := keywords[k];
      var m := FreqNumberSearch(lower, kw);
      if m.Some? && m.value.g2.None? then Crashed
      else if m.Some? && Contains(m.value.g2.value, "times") then
        ScanKeywords(lower, keywords, k + 1, m.value.g1 + " " + m.value.g2.value)
      else if Contains(lower, kw) then Ok(kw)
      else ScanKeywords(lower, keywords, k + 1, frequency)
  }

  /** The frequency of a line: the "a-b-c" triplet, else the keyword scan. */
  function Frequency(lower: string): (r: Outcome<string>) {
    match TripletSearch(lower)
    case Some(t) => Ok("Morning: " + t.morning + ", Afternoon: " + t.afternoon + ", Night: " + t.night)
    case None => ScanKeywords(lower, FrequencyKeywords, 0, NotSpecified)
  }

  /** The statements at app.py:115-125, with the keyword loop and its `break`. */
  method ExtractFrequency(lower: string) returns (r: Outcome<string>)
    ensures r == Frequency(lower)
  {
    var triplet := TripletSearch(lower);
    if triplet.Some? {
      var t := triplet.value;
      return Ok("Morning: " + t.morning + ", Afternoon: " + t.afternoon + ", Night: " + t.night);
    }
    var frequency := NotSpecified;
    for k := 0 to |FrequencyKeywords|
      invariant ScanKeywords(lower, FrequencyKeywords, k, frequency) == Frequency(lower)
    {
      var kw := FrequencyKeywords[k];
      var m := FreqNumberSearch(lower, kw);
      if m.Some? && m.value.g2.None? {
        return Crashed;
      }
      if m.Some? && Contains(m.value.g2.value, "times") {
        frequency := m.value.g1 + " " + m.value.g2.value;
      } else if Contains(lower, kw) {
        frequency := kw;
        break;
      }
    }
    return Ok(frequency);
  }

  /** The search at app.py:120 for keyword `kw` finds an integer, whose fraction group is `None`. */
  predicate IntegerBefore(lower: string, kw: string) {
    var m := FreqNumberSearch(lower, kw);
    m.Some? && m.value.g2.None?
  }

  /**
   * The search at app.py:120 finds an integer exactly when the number at
   * the first position where a number, optional whitespace and the
   * keyword or "times a day" can match is an integer.
   */
  lemma IntegerBeforeExactly(lower: string, kw: string)
    requires |kw| > 0 && IsLowerLetter(kw[0])
    ensures IntegerBefore(lower, kw) <==> exists i: nat :: FirstFreqMatch(lower, kw, i) && IntegerFreqMatchAt(lower, kw, i)
  {
    if IntegerBefore(lower, kw) {
      var j := IntegerReported(lower, kw);
    }
    if exists i: nat :: FirstFreqMatch(lower, kw, i) && IntegerFreqMatchAt(lower, kw, i) {
      var i: nat :| FirstFreqMatch(lower, kw, i) && IntegerFreqMatchAt(lower, kw, i);
      IntegerFound(lower, kw, i);
    }
  }

  /** What one iteration of the keyword loop does to the outcome. */
  datatype Verdict = Raises | Found | Passes

  function VerdictOf(lower: string, kw: string): (verdict: Verdict) {
    if IntegerBefore(lower, kw) then Raises
    else if Contains(lower, kw) then Found
    else Passes
  }

  /** One step of the scan: the assignment at app.py:122 never takes effect. */
  lemma ScanStep(lower: string, keywords: seq<string>, k: nat, frequency: string)
    requires k < |keywords|
    ensures ScanKeywords(lower, keywords, k, frequency) ==
              match VerdictOf(lower, keywords[k])
              case Raises => Crashed
              case Found => Ok(keywords[k])
              case Passes => ScanKeywords(lower, keywords, k + 1, frequency)
  {
    var m := FreqNumberSearch(lower, keywords[k]);
    if m.Some? && m.value.g2.Some? {
      FractionHasNoTimes(m.value.g2.value);
    }
  }

  /** The verdict of every keyword of the table, in order. */
  function Verdicts(lower: string, keywords: seq<string>): (vs: seq<Verdict>)
    ensures |vs| == |keywords| && forall i :: 0 <= i < |keywords| ==> vs[i] == VerdictOf(lower, keywords[i])
  {
    seq(|keywords|, i requires 0 <= i < |keywords| => VerdictOf(lower, keywords[i]))
  }

  /** The scan read off the verdicts alone: the first verdict that is not `Passes` decides. */
  function Settle(vs: seq<Verdict>, keywords: seq<string>, k: nat, frequency: string): (r: Outcome<string>)
    requires |vs| == |keywords|
    decreases |vs| - k
  {
    if k >= |vs| then Ok(frequency)
    else match vs[k]
      case Raises => Crashed
      case Found => Ok(keywords[k])
      case Passes => Settle(vs, keywords, k + 1, frequency)
  }

  lemma {:induction false} ScanSettles(lower: string, keywords: seq<string>, k: nat, frequency: string)
    requires k <= |keywords|
    ensures ScanKeywords(lower, keywords, k, frequency) == Settle(Verdicts(lower, keywords), keywords, k, frequency)
    decreases |keywords| - k
  {
    if k < |keywords| {
      var vs := Verdicts(lower, keywords);
      var v := VerdictOf(lower, keywords[k]);
      assert vs[k] == v;
      if v == Passes {
        assert ScanKeywords(lower, keywords, k, frequency) == ScanKeywords(lower, keywords, k + 1, frequency) by {
          ScanStep(lower, keywords, k, frequency);
        }
        ScanSettles(lower, keywords, k + 1, frequency);
      } else if v == Raises {
        assert ScanKeywords(lower, keywords, k, frequency) == Crashed by {
          ScanStep(lower, keywords, k, frequency);
        }
      } else {
        assert ScanKeywords(lower, keywords, k, frequency) == Ok(keywords[k]) by {
          ScanStep(lower, keywords, k, frequency);
        }
      }
    }
  }

  /** Every verdict from `a` up to, not including, `b` is `Passes`. */
  predicate PassesBetween(vs: seq<Verdict>, a: nat, b: nat) {
    forall d :: a <= d < b && d < |vs| ==> vs[d] == Passes
  }

  lemma {:induction false} SettleFirstVerdict(vs: seq<Verdict>, keywords: seq<string>, k: nat, frequency: string)
    requires |vs| == |keywords| && k <= |vs|
    ensures PassesBetween(vs, k, |vs|) ==> Settle(vs, keywords, k, frequency) == Ok(frequency)
    ensures forall j :: k <= j < |vs| && PassesBetween(vs, k, j) && vs[j] != Passes ==>
              Settle(vs, keywords, k, frequency) == (if vs[j] == Raises then Crashed else Ok(keywords[j]))
    decreases |vs| - k
  {
    if k < |vs| {
      SettleFirstVerdict(vs, keywords, k + 1, frequency);
      if vs[k] == Passes {
        forall j | k < j < |vs| && PassesBetween(vs, k, j) ensures PassesBetween(vs, k + 1, j) {
        }
      } else {
        forall j | k < j < |vs| ensures !PassesBetween(vs, k, j) {
          assert k <= k < j;
        }
      }
    }
  }

  /**
   * The keyword scan is decided by the first keyword, in table order, whose
   * verdict is not `Passes`: the parse raises if an integer stands before
   * it, else the scan yields that keyword. When every keyword passes, the
   * scan keeps the value it started from.
   */
  lemma ScanFirstVerdict(lower: string, keywords: seq<string>, frequency: string)
    ensures var vs := Verdicts(lower, keywords);
            && (PassesBetween(vs, 0, |vs|) ==> ScanKeywords(lower, keywords, 0, frequency) == Ok(frequency))
            && (forall j :: 0 <= j < |vs| && PassesBetween(vs, 0, j) && vs[j] != Passes ==>
                 ScanKeywords(lower, keywords, 0, frequency) ==
                   if vs[j] == Raises then Crashed else Ok(keywords[j]))
  {
    ScanSettles(lower, keywords, 0, frequency);
    SettleFirstVerdict(Verdicts(lower, keywords), keywords, 0, frequency);
  }

  /**
   * Where the triplet pattern can first match, the frequency is its three
   * groups as morning, afternoon and night counts, and nothing raises.
   */
  lemma TripletFrequency(lower: string, i: nat, a: nat, b: nat, c: nat, d: nat, e: nat)
    requires TripletSplit(lower, i, a, b, c, d, e) && NoTripletBefore(lower, i)
    ensures Frequency(lower) == Ok("Morning: " + lower[i..a] + ", Afternoon: " + lower[b..c] + ", Night: " + lower[d..e])
  {
    TripletSearchFirst(lower, i, a, b, c, d, e);
  }

  /** Where the triplet pattern cannot match, the frequency is the keyword scan from "Not specified". */
  lemma NoTripletScan(lower: string)
    requires NoTripletBefore(lower, |lower| + 1)
    ensures Frequency(lower) == ScanKeywords(lower, FrequencyKeywords, 0, NotSpecified)
  {
    NoTripletFound(lower);
  }

  /**
   * A frequency that does not raise is the triplet form, "Not specified"
   * or one of the keywords: the "<number> <text>" form of app.py:122 never
   * appears.
   */
  lemma FrequencyForms(lower: string)
    requires Frequency(lower).Ok?
    ensures var f := Frequency(lower).value;
            || TripletSearch(lower).Some?
            || f == NotSpecified
            || f in FrequencyKeywords
  {
    if TripletSearch(lower).None? {
      ScanFirstVerdict(lower, FrequencyKeywords, NotSpecified);
      var vs := Verdicts(lower, FrequencyKeywords);
      if !PassesBetween(vs, 0, |vs|) {
        var j := FirstNonPass(vs, 0);
        assert vs[j] != Passes && PassesBetween(vs, 0, j);
      }
    }
  }

  /** The first verdict from `k` on that does not pass. */
  function FirstNonPass(vs: seq<Verdict>, k: nat): (j: nat)
    requires k <= |vs| && !PassesBetween(vs, k, |vs|)
    ensures k <= j < |vs| && vs[j] != Passes && PassesBetween(vs, k, j)
    decreases |vs| - k
  {
    if vs[k] != Passes then k else FirstNonPass(vs, k + 1)
  }
}
