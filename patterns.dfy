/**
 * Hand-written matchers for the fixed regular expressions of app.py, with
 * Python `re` semantics on ASCII text: `re.search` returns the leftmost
 * match, and at one position the alternatives, optional groups and
 * quantifiers are tried in the engine's backtracking order. For each
 * pattern the comment says why the backtracking can take only the path the
 * matcher follows; `NumberCandidatesComplete` and `UnitFragmentComplete`
 * prove it for the number pattern and the name's unit-fragment pattern.
 */
module Patterns {
  import opened Results
  import opened PyStr

  /** `dosage_keywords` (app.py:68), in priority order. */
  const DosageKeywords: seq<string> :=
    ["mg", "ml", "g", "mcg", "tablet", "capsule", "spoon", "drops", "puff"]

  /** `frequency_keywords` (app.py:69-73), in priority order. */
  const FrequencyKeywords: seq<string> :=
    ["daily", "once a day", "twice a day", "thrice a day", "times a day",
     "bd", "tds", "qid", "od", "hs", "sos", "prn", "before food", "after food",
     "morning", "noon", "evening", "night", "alternate day", "weekly"]

  // ---------------------------------------------------------------------------
  // Building blocks

  predicate WordBefore(s: string, i: nat) {
    0 < i <= |s| && IsWord(s[i - 1])
  }

  predicate WordAfter(s: string, i: nat) {
    i < |s| && IsWord(s[i])
  }

  /** `\b` at position `i`. */
  predicate Boundary(s: string, i: nat) {
    WordBefore(s, i) != WordAfter(s, i)
  }

  predicate AllDigits(t: string) {
    forall k :: 0 <= k < |t| ==> IsDigit(t[k])
  }

  /** End of the run of digits that starts at `i` (greedy `\d*`). */
  function DigitRun(s: string, i: nat): (e: nat)
    requires i <= |s|
    ensures i <= e <= |s|
    ensures forall k :: i <= k < e ==> IsDigit(s[k])
    ensures e < |s| ==> !IsDigit(s[e])
    decreases |s| - i
  {
    if i < |s| && IsDigit(s[i]) then DigitRun(s, i + 1) else i
  }

  /** End of the greedy `(\.\d+)?` that starts at `m`. */
  function FractionEnd(s: string, m: nat): (p: nat)
    requires m <= |s|
    ensures m <= p <= |s|
    ensures p > m ==> m + 1 < p && s[m] == '.' && AllDigits(s[m + 1..p])
    ensures p < |s| && p > m ==> !IsDigit(s[p])
  {
    if m + 1 < |s| && s[m] == '.' && IsDigit(s[m + 1]) then DigitRun(s, m + 1) else m
  }

  /**
   * `re.search`: the match at the first position `i..n` where `at` finds one.
   * The positions a search tries are `0..len(s)`, the end included.
   */
  function Leftmost<T>(n: nat, i: nat, at: nat -> Option<T>): (r: Option<T>)
    requires i <= n + 1
    ensures r.None? <==> forall k :: i <= k <= n ==> at(k).None?
    ensures r.Some? ==> exists j :: i <= j <= n && at(j) == r && forall k :: i <= k < j ==> at(k).None?
    ensures forall j :: i <= j <= n && at(j).Some? && (forall k :: i <= k < j ==> at(k).None?) ==> r == at(j)
    decreases n + 1 - i
  {
    if i > n then None else if at(i).Some? then at(i) else Leftmost(n, i + 1, at)
  }

  // ---------------------------------------------------------------------------
  // Name line shape (app.py:85): the whole line is an upper-case letter
  // followed by at least one letter, digit, whitespace, '-', '.' or '!'.
  // An end anchor that also matches before a final newline changes nothing,
  // since a newline is whitespace and so in the class anyway.

  predicate IsNameChar(c: char) {
    IsUpper(c) || IsLowerLetter(c) || IsDigit(c) || IsSpace(c) || c == '-' || c == '.' || c == '!'
  }

  predicate NameShape(line: string) {
    |line| >= 2 && IsUpper(line[0]) && forall k :: 1 <= k < |line| ==> IsNameChar(line[k])
  }

  // ---------------------------------------------------------------------------
  // Punctuation strip (app.py:87): every character of the ten-character
  // class below is deleted.

  predicate IsPunct(c: char) {
    c == '!' || c == '@' || c == '#' || c == '$' || c == '%' || c == '^' || c == '&' || c == '*' || c == '(' || c == ')'
  }

  function RemovePunct(s: string): (r: string)
    ensures forall c :: c in r <==> c in s && !IsPunct(c)
    ensures |s| > 0 && !IsPunct(s[0]) ==> |r| > 0 && r[0] == s[0]
    ensures (forall k :: 0 <= k < |s| ==> !IsPunct(s[k])) ==> r == s
  {
    if s == [] then []
    else (if IsPunct(s[0]) then [] else [s[0]]) + RemovePunct(s[1..])
  }

  // ---------------------------------------------------------------------------
  // Unit fragment (app.py:90): optional whitespace, a number with an
  // optional decimal part, optional whitespace and the unit ending at a word
  // boundary, matched ignoring case and deleted wherever it occurs.
  // At a start position the engine can only take the greedy path: giving
  // back whitespace or digits leaves a space or a digit where a digit, a
  // '.' or the unit's first letter is needed.

  /** Where the fragment pattern matched at `i` ends, if it matches there. */
  function UnitFragmentAt(s: string, i: nat, unit: string): (e: Option<nat>)
    requires i <= |s|
    ensures e.Some? ==> i < e.value <= |s|
  {
    var a := SpaceRun(s, i);
    if a < |s| && IsDigit(s[a]) then
      var q := SpaceRun(s, FractionEnd(s, DigitRun(s, a)));
      if StartsAtFold(s, q, unit) && Boundary(s, q + |unit|) then Some(q + |unit|) else None
    else None
  }

  /**
   * One way for the fragment pattern to match `s[i..e]`: whitespace `i..a`,
   * digits `a..m`, an optional fraction `m..p`, whitespace `p..q`, then the unit.
   */
  predicate UnitFragmentSplit(s: string, unit: string, i: nat, a: nat, m: nat, p: nat, q: nat, e: nat) {
    && i <= a < m <= p <= q <= e <= |s|
    && (forall k :: i <= k < a ==> IsSpace(s[k]))
    && AllDigits(s[a..m])
    && (p == m || (m + 1 < p && s[m] == '.' && AllDigits(s[m + 1..p])))
    && (forall k :: p <= k < q ==> IsSpace(s[k]))
    && e == q + |unit| && StartsAtFold(s, q, unit) && Boundary(s, e)
  }

  /** Every fragment deleted, scanning from `i` as the regex engine does. */
  function RemoveUnitFragments(s: string, unit: string, i: nat): (r: string)
    requires i <= |s|
    ensures forall c :: c in r ==> c in s
    ensures i < |s| && UnitFragmentAt(s, i, unit).None? ==> |r| > 0 && r[0] == s[i]
    decreases |s| - i
  {
    if i == |s| then ""
    else match UnitFragmentAt(s, i, unit)
      case Some(e) => RemoveUnitFragments(s, unit, e)
      case None => [s[i]] + RemoveUnitFragments(s, unit, i + 1)
  }

  // ---------------------------------------------------------------------------
  // The number pattern (app.py:74): a digit run with an optional decimal
  // part, with a word boundary on both sides.
  // Backtracking tries the longest digit run first and, for it, the fraction
  // before its absence. Any shorter run, or a shorter fraction, ends between
  // two digits, where `\b` fails; so at most two candidates remain, in this
  // order.

  /** A number: digits `start..intEnd`, then the fraction `intEnd..end` (empty if absent). */
  datatype Num = Num(start: nat, intEnd: nat, end: nat)

  predicate NumberToken(s: string, n: Num) {
    && n.start < n.intEnd <= n.end <= |s|
    && AllDigits(s[n.start..n.intEnd])
    && (n.end == n.intEnd || (n.intEnd + 1 < n.end && s[n.intEnd] == '.' && AllDigits(s[n.intEnd + 1..n.end])))
    && Boundary(s, n.start) && Boundary(s, n.end)
  }

  /** Group text of the whole number. */
  function NumText(s: string, n: Num): string
    requires n.start <= n.end <= |s|
  {
    s[n.start..n.end]
  }

  /** Text of a fraction group: a '.' and at least one digit. */
  predicate IsFractionText(t: string) {
    |t| >= 2 && t[0] == '.' && AllDigits(t[1..])
  }

  /** Group text of the fraction `(\.\d+)`, `None` when it did not take part. */
  function Fraction(s: string, n: Num): (f: Option<string>)
    requires NumberToken(s, n)
    ensures f.Some? ==> IsFractionText(f.value)
  {
    if n.intEnd < n.end then Some(s[n.intEnd..n.end]) else None
  }

  /** The matches of number_pattern at `i`, in the order the engine tries them. */
  function NumberCandidates(s: string, i: nat): (cs: seq<Num>)
    requires i <= |s|
    ensures |cs| <= 2
    ensures forall c :: c in cs ==> c.start == i && NumberToken(s, c)
    ensures |cs| == 2 ==> cs[0].intEnd < cs[0].end && cs[1].intEnd == cs[1].end && cs[1].intEnd == cs[0].intEnd
  {
    if i < |s| && IsDigit(s[i]) && Boundary(s, i) then
      var m := DigitRun(s, i);
      var p := FractionEnd(s, m);
      assert i < m && AllDigits(s[i..m]) by {
        forall k | 0 <= k < m - i ensures IsDigit(s[i..m][k]) {
          assert s[i..m][k] == s[i + k];
        }
      }
      var withFraction := if m < p && Boundary(s, p) then [Num(i, m, p)] else [];
      var withoutFraction := if Boundary(s, m) then [Num(i, m, m)] else [];
      assert forall c :: c in withFraction ==> c.start == i && NumberToken(s, c);
      assert forall c :: c in withoutFraction ==> c.start == i && NumberToken(s, c);
      withFraction + withoutFraction
    else []
  }

  // ---------------------------------------------------------------------------
  // Dosage (app.py:97-100), searched in the lower-cased line ignoring case:
  // either a number, optional whitespace and a dosage keyword ending at a
  // word boundary, or a dosage keyword after a word boundary, optional
  // whitespace and a number.
  // Groups: 1 forward number, 2 its fraction, 3 forward unit, 4 reverse unit,
  // 5 reverse number, 6 its fraction. `\s*` can only be greedy here: the unit
  // and the number never start with whitespace.

  datatype DosageGroups = DosageGroups(
    g1: Option<string>, g2: Option<string>, g3: Option<string>,
    g4: Option<string>, g5: Option<string>, g6: Option<string>)

  /** End of the first unit of `units`, in order from `k`, matched at `q` and followed by `\b`. */
  function UnitWithBoundary(s: string, units: seq<string>, q: nat, k: nat): (e: Option<nat>)
    ensures e.Some? ==> q <= e.value <= |s|
    decreases |units| - k
  {
    if k >= |units| then None
    else if StartsAtFold(s, q, units[k]) && Boundary(s, q + |units[k]|)
    then Some(q + |units[k]|)
    else UnitWithBoundary(s, units, q, k + 1)
  }

  /** The first alternative, tried on each number candidate in turn. */
  function ForwardDosage(s: string, units: seq<string>, cs: seq<Num>): (r: Option<DosageGroups>)
    requires forall c :: c in cs ==> NumberToken(s, c)
    ensures r.Some? ==> r.value.g1.Some? && |r.value.g1.value| > 0 && r.value.g3.Some? && r.value.g4.None?
    ensures r.Some? && r.value.g2.Some? ==> IsFractionText(r.value.g2.value)
  {
    if cs == [] then None
    else
      var c := cs[0];
      assert c in cs && NumberToken(s, c);
      var q := SpaceRun(s, c.end);
      match UnitWithBoundary(s, units, q, 0)
      case Some(e) =>
        Some(DosageGroups(Some(NumText(s, c)), Fraction(s, c), Some(s[q..e]), None, None, None))
      case None => ForwardDosage(s, units, cs[1..])
  }

  /** The number the second alternative reads after `unit` matched at `i`, ignoring case. */
  function NumberAfterUnit(s: string, i: nat, unit: string): (n: Option<Num>)
    requires i <= |s|
    ensures n.Some? ==> StartsAtFold(s, i, unit) && NumberToken(s, n.value)
    ensures n.Some? ==> n.value.start == SpaceRun(s, i + |unit|)
  {
    if StartsAtFold(s, i, unit) then
      var cs := NumberCandidates(s, SpaceRun(s, i + |unit|));
      if cs != [] then
        assert cs[0] in cs;
        Some(cs[0])
      else None
    else None
  }

  /** The second alternative at `i`, trying the units in order from `k`. */
  function ReverseDosage(s: string, units: seq<string>, i: nat, k: nat): (r: Option<DosageGroups>)
    requires i <= |s|
    ensures r.Some? ==> r.value.g1.None? && r.value.g2.None? && r.value.g3.None? && r.value.g4.Some?
    decreases |units| - k
  {
    if k >= |units| then None
    else
      match NumberAfterUnit(s, i, units[k])
      case Some(n) =>
        Some(DosageGroups(None, None, None, Some(s[i..i + |units[k]|]), Some(NumText(s, n)), Fraction(s, n)))
      case None => ReverseDosage(s, units, i, k + 1)
  }

  /**
   * The dosage pattern whose two unit alternations list `units`, at
   * position `i`: the first alternative, else the second.
   */
  function DosagePatternAt(s: string, units: seq<string>, i: nat): (r: Option<DosageGroups>)
    ensures r.Some? ==> WellFormedDosage(r.value)
  {
    if i > |s| then None
    else
      var forward := ForwardDosage(s, units, NumberCandidates(s, i));
      if forward.Some? then forward
      else if Boundary(s, i) then ReverseDosage(s, units, i, 0)
      else None
  }

  /** The dosage pattern of app.py:97-100, built from `dosage_keywords`, at position `i`. */
  function DosageAt(s: string, i: nat): (r: Option<DosageGroups>)
    ensures r.Some? ==> WellFormedDosage(r.value)
  {
    DosagePatternAt(s, DosageKeywords, i)
  }

  /**
   * What every dosage match satisfies: exactly one alternative took part
   * (unit in group 3 or in group 4), and a fraction in group 2 belongs to
   * a forward match.
   */
  predicate WellFormedDosage(g: DosageGroups) {
    && (g.g3.Some? <==> g.g4.None?)
    && (g.g1.Some? ==> |g.g1.value| > 0)
    && (g.g2.Some? ==> g.g1.Some? && g.g3.Some? && IsFractionText(g.g2.value))
  }

  /** Every unit is non-empty and starts with a lower-case letter. */
  predicate LowerLed(units: seq<string>) {
    forall j :: 0 <= j < |units| ==> |units[j]| > 0 && IsLowerLetter(units[j][0])
  }

  /** Unit `j` matches at `q`, ignoring case, and ends at a word boundary. */
  predicate UnitEndsAt(s: string, units: seq<string>, q: nat, j: nat) {
    j < |units| && StartsAtFold(s, q, units[j]) && Boundary(s, q + |units[j]|)
  }

  /**
   * One way for the first alternative to match: the number `n`, whitespace
   * up to `q`, then unit `j` ending at a word boundary.
   */
  predicate ForwardSplit(s: string, units: seq<string>, n: Num, q: nat, j: nat) {
    NumberToken(s, n) && SpaceSpan(s, n.end, q) && UnitEndsAt(s, units, q, j)
  }

  /**
   * One way for the second alternative to match at `i`: a word boundary,
   * unit `j`, whitespace, then the number `n`.
   */
  predicate ReverseSplit(s: string, units: seq<string>, i: nat, j: nat, n: Num) {
    && j < |units| && Boundary(s, i) && StartsAtFold(s, i, units[j])
    && SpaceSpan(s, i + |units[j]|, n.start) && NumberToken(s, n)
  }

  ghost predicate ForwardMatchAt(s: string, units: seq<string>, i: nat) {
    exists n: Num, q: nat, j: nat :: n.start == i && ForwardSplit(s, units, n, q, j)
  }

  ghost predicate ReverseMatchAt(s: string, units: seq<string>, i: nat) {
    exists j: nat, n: Num :: ReverseSplit(s, units, i, j, n)
  }

  /** The dosage pattern built from `units` can match at `i`. */
  ghost predicate DosageMatchAt(s: string, units: seq<string>, i: nat) {
    ForwardMatchAt(s, units, i) || ReverseMatchAt(s, units, i)
  }

  /** `i` is the first position where the dosage pattern built from `units` can match. */
  ghost predicate FirstDosageMatch(s: string, units: seq<string>, i: nat) {
    DosageMatchAt(s, units, i) && forall k: nat :: k < i ==> !DosageMatchAt(s, units, k)
  }

  function DosageSearch(s: string): (r: Option<DosageGroups>)
    ensures r.Some? ==> WellFormedDosage(r.value)
  {
    var at := (i: nat) => DosageAt(s, i);
    var r := Leftmost(|s|, 0, at);
    assert r.Some? ==> WellFormedDosage(r.value) by {
      if r.Some? {
        var j :| 0 <= j <= |s| && at(j) == r;
        assert DosageAt(s, j) == r;
      }
    }
    r
  }

  // ---------------------------------------------------------------------------
  // Bare number (app.py:107): a number, then optional whitespace and an
  // optional "tablet" or "cap".
  // Everything after the number may match empty, so the first candidate wins.

  function NumberOnlyAt(s: string, i: nat): (r: Option<string>)
    ensures r.Some? ==> |r.value| > 0 && IsDigit(r.value[0])
  {
    if i > |s| || NumberCandidates(s, i) == [] then None
    else
      var n := NumberCandidates(s, i)[0];
      assert NumberToken(s, n);
      assert NumText(s, n)[0] == s[n.start..n.intEnd][0];
      Some(NumText(s, n))
  }

  /** Group 1 of `re.search` for the bare-number pattern. */
  function NumberOnlySearch(s: string): (r: Option<string>)
    ensures r.Some? ==> |r.value| > 0 && IsDigit(r.value[0])
  {
    var at := (i: nat) => NumberOnlyAt(s, i);
    var r := Leftmost(|s|, 0, at);
    assert r.Some? ==> |r.value| > 0 && IsDigit(r.value[0]) by {
      if r.Some? { var j :| 0 <= j <= |s| && at(j) == r; assert NumberOnlyAt(s, j) == r; }
    }
    r
  }

  /** `n` is a number token and no number token at its start is longer. */
  ghost predicate LongestNumberAt(s: string, n: Num) {
    NumberToken(s, n) && forall m :: NumberToken(s, m) && m.start == n.start ==> m.end <= n.end
  }

  /** `n` is the longest number token at the first position where a number token starts. */
  ghost predicate FirstNumber(s: string, n: Num) {
    LongestNumberAt(s, n) && forall m :: NumberToken(s, m) ==> n.start <= m.start
  }

  // ---------------------------------------------------------------------------
  // Triplet (app.py:115): three digit runs separated by '-' with optional
  // whitespace around each '-', with a word boundary before and after.
  // Giving back digits or whitespace leaves a digit or a space where '-', a
  // digit or `\b` is needed, so only the greedy path can succeed.

  datatype Triplet = Triplet(morning: string, afternoon: string, night: string)

  /** `s[a..b]` is optional whitespace, one '-' and optional whitespace. */
  predicate DashSep(s: string, a: nat, b: nat) {
    exists d :: a <= d < b <= |s| && s[d] == '-'
      && (forall k :: a <= k < d ==> IsSpace(s[k])) && (forall k :: d < k < b ==> IsSpace(s[k]))
  }

  /** `s[a..b]` is a run of digits that a digit neither precedes nor follows. */
  predicate DigitsEndAt(s: string, a: nat, b: nat) {
    a < b <= |s| && AllDigits(s[a..b]) && (b < |s| ==> !IsDigit(s[b]))
  }

  /** A separator and the maximal run of digits after it, from `i`: where the run starts and ends. */
  function DashNumber(s: string, i: nat): (r: Option<(nat, nat)>)
    requires i <= |s|
    ensures r.Some? ==> i < r.value.0 && DashSep(s, i, r.value.0) && DigitsEndAt(s, r.value.0, r.value.1)
    ensures r.Some? ==> SpaceRun(s, i) < |s| && s[SpaceRun(s, i)] == '-'
  {
    var d := SpaceRun(s, i);
    if d < |s| && s[d] == '-' then
      var b := SpaceRun(s, d + 1);
      if b < |s| && IsDigit(s[b]) then
        var e := DigitRun(s, b);
        assert DashSep(s, i, b) by {
          assert s[d] == '-' && forall k :: d < k < b ==> IsSpace(s[k]);
        }
        assert AllDigits(s[b..e]) by {
          forall k | 0 <= k < e - b ensures IsDigit(s[b..e][k]) {
            assert s[b..e][k] == s[b + k];
          }
        }
        Some((b, e))
      else None
    else None
  }

  /**
   * One way for the triplet pattern to match at `i`: digits `i..a`, a
   * separator, digits `b..c`, a separator, digits `d..e`, with a word
   * boundary at `i` and at `e`.
   */
  predicate TripletSplit(s: string, i: nat, a: nat, b: nat, c: nat, d: nat, e: nat) {
    && i < a < b < c < d < e <= |s|
    && AllDigits(s[i..a]) && DashSep(s, a, b)
    && AllDigits(s[b..c]) && DashSep(s, c, d)
    && AllDigits(s[d..e])
    && Boundary(s, i) && Boundary(s, e)
  }

  /** `t` holds the three groups of a way for the triplet pattern to match at `i`. */
  ghost predicate TripletMatch(s: string, i: nat, t: Triplet) {
    exists a: nat, b: nat, c: nat, d: nat, e: nat ::
      TripletSplit(s, i, a, b, c, d, e) && t == Triplet(s[i..a], s[b..c], s[d..e])
  }

  function TripletAt(s: string, i: nat): (r: Option<Triplet>)
    ensures r.Some? ==> TripletMatch(s, i, r.value)
  {
    if i < |s| && IsDigit(s[i]) && Boundary(s, i) then
      var a := DigitRun(s, i);
      match DashNumber(s, a)
      case None => None
      case Some(second) =>
        match DashNumber(s, second.1)
        case None => None
        case Some(third) =>
          if Boundary(s, third.1) then
            assert AllDigits(s[i..a]) by {
              forall k | 0 <= k < a - i ensures IsDigit(s[i..a][k]) {
                assert s[i..a][k] == s[i + k];
              }
            }
            assert TripletSplit(s, i, a, second.0, second.1, third.0, third.1);
            Some(Triplet(s[i..a], s[second.0..second.1], s[third.0..third.1]))
          else None
    else None
  }

  function TripletSearch(s: string): (r: Option<Triplet>)
    ensures r.Some? ==> exists i: nat :: i <= |s| && TripletMatch(s, i, r.value)
  {
    var at := (i: nat) => TripletAt(s, i);
    var r := Leftmost(|s|, 0, at);
    assert r.Some? ==> exists i: nat :: i <= |s| && TripletMatch(s, i, r.value) by {
      if r.Some? {
        var j :| 0 <= j <= |s| && at(j) == r;
        assert TripletAt(s, j) == r;
      }
    }
    r
  }

  // ---------------------------------------------------------------------------
  // Number and keyword (app.py:120), ignoring case: a number, optional
  // whitespace, then the keyword or "times", an optional "a" and "day"
  // with optional whitespace between them.
  // Group 1 is the number and group 2 its fraction. No keyword starts with
  // whitespace or '.', so `\s*` is greedy and the fraction candidate wins
  // whenever there is one.

  /** The "times a day" alternative matches at `q`; backtracking can only give back the optional "a". */
  predicate TimesADayAt(s: string, q: nat)
    requires q <= |s|
  {
    && StartsAtFold(s, q, "times")
    && var r := SpaceRun(s, q + 5);
       (r < |s| && LowerChar(s[r]) == 'a' && StartsAtFold(s, SpaceRun(s, r + 1), "day"))
       || StartsAtFold(s, r, "day")
  }

  /** Whitespace fills `a..b`. */
  predicate SpaceSpan(s: string, a: nat, b: nat) {
    a <= b <= |s| && forall k :: a <= k < b ==> IsSpace(s[k])
  }

  /**
   * One way for the "times a day" alternative to match at `q`: "times",
   * whitespace up to `r`, an optional "a" up to `a`, whitespace up to `t`,
   * then "day".
   */
  predicate TimesADaySplit(s: string, q: nat, r: nat, a: nat, t: nat) {
    && q + 5 <= r <= a <= t <= |s|
    && StartsAtFold(s, q, "times") && SpaceSpan(s, q + 5, r)
    && (a == r || (a == r + 1 && LowerChar(s[r]) == 'a'))
    && SpaceSpan(s, a, t) && StartsAtFold(s, t, "day")
  }

  ghost predicate TimesADayMatch(s: string, q: nat) {
    exists r: nat, a: nat, t: nat :: TimesADaySplit(s, q, r, a, t)
  }

  /**
   * One way for the number-and-keyword pattern to match: the number `n`,
   * whitespace up to `q`, then the keyword `kw` or "times a day".
   */
  ghost predicate FreqSplit(s: string, kw: string, n: Num, q: nat) {
    NumberToken(s, n) && SpaceSpan(s, n.end, q) && (StartsAtFold(s, q, kw) || TimesADayMatch(s, q))
  }

  /** The number-and-keyword pattern can match at `i`. */
  ghost predicate FreqMatchAt(s: string, kw: string, i: nat) {
    exists n: Num, q: nat :: n.start == i && FreqSplit(s, kw, n, q)
  }

  /** It can match at `i` with an integer: a number without a decimal part. */
  ghost predicate IntegerFreqMatchAt(s: string, kw: string, i: nat) {
    exists n: Num, q: nat :: n.start == i && n.intEnd == n.end && FreqSplit(s, kw, n, q)
  }

  /** `i` is the first position where the number-and-keyword pattern can match. */
  ghost predicate FirstFreqMatch(s: string, kw: string, i: nat) {
    FreqMatchAt(s, kw, i) && forall k: nat :: k < i ==> !FreqMatchAt(s, kw, k)
  }

  datatype FreqGroups = FreqGroups(g1: string, g2: Option<string>)

  function FreqNumber(s: string, kw: string, cs: seq<Num>): (r: Option<FreqGroups>)
    requires forall c :: c in cs ==> NumberToken(s, c)
    ensures r.Some? && r.value.g2.Some? ==> IsFractionText(r.value.g2.value)
  {
    if cs == [] then None
    else
      var c := cs[0];
      assert c in cs && NumberToken(s, c);
      var q := SpaceRun(s, c.end);
      if StartsAtFold(s, q, kw) || TimesADayAt(s, q)
      then Some(FreqGroups(NumText(s, c), Fraction(s, c)))
      else FreqNumber(s, kw, cs[1..])
  }

  function FreqNumberAt(s: string, kw: string, i: nat): (r: Option<FreqGroups>)
    ensures r.Some? && r.value.g2.Some? ==> IsFractionText(r.value.g2.value)
  {
    if i > |s| then None else FreqNumber(s, kw, NumberCandidates(s, i))
  }

  function FreqNumberSearch(s: string, kw: string): (r: Option<FreqGroups>)
    ensures r.Some? && r.value.g2.Some? ==> IsFractionText(r.value.g2.value)
  {
    var at := (i: nat) => FreqNumberAt(s, kw, i);
    var r := Leftmost(|s|, 0, at);
    assert r.Some? && r.value.g2.Some? ==> IsFractionText(r.value.g2.value) by {
      if r.Some? {
        var j :| 0 <= j <= |s| && at(j) == r;
        assert FreqNumberAt(s, kw, j) == r;
      }
    }
    r
  }
}
