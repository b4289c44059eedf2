/**
 * The name-line classifier and the cleanup of the stored name
 * (app.py:85-92).
 */
module NameClassifier {
  import opened Results
  import opened PyStr
  import opened Patterns

  /** Some frequency keyword occurs in the lower-cased line. */
  predicate HasFrequencyKeyword(lower: string) {
    exists k :: 0 <= k < |FrequencyKeywords| && Contains(lower, FrequencyKeywords[k])
  }

  /** The test at app.py:86: the name shape, and no frequency keyword anywhere. */
  predicate IsNameLine(line: string) {
    NameShape(line) && !HasFrequencyKeyword(Lower(line))
  }

  /** The first unit, in table order from `k`, such that `name.lower()` ends with `" " + unit`. */
  function SuffixUnit(name: string, k: nat): (u: Option<string>)
    ensures u.Some? ==> u.value in DosageKeywords && EndsWith(Lower(name), " " + u.value)
    ensures u.Some? ==>
              exists j :: k <= j < |DosageKeywords| && u.value == DosageKeywords[j]
                && forall i :: k <= i < j ==> !EndsWith(Lower(name), " " + DosageKeywords[i])
    ensures u.None? ==> forall j :: k <= j < |DosageKeywords| ==> !EndsWith(Lower(name), " " + DosageKeywords[j])
    decreases |DosageKeywords| - k
  {
    if k >= |DosageKeywords| then None
    else if EndsWith(Lower(name), " " + DosageKeywords[k]) then Some(DosageKeywords[k])
    else SuffixUnit(name, k + 1)
  }

  /**
   * The name stored for a name line (app.py:87-91): punctuation removed and
   * whitespace trimmed; then, for the first unit the result ends with,
   * every "<number><unit>" fragment removed and the rest trimmed again.
   */
  function CleanedName(line: string): (name: string)
    ensures forall c :: c in name ==> c in line && !IsPunct(c)
  {
    var name := Strip(RemovePunct(line));
    match SuffixUnit(name, 0)
    case None => name
    case Some(unit) => Strip(RemoveUnitFragments(name, unit, 0))
  }

  /** The statements at app.py:87-91, with the loop over `dosage_keywords` that stops at the first strip. */
  method CleanName(line: string) returns (name: string)
    ensures name == CleanedName(line)
  {
    name := Strip(RemovePunct(line));
    ghost var trimmed := name;
    for k := 0 to |DosageKeywords|
      invariant name == trimmed
      invariant SuffixUnit(trimmed, k) == SuffixUnit(trimmed, 0)
    {
      var unit := DosageKeywords[k];
      if EndsWith(Lower(name), " " + unit) {
        name := Strip(RemoveUnitFragments(name, unit, 0));
        break;
      }
    }
  }

  /**
   * The stored name of a name line is never empty: it begins with the
   * line's leading capital, it is trimmed, and it holds none of the
   * removed punctuation.
   */
  lemma CleanedNameKeepsInitial(line: string)
    requires NameShape(line)
    ensures var name := CleanedName(line);
            && |name| > 0 && name[0] == line[0]
            && Stripped(name)
            && forall c :: c in name ==> !IsPunct(c)
  {
    var trimmed := Strip(RemovePunct(line));
    StripKeepsInitial(RemovePunct(line));
    match SuffixUnit(trimmed, 0)
    case None =>
    case Some(unit) =>
      assert UnitFragmentAt(trimmed, 0, unit).None? by {
        assert SpaceRun(trimmed, 0) == 0;
      }
      StripKeepsInitial(RemoveUnitFragments(trimmed, unit, 0));
  }

  /** Trimming text that starts with a capital and has no punctuation keeps both properties. */
  lemma StripKeepsInitial(s: string)
    requires |s| > 0 && IsUpper(s[0]) && forall c :: c in s ==> !IsPunct(c)
    ensures var r := Strip(s);
            && |r| > 0 && r[0] == s[0] && Stripped(r)
            && forall c :: c in r ==> !IsPunct(c)
  {
  }
}
