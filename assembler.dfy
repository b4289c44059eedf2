/**
 * The record assembler, `parse_medicine_details` (app.py:62-137): the text
 * is split into lines, each line is classified, a name line sets the
 * pending medicine name, and the next detail line turns the pending name
 * and that line's dosage and frequency into a record.
 */
module RecordAssembler {
  import opened Results
  import opened PyStr
  import opened Patterns
  import opened PhoneFilter
  import opened NameClassifier
  import opened FieldExtractor

  datatype Record = Record(name: string, dosage: string, frequency: string)

  /** The single record returned for non-blank text that yields no record (app.py:135-136). */
  const Sentinel := Record("Could not parse medicine details", "", "")

  /** The loop state: `current_medicine_name` and `medicines`. */
  datatype Machine = Machine(pending: Option<string>, records: seq<Record>)

  const Start := Machine(None, [])

  /**
   * What app.py:77-125 makes of one line on its own. A detail line carries
   * its dosage as computed with a name pending, the only case in which the
   * dosage is used, and the outcome of its frequency scan.
   */
  datatype LineKind = Blank | Phone | Name(name: string) | Detail(dosage: string, frequency: Outcome<string>)

  function Classify(raw: string): (kind: LineKind)
    ensures kind.Blank? <==> forall k :: 0 <= k < |raw| ==> IsSpace(raw[k])
    ensures kind.Name? ==> GoodName(kind.name)
  {
    var line := Strip(raw);
    if line == "" then Blank
    else if IsLikelyPhoneNumber(line) then Phone
    else if IsNameLine(line) then
      CleanedNameKeepsInitial(line);
      Name(CleanedName(line))
    else Detail(Dosage(Lower(line), true), Frequency(Lower(line)))
  }

  /** The classification of every line, in order. */
  function Classified(lines: seq<string>): (kinds: seq<LineKind>)
    ensures |kinds| == |lines| && forall k :: 0 <= k < |lines| ==> kinds[k] == Classify(lines[k])
  {
    seq(|lines|, k requires 0 <= k < |lines| => Classify(lines[k]))
  }

  /** One iteration of the loop at app.py:76-132; `Crashed` is the TypeError of app.py:121. */
  function Step(m: Machine, kind: LineKind): (next: Outcome<Machine>) {
    match kind
    case Blank => Ok(m)
    case Phone => Ok(m)
    case Name(n) => Ok(Machine(Some(n), m.records))
    case Detail(dosage, frequency) =>
      match frequency
      case Crashed => Crashed
      case Ok(f) =>
        if Truthy(m.pending) then
          Ok(Machine(None, m.records + [Record(Strip(m.pending.value), Strip(dosage), Strip(f))]))
        else Ok(m)
  }

  /** The loop over the classified lines, from the initial state; a crash ends it. */
  function Run(kinds: seq<LineKind>): (final: Outcome<Machine>) {
    if kinds == [] then Ok(Start)
    else
      match Run(kinds[..|kinds| - 1])
      case Crashed => Crashed
      case Ok(m) => Step(m, kinds[|kinds| - 1])
  }

  /** `parse_medicine_details(text)`, or `Crashed` when it raises. */
  function Parse(text: string): (records: Outcome<seq<Record>>) {
    match Run(Classified(SplitLines(text)))
    case Crashed => Crashed
    case Ok(m) => Ok(if m.records == [] && Strip(text) != "" then [Sentinel] else m.records)
  }

  /** One more line: the loop runs one more step, unless it has crashed already. */
  lemma RunSnoc(kinds: seq<LineKind>, kind: LineKind)
    ensures Run(kinds + [kind]) == match Run(kinds) case Crashed => Crashed case Ok(m) => Step(m, kind)
  {
    assert (kinds + [kind])[..|kinds|] == kinds;
  }

  /** Two more lines: the second step runs on what the first one leaves. */
  lemma RunSnoc2(kinds: seq<LineKind>, x: LineKind, y: LineKind)
    ensures Run(kinds + [x, y]) == match Run(kinds + [x]) case Crashed => Crashed case Ok(m) => Step(m, y)
  {
    assert kinds + [x, y] == kinds + [x] + [y];
    RunSnoc(kinds + [x], y);
  }

  /** The same, for the prefixes of one list of lines. */
  lemma RunPrefixStep(kinds: seq<LineKind>, k: nat)
    requires k < |kinds|
    ensures Run(kinds[..k + 1]) == match Run(kinds[..k]) case Crashed => Crashed case Ok(m) => Step(m, kinds[k])
  {
    assert kinds[..k + 1] == kinds[..k] + [kinds[k]];
    RunSnoc(kinds[..k], kinds[k]);
  }

  /** Once the loop has crashed, the lines after do not matter. */
  lemma {:induction false} RunCrashedPrefix(kinds: seq<LineKind>, k: nat)
    requires k <= |kinds| && Run(kinds[..k]) == Crashed
    ensures Run(kinds) == Crashed
    decreases |kinds| - k
  {
    if k < |kinds| {
      assert kinds[..k + 1][..k] == kinds[..k];
      RunCrashedPrefix(kinds, k + 1);
    } else {
      assert kinds[..k] == kinds;
    }
  }

  /**
   * The body of the loop at app.py:77-132 for one line, with its
   * `continue`s: the next pending name and record list, or `crashed` when
   * the frequency scan raises.
   */
  method ParseLine(raw: string, current: Option<string>, medicines: seq<Record>)
    returns (crashed: bool, next: Option<string>, records: seq<Record>)
    ensures crashed <==> Step(Machine(current, medicines), Classify(raw)).Crashed?
    ensures !crashed ==> Step(Machine(current, medicines), Classify(raw)) == Ok(Machine(next, records))
  {
    crashed, next, records := false, current, medicines;
    var line := Strip(raw);
    var lower := Lower(line);
    if line == "" {
      assert Classify(raw) == Blank;
      return;
    }
    if IsLikelyPhoneNumber(line) {
      assert Classify(raw) == Phone;
      return;
    }
    if IsNameLine(line) {
      var name := CleanName(line);
      assert Classify(raw) == Name(name);
      next := Some(name);
      return;
    }
    assert Classify(raw) == Detail(Dosage(lower, true), Frequency(lower));
    var dosage := Dosage(lower, Truthy(current));
    var frequency := ExtractFrequency(lower);
    if frequency.Crashed? {
      crashed := true;
      return;
    }
    if Truthy(current) {
      records := medicines + [Record(Strip(current.value), Strip(dosage), Strip(frequency.value))];
      next := None;
    }
  }

  /** The statements of `parse_medicine_details`: the loop over the lines and the sentinel. */
  method ParseMedicineDetails(text: string) returns (r: Outcome<seq<Record>>)
    ensures r == Parse(text)
  {
    var lines := SplitLines(text);
    ghost var kinds := Classified(lines);
    var medicines: seq<Record> := [];
    var current: Option<string> := None;
    for k := 0 to |lines|
      invariant Run(kinds[..k]) == Ok(Machine(current, medicines))
    {
      RunPrefixStep(kinds, k);
      assert kinds[k] == Classify(lines[k]);
      var crashed;
      crashed, current, medicines := ParseLine(lines[k], current, medicines);
      if crashed {
        RunCrashedPrefix(kinds, k + 1);
        return Crashed;
      }
    }
    assert kinds[..|lines|] == kinds;
    if medicines == [] && Strip(text) != "" {
      return Ok([Sentinel]);
    }
    return Ok(medicines);
  }

  // ---------------------------------------------------------------------------
  // Invariants of the loop state

  /** A stored name: non-empty, trimmed, led by a capital, free of the removed punctuation. */
  predicate GoodName(n: string) {
    |n| > 0 && IsUpper(n[0]) && Stripped(n) && forall c :: c in n ==> !IsPunct(c)
  }

  predicate GoodRecord(r: Record) {
    GoodName(r.name) && Stripped(r.dosage) && Stripped(r.frequency)
  }

  predicate GoodMachine(m: Machine) {
    (m.pending.Some? ==> GoodName(m.pending.value))
    && forall i :: 0 <= i < |m.records| ==> GoodRecord(m.records[i])
  }

  /** A line classified as a name line, and every line from which `Classified` builds one. */
  predicate GoodKind(kind: LineKind) {
    kind.Name? ==> GoodName(kind.name)
  }

  lemma ClassifiedGood(lines: seq<string>)
    ensures forall k :: 0 <= k < |lines| ==> GoodKind(Classified(lines)[k])
  {
    forall k | 0 <= k < |lines| ensures GoodKind(Classified(lines)[k]) {
      assert Classified(lines)[k] == Classify(lines[k]);
    }
  }

  /**
   * Each step keeps the state good, keeps the records already built, and
   * emits a record exactly when a name is pending and the line is a detail
   * line; the record carries the pending name.
   */
  lemma StepKeepsGood(m: Machine, kind: LineKind)
    requires GoodMachine(m) && GoodKind(kind)
    ensures Step(m, kind).Ok? ==> GoodMachine(Step(m, kind).value)
    ensures Step(m, kind).Ok? ==>
              var m' := Step(m, kind).value;
              && m'.records[..|m.records|] == m.records
              && |m'.records| == |m.records| + (if kind.Detail? && m.pending.Some? then 1 else 0)
              && (|m'.records| > |m.records| ==> m'.records[|m.records|].name == m.pending.value)
  {
    if kind.Detail? && kind.frequency.Ok? && m.pending.Some? {
      var n := m.pending.value;
      StripOfStripped(n);
      var rec := Record(n, Strip(kind.dosage), Strip(kind.frequency.value));
      assert GoodRecord(rec);
      var rs := m.records + [rec];
      assert Step(m, kind) == Ok(Machine(None, rs));
      assert rs[..|m.records|] == m.records;
      forall i | 0 <= i < |rs| ensures GoodRecord(rs[i]) {
        if i < |m.records| {
          assert rs[i] == m.records[i];
        }
      }
    }
  }

  /** Every record the loop builds has a good name and trimmed dosage and frequency. */
  lemma {:induction false} RunKeepsGood(kinds: seq<LineKind>)
    requires forall k :: 0 <= k < |kinds| ==> GoodKind(kinds[k])
    ensures Run(kinds).Ok? ==> GoodMachine(Run(kinds).value)
  {
    if kinds != [] {
      var init := kinds[..|kinds| - 1];
      RunKeepsGood(init);
      if Run(init).Ok? {
        StepKeepsGood(Run(init).value, kinds[|kinds| - 1]);
      }
    }
  }

  // ---------------------------------------------------------------------------
  // Records and name lines

  function NameLines(kinds: seq<LineKind>): (count: nat) {
    if kinds == [] then 0
    else NameLines(kinds[..|kinds| - 1]) + (if kinds[|kinds| - 1].Name? then 1 else 0)
  }

  /** Every record, and the pending name, uses up a name line of its own. */
  lemma {:induction false} RecordsNeedNameLines(kinds: seq<LineKind>)
    ensures Run(kinds).Ok? ==>
              |Run(kinds).value.records| + (if Run(kinds).value.pending.Some? then 1 else 0) <= NameLines(kinds)
  {
    if kinds != [] {
      RecordsNeedNameLines(kinds[..|kinds| - 1]);
    }
  }

  /** The names of the name lines, in order. */
  function NameList(kinds: seq<LineKind>): (names: seq<string>)
    ensures |names| == NameLines(kinds)
  {
    if kinds == [] then []
    else NameList(kinds[..|kinds| - 1]) + (if kinds[|kinds| - 1].Name? then [kinds[|kinds| - 1].name] else [])
  }

  /** The names the loop state accounts for: each record's name in order, then the pending name. */
  function NamesHeld(m: Machine): (names: seq<string>)
    ensures |names| == |m.records| + (if m.pending.Some? then 1 else 0)
    ensures forall i :: 0 <= i < |m.records| ==> names[i] == m.records[i].name
    ensures m.pending.Some? ==> names[|m.records|] == m.pending.value
  {
    seq(|m.records|, i requires 0 <= i < |m.records| => m.records[i].name)
      + (if m.pending.Some? then [m.pending.value] else [])
  }

  /** `a` is `b` with some elements deleted: matching from the back, greedily. */
  predicate IsSubsequence(a: seq<string>, b: seq<string>)
    decreases |b|
  {
    if a == [] then true
    else if b == [] then false
    else if a[|a| - 1] == b[|b| - 1] then IsSubsequence(a[..|a| - 1], b[..|b| - 1])
    else IsSubsequence(a, b[..|b| - 1])
  }

  /** Deleting the last element of a subsequence leaves a subsequence. */
  lemma {:induction false} SubsequenceDropLast(a: seq<string>, b: seq<string>)
    requires IsSubsequence(a, b) && a != []
    ensures IsSubsequence(a[..|a| - 1], b)
    decreases |b|, 0
  {
    var b' := b[..|b| - 1];
    assert b' + [b[|b| - 1]] == b;
    if a[|a| - 1] == b[|b| - 1] {
      SubsequenceExtend(a[..|a| - 1], b', b[|b| - 1]);
    } else {
      SubsequenceDropLast(a, b');
      SubsequenceExtend(a[..|a| - 1], b', b[|b| - 1]);
    }
  }

  /** A subsequence stays one when the sequence grows at the end. */
  lemma {:induction false} SubsequenceExtend(a: seq<string>, b: seq<string>, x: string)
    requires IsSubsequence(a, b)
    ensures IsSubsequence(a, b + [x])
    decreases |b|, 1
  {
    assert (b + [x])[..|b|] == b;
    if a != [] && a[|a| - 1] == x {
      SubsequenceDropLast(a, b);
    }
  }

  /**
   * One step keeps the names the state accounts for a subsequence of the
   * name lines read so far: a name line replaces the pending name, and a
   * record takes over the pending name unchanged, since a stored name is
   * already trimmed.
   */
  lemma StepKeepsNameOrder(m: Machine, kind: LineKind, names: seq<string>)
    requires GoodMachine(m) && GoodKind(kind) && Step(m, kind).Ok?
    requires IsSubsequence(NamesHeld(m), names)
    ensures IsSubsequence(NamesHeld(Step(m, kind).value), names + (if kind.Name? then [kind.name] else []))
  {
    var held := NamesHeld(Machine(None, m.records));
    match kind
    case Name(n) =>
      if m.pending.Some? {
        assert NamesHeld(m)[..|held|] == held;
        SubsequenceDropLast(NamesHeld(m), names);
      } else {
        assert NamesHeld(m) == held;
      }
      assert NamesHeld(Step(m, kind).value) == held + [n];
      assert (held + [n])[..|held|] == held && (names + [n])[..|names|] == names;
    case Detail(dosage, frequency) =>
      assert names + [] == names;
      if m.pending.Some? {
        StripOfStripped(m.pending.value);
        assert NamesHeld(Step(m, kind).value) == NamesHeld(m);
      }
    case Blank =>
      assert names + [] == names;
    case Phone =>
      assert names + [] == names;
  }

  /**
   * The records' names, followed by the pending name, occur in the order
   * of the name lines they were read from: each record and the pending
   * name use up a name line of their own, and later names never come
   * before earlier ones.
   */
  lemma {:induction false} RecordNamesInOrder(kinds: seq<LineKind>)
    requires forall k :: 0 <= k < |kinds| ==> GoodKind(kinds[k])
    ensures Run(kinds).Ok? ==> IsSubsequence(NamesHeld(Run(kinds).value), NameList(kinds))
  {
    if kinds != [] {
      var init := kinds[..|kinds| - 1];
      var kind := kinds[|kinds| - 1];
      assert forall k :: 0 <= k < |init| ==> GoodKind(init[k]) by {
        forall k | 0 <= k < |init| ensures GoodKind(init[k]) {
          assert init[k] == kinds[k];
        }
      }
      RecordNamesInOrder(init);
      RunKeepsGood(init);
      if Run(init).Ok? && Step(Run(init).value, kind).Ok? {
        StepKeepsNameOrder(Run(init).value, kind, NameList(init));
      }
    }
  }

  /** A name line directly followed by another name line yields no record: the first name is overwritten. */
  lemma NameThenName(kinds: seq<LineKind>, a: string, b: string)
    requires Run(kinds).Ok?
    ensures Run(kinds + [Name(a), Name(b)]) == Ok(Machine(Some(b), Run(kinds).value.records))
  {
    RunSnoc(kinds, Name(a));
    RunSnoc2(kinds, Name(a), Name(b));
  }

  /**
   * A name line followed by a detail line yields one record built from the
   * stored name and that line's dosage and frequency, unless the frequency
   * scan raises.
   */
  lemma NameThenDetail(kinds: seq<LineKind>, n: string, d: LineKind)
    requires Run(kinds).Ok? && GoodName(n) && d.Detail?
    ensures && (Run(kinds + [Name(n), d]) == Crashed <==> d.frequency == Crashed)
            && (d.frequency.Ok? ==>
                 Run(kinds + [Name(n), d]) == Ok(Machine(None, Run(kinds).value.records
                   + [Record(n, Strip(d.dosage), Strip(d.frequency.value))])))
  {
    RunSnoc(kinds, Name(n));
    RunSnoc2(kinds, Name(n), d);
    StripOfStripped(n);
  }

  // ---------------------------------------------------------------------------
  // Skipped lines and crashes

  /** A blank or phone line can be removed without changing the outcome. */
  lemma {:induction false} RunSkipsNoise(xs: seq<LineKind>, n: LineKind, ys: seq<LineKind>)
    requires n.Blank? || n.Phone?
    ensures Run(xs + [n] + ys) == Run(xs + ys)
    decreases |ys|
  {
    if ys == [] {
      assert (xs + [n] + ys)[..|xs|] == xs;
      assert xs + ys == xs;
    } else {
      var ys' := ys[..|ys| - 1];
      RunSkipsNoise(xs, n, ys');
      assert (xs + [n] + ys)[..|xs + [n] + ys| - 1] == xs + [n] + ys';
      assert (xs + ys)[..|xs + ys| - 1] == xs + ys';
    }
  }

  /** The line at `k` is a detail line whose frequency scan raises. */
  predicate CrashesAt(kinds: seq<LineKind>, k: int) {
    0 <= k < |kinds| && kinds[k].Detail? && kinds[k].frequency.Crashed?
  }

  /** The parse raises exactly when some detail line's frequency scan raises, whatever the lines around it. */
  lemma {:induction false} RunCrashes(kinds: seq<LineKind>)
    ensures Run(kinds) == Crashed <==> exists k :: CrashesAt(kinds, k)
  {
    if kinds != [] {
      var init := kinds[..|kinds| - 1];
      RunCrashes(init);
      if exists k :: CrashesAt(init, k) {
        var k :| CrashesAt(init, k);
        assert CrashesAt(kinds, k);
      }
      if exists k :: CrashesAt(kinds, k) {
        var k :| CrashesAt(kinds, k);
        if k < |init| {
          assert CrashesAt(init, k);
        }
      }
      if Run(init).Ok? && Step(Run(init).value, kinds[|init|]).Crashed? {
        assert CrashesAt(kinds, |init|);
      }
    }
  }

  // ---------------------------------------------------------------------------
  // The result

  lemma {:induction false} AllBlankRun(kinds: seq<LineKind>)
    requires forall k :: 0 <= k < |kinds| ==> kinds[k].Blank?
    ensures Run(kinds) == Ok(Start)
  {
    if kinds != [] {
      AllBlankRun(kinds[..|kinds| - 1]);
    }
  }

  /** Text made only of whitespace gives no record and no sentinel. */
  lemma BlankTextParsesToNothing(text: string)
    requires Strip(text) == ""
    ensures Parse(text) == Ok([])
  {
    var lines := SplitLines(text);
    forall k | 0 <= k < |lines| ensures Classify(lines[k]).Blank? {
      forall i | 0 <= i < |lines[k]| ensures IsSpace(lines[k][i]) {
        JoinLinesContains(lines, k, lines[k][i]);
      }
    }
    AllBlankRun(Classified(lines));
  }

  /** A parse that does not raise returns an empty list exactly when the text is blank. */
  lemma ParseEmptyIffBlank(text: string)
    requires Parse(text).Ok?
    ensures Parse(text).value == [] <==> Strip(text) == ""
  {
    if Strip(text) == "" {
      BlankTextParsesToNothing(text);
    }
  }

  /**
   * A parse that does not raise returns the sentinel alone, or records
   * that each have a good name and trimmed dosage and frequency.
   */
  lemma ParsedRecordsGood(text: string)
    requires Parse(text).Ok?
    ensures var rs := Parse(text).value;
            rs == [Sentinel] || forall i :: 0 <= i < |rs| ==> GoodRecord(rs[i])
  {
    var kinds := Classified(SplitLines(text));
    ClassifiedGood(SplitLines(text));
    RunKeepsGood(kinds);
  }
}
