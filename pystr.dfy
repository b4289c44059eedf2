/**
 * The parts of Python's `str` that the extractor uses, on ASCII text:
 * `isspace`, `lower`, `strip`, `split('\n')`, `in` and `endswith`.
 */
module PyStr {

  /** `str.isspace()` and the regex class `\s`: space, `\t \n \v \f \r` and the separators `\x1c`-`\x1f`. */
  predicate IsSpace(c: char) {
    c == ' ' || ('\t' <= c <= '\r') || ('\U{1C}' <= c <= '\U{1F}')
  }

  /** The regex class `\d`. */
  predicate IsDigit(c: char) {
    '0' <= c <= '9'
  }

  predicate IsUpper(c: char) {
    'A' <= c <= 'Z'
  }

  predicate IsLowerLetter(c: char) {
    'a' <= c <= 'z'
  }

  /** The regex class `\w`. */
  predicate IsWord(c: char) {
    IsDigit(c) || IsUpper(c) || IsLowerLetter(c) || c == '_'
  }

  function LowerChar(c: char): char {
    if IsUpper(c) then (c as int + 32) as char else c
  }

  /** `str.lower()`. */
  function Lower(s: string): (lowered: string) {
    seq(|s|, k requires 0 <= k < |s| => LowerChar(s[k]))
  }

  /** End of the run of whitespace that starts at `i` (greedy `\s*`). */
  function SpaceRun(s: string, i: nat): (e: nat)
    requires i <= |s|
    ensures i <= e <= |s|
    ensures forall k :: i <= k < e ==> IsSpace(s[k])
    ensures e < |s| ==> !IsSpace(s[e])
    decreases |s| - i
  {
    if i < |s| && IsSpace(s[i]) then SpaceRun(s, i + 1) else i
  }

  /** Start of the run of whitespace that ends at `j`. */
  function SpaceRunBack(s: string, j: nat): (b: nat)
    requires j <= |s|
    ensures b <= j
    ensures forall k :: b <= k < j ==> IsSpace(s[k])
    ensures 0 < b ==> !IsSpace(s[b - 1])
  {
    if 0 < j && IsSpace(s[j - 1]) then SpaceRunBack(s, j - 1) else j
  }

  /** `str.strip()`: the text between the leading and the trailing whitespace. */
  function Strip(s: string): (r: string)
    ensures |r| <= |s|
    ensures r == [] <==> forall k :: 0 <= k < |s| ==> IsSpace(s[k])
    ensures r != [] ==> !IsSpace(r[0]) && !IsSpace(r[|r| - 1])
    ensures forall c :: c in r ==> c in s
    ensures |s| > 0 && !IsSpace(s[0]) ==> |r| > 0 && r[0] == s[0]
    ensures exists a, b :: 0 <= a <= b <= |s| && r == s[a..b]
              && (forall k :: 0 <= k < a ==> IsSpace(s[k])) && (forall k :: b <= k < |s| ==> IsSpace(s[k]))
  {
    var a := SpaceRun(s, 0);
    if a == |s| then
      assert s[a..a] == "";
      ""
    else
      var b := SpaceRunBack(s, |s|);
      assert a < b by {
        assert !IsSpace(s[a]);
      }
      s[a..b]
  }

  /** Text that `str.strip()` leaves unchanged. */
  predicate Stripped(s: string) {
    s == [] || (!IsSpace(s[0]) && !IsSpace(s[|s| - 1]))
  }

  lemma StripOfStripped(s: string)
    requires Stripped(s)
    ensures Strip(s) == s
  {
    if s != [] {
      assert SpaceRun(s, 0) == 0;
      assert SpaceRunBack(s, |s|) == |s|;
      assert s[0..|s|] == s;
    }
  }

  /** `str.split('\n')`: the pieces between newlines; `""` gives `[""]`. */
  function SplitLines(s: string): (lines: seq<string>)
    ensures |lines| >= 1
    ensures forall l :: l in lines ==> '\n' !in l
    ensures JoinLines(lines) == s
  {
    if s == [] then [""]
    else
      var rest := SplitLines(s[1..]);
      if s[0] == '\n' then [""] + rest
      else
        assert JoinLines(rest) == s[1..];
        [[s[0]] + rest[0]] + rest[1..]
  }

  /** `'\n'.join(lines)`, the inverse of `SplitLines`. */
  function JoinLines(lines: seq<string>): (text: string)
    requires |lines| >= 1
  {
    if |lines| == 1 then lines[0] else lines[0] + "\n" + JoinLines(lines[1..])
  }

  /** Every character of a joined line occurs in the joined text. */
  lemma {:induction false} JoinLinesContains(lines: seq<string>, k: nat, c: char)
    requires |lines| >= 1 && k < |lines| && c in lines[k]
    ensures c in JoinLines(lines)
  {
    if k > 0 {
      JoinLinesContains(lines[1..], k - 1, c);
    }
  }

  /** Python `t in s` for strings: `t` occurs in `s` at some position. */
  predicate StartsAt(s: string, i: nat, t: string) {
    i + |t| <= |s| && s[i..i + |t|] == t
  }

  predicate Contains(s: string, t: string) {
    exists i: nat :: i <= |s| && StartsAt(s, i, t)
  }

  /** `s.endswith(t)`. */
  predicate EndsWith(s: string, t: string) {
    |t| <= |s| && s[|s| - |t|..] == t
  }

  /** `t` (written in lower case) matches at `i` under `re.IGNORECASE`. */
  predicate StartsAtFold(s: string, i: nat, t: string) {
    i + |t| <= |s| && Lower(s[i..i + |t|]) == t
  }
}
