/** The Python string operations that the parsers rely on. */
module Text {

  /** White space as `str.strip` and the regular expression class `\s` see it. */
  predicate IsSpace(c: char) {
    var n := c as int;
    || 0x09 <= n <= 0x0d || 0x1c <= n <= 0x20 || n == 0x85 || n == 0xa0 || n == 0x1680
    || 0x2000 <= n <= 0x200a || n == 0x2028 || n == 0x2029 || n == 0x202f || n == 0x205f || n == 0x3000
  }

  function TrimLeft(s: string): (t: string)
    ensures |t| <= |s|
  {
    if s == [] || !IsSpace(s[0]) then s else TrimLeft(s[1..])
  }

  function TrimRight(s: string): (t: string)
    ensures |t| <= |s|
  {
    if s == [] || !IsSpace(s[|s| - 1]) then s else TrimRight(s[..|s| - 1])
  }

  function Strip(s: string): string {
    TrimLeft(TrimRight(s))
  }

  /** What is trimmed is white space, and what is left does not begin with any. */
  lemma {:induction false} TrimLeftSplits(s: string)
    ensures
      var t := TrimLeft(s);
      && t == s[|s| - |t|..] && (t != [] ==> !IsSpace(t[0]))
      && forall i :: 0 <= i < |s| - |t| ==> IsSpace(s[i])
  {
    if s != [] && IsSpace(s[0]) { TrimLeftSplits(s[1..]); }
  }

  lemma {:induction false} TrimRightSplits(s: string)
    ensures
      var t := TrimRight(s);
      && t == s[..|t|] && (t != [] ==> !IsSpace(t[|t| - 1]))
      && forall i :: |t| <= i < |s| ==> IsSpace(s[i])
  {
    if s != [] && IsSpace(s[|s| - 1]) { TrimRightSplits(s[..|s| - 1]); }
  }

  lemma StripEnds(s: string)
    ensures Strip(s) == [] || (!IsSpace(Strip(s)[0]) && !IsSpace(Strip(s)[|Strip(s)| - 1]))
  {
    TrimRightSplits(s);
    TrimLeftSplits(TrimRight(s));
  }

  lemma NothingToStrip(s: string)
    requires s == [] || (!IsSpace(s[0]) && !IsSpace(s[|s| - 1]))
    ensures Strip(s) == s
  {
  }

  lemma StripIdempotent(s: string)
    ensures Strip(Strip(s)) == Strip(s)
  {
    StripEnds(s);
    NothingToStrip(Strip(s));
  }

  lemma SomethingToKeep(s: string)
    requires s != [] && !IsSpace(s[|s| - 1])
    ensures Strip(s) != []
  {
    TrimLeftSplits(s);
    assert TrimRight(s) == s;
  }

  lemma LowerSame(s: string)
    requires forall i :: 0 <= i < |s| ==> !('A' <= s[i] <= 'Z')
    ensures Lower(s) == s
  {
  }

  function LowerChar(c: char): char {
    if 'A' <= c <= 'Z' then (c as int - 'A' as int + 'a' as int) as char else c
  }

  function Lower(s: string): string {
    seq(|s|, i requires 0 <= i < |s| => LowerChar(s[i]))
  }

  predicate OccursAt(s: string, part: string, i: int) {
    0 <= i <= |s| - |part| && s[i..i + |part|] == part
  }

  /** `part in s`. */
  predicate Contains(s: string, part: string) {
    exists i :: 0 <= i <= |s| - |part| && OccursAt(s, part, i)
  }

  /** Case-insensitive `s.startswith(prefix)` for a lower-case prefix. */
  predicate StartsWithIgnoringCase(s: string, prefix: string) {
    |prefix| <= |s| && Lower(s[..|prefix|]) == prefix
  }

  // ---------------------------------------------------------------- character by character

  /** The same letter in either case, or the same character. */
  predicate SameLetter(a: char, b: char) {
    || a == b
    || ('A' <= a <= 'Z' && b as int == a as int + 32)
    || ('A' <= b <= 'Z' && a as int == b as int + 32)
  }

  ghost predicate SameIgnoringCase(a: string, b: string) {
    |a| == |b| && forall i :: 0 <= i < |a| ==> SameLetter(a[i], b[i])
  }

  /** `part` is written in `s` at that place, in upper or lower case. */
  ghost predicate WrittenAt(s: string, part: string, i: int) {
    0 <= i <= |s| - |part| && forall k :: 0 <= k < |part| ==> SameLetter(s[i + k], part[k])
  }

  ghost predicate Mentions(s: string, part: string) {
    exists i :: WrittenAt(s, part, i)
  }

  lemma LowerIff(a: string, b: string)
    ensures Lower(a) == Lower(b) <==> SameIgnoringCase(a, b)
  {
    if Lower(a) == Lower(b) {
      assert |Lower(a)| == |Lower(b)|;
      forall i | 0 <= i < |a| ensures SameLetter(a[i], b[i]) { assert Lower(a)[i] == Lower(b)[i]; }
    }
  }

  lemma WrittenIff(s: string, part: string, i: int)
    ensures OccursAt(Lower(s), Lower(part), i) <==> WrittenAt(s, part, i)
  {
    if 0 <= i <= |s| - |part| {
      assert Lower(s)[i..i + |part|] == Lower(s[i..i + |part|]);
      LowerIff(s[i..i + |part|], part);
    }
  }

  lemma MentionsIff(s: string, part: string)
    ensures Contains(Lower(s), Lower(part)) <==> Mentions(s, part)
  {
    forall i ensures OccursAt(Lower(s), Lower(part), i) <==> WrittenAt(s, part, i) { WrittenIff(s, part, i); }
  }

  /** `t` is what `s` holds between two places, with only white space around it. */
  ghost predicate TrimmedAt(s: string, t: string, from: nat, to: nat) {
    && from <= to <= |s| && t == s[from..to]
    && (forall i :: 0 <= i < from || to <= i < |s| ==> IsSpace(s[i]))
    && (from < to ==> !IsSpace(s[from]) && !IsSpace(s[to - 1]))
  }

  lemma StripPlaces(s: string) returns (from: nat, to: nat)
    ensures TrimmedAt(s, Strip(s), from, to)
  {
    TrimRightSplits(s);
    TrimLeftSplits(TrimRight(s));
    to := |TrimRight(s)|;
    from := to - |Strip(s)|;
  }

  lemma TrimmedIsStrip(s: string, t: string, from: nat, to: nat)
    requires TrimmedAt(s, t, from, to)
    ensures Strip(s) == t
  {
    var a, b := StripPlaces(s);
    if from < to && a < b {
      assert from == a && to == b by { assert !IsSpace(s[from]) && !IsSpace(s[to - 1]) && !IsSpace(s[a]) && !IsSpace(s[b - 1]); }
    }
  }

  /** A text is blank when stripping leaves nothing of it. */
  lemma BlankIff(s: string)
    ensures Strip(s) == "" <==> forall i :: 0 <= i < |s| ==> IsSpace(s[i])
  {
    var from, to := StripPlaces(s);
  }
}
