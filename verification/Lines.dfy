/** Splitting text into lines. */
module Lines {
  /** The characters that end a line for `str.splitlines`. */
  predicate IsBreak(c: char) {
    var n := c as int;
    0x0a <= n <= 0x0d || 0x1c <= n <= 0x1e || n == 0x85 || n == 0x2028 || n == 0x2029
  }

  /** The length of the line at the start of `s`. */
  function LineLength(s: string): (n: nat)
    ensures n <= |s| && (forall i :: 0 <= i < n ==> !IsBreak(s[i])) && (n < |s| ==> IsBreak(s[n]))
  {
    if s == [] || IsBreak(s[0]) then 0 else 1 + LineLength(s[1..])
  }

  /** Carriage return and line feed together end one line. */
  function BreakLength(s: string): (n: nat)
    requires s != []
    ensures 1 <= n <= |s|
  {
    if |s| > 1 && s[0] == '\r' && s[1] == '\n' then 2 else 1
  }

  function SplitLines(s: string): seq<string>
    decreases |s|
  {
    if s == [] then []
    else
      var n := LineLength(s);
      if n == |s| then [s] else [s[..n]] + SplitLines(s[n..][BreakLength(s[n..])..])
  }

  function Unlines(lines: seq<string>): string {
    if lines == [] then [] else lines[0] + "\n" + Unlines(lines[1..])
  }

  ghost predicate Unbroken(line: string) { forall c :: c in line ==> !IsBreak(c) }

  lemma LineLengthOf(line: string, rest: string)
    requires Unbroken(line)
    ensures LineLength(line + "\n" + rest) == |line|
  {
    var s := line + "\n" + rest;
    var n := LineLength(s);
    assert forall i :: 0 <= i < |line| ==> s[i] == line[i] && line[i] in line;
    assert s[|line|] == '\n' && IsBreak('\n');
  }

  lemma SplitFirst(line: string, rest: string)
    requires Unbroken(line)
    ensures SplitLines(line + "\n" + rest) == [line] + SplitLines(rest)
  {
    var s := line + "\n" + rest;
    LineLengthOf(line, rest);
    assert s[..|line|] == line;
    var ending := s[|line|..];
    assert ending[0] == '\n';
    assert ending[BreakLength(ending)..] == rest;
  }

  /** Splitting gives back the lines that were written. */
  lemma {:induction false} LinesRoundTrip(lines: seq<string>)
    requires forall l :: l in lines ==> Unbroken(l)
    ensures SplitLines(Unlines(lines)) == lines
  {
    if lines != [] {
      LinesRoundTrip(lines[1..]);
      SplitFirst(lines[0], Unlines(lines[1..]));
    }
  }

  lemma {:induction false} SplitUnbroken(s: string)
    ensures forall l :: l in SplitLines(s) ==> Unbroken(l)
    decreases |s|
  {
    if s != [] {
      var n := LineLength(s);
      if n < |s| { SplitUnbroken(s[n..][BreakLength(s[n..])..]); }
    }
  }

  /** Exactly the lines without a line break survive being written and split again. */
  lemma LinesRoundTripIff(lines: seq<string>)
    ensures SplitLines(Unlines(lines)) == lines <==> forall l :: l in lines ==> Unbroken(l)
  {
    SplitUnbroken(Unlines(lines));
    if forall l :: l in lines ==> Unbroken(l) { LinesRoundTrip(lines); }
  }

  // ---------------------------------------------------------------- nothing but breaks between the lines

  /** Each line followed by what ended it. */
  function Woven(lines: seq<string>, breaks: seq<string>): string
    requires |breaks| == |lines|
  {
    if lines == [] then [] else lines[0] + breaks[0] + Woven(lines[1..], breaks[1..])
  }

  /** A line ends with one break character, with a carriage return and a line feed together, or, the last one only
      and if it is not empty, with the text. A carriage return alone is not followed by a line feed. */
  predicate EndsWith(line: string, end: string, rest: string) {
    || end == "\r\n"
    || (|end| == 1 && IsBreak(end[0]) && !(end == "\r" && rest != "" && rest[0] == '\n'))
    || (end == "" && rest == "" && line != "")
  }

  ghost predicate Ends(lines: seq<string>, breaks: seq<string>, i: nat)
    requires |breaks| == |lines| && i < |lines|
  {
    EndsWith(lines[i], breaks[i], Woven(lines[i + 1..], breaks[i + 1..]))
  }

  lemma EndsLater(lines: seq<string>, breaks: seq<string>, i: nat)
    requires |breaks| == |lines| && 0 < i < |lines|
    ensures Ends(lines, breaks, i) <==> Ends(lines[1..], breaks[1..], i - 1)
  {
    assert lines[1..][i - 1 + 1..] == lines[i + 1..] && breaks[1..][i - 1 + 1..] == breaks[i + 1..];
  }

  lemma SplitOff(s: string) returns (line: string, end: string, rest: string)
    requires s != []
    ensures s == line + end + rest && |rest| < |s| && SplitLines(s) == [line] + SplitLines(rest)
    ensures Unbroken(line) && EndsWith(line, end, rest)
  {
    var n := LineLength(s);
    line := s[..n];
    assert forall c :: c in line ==> !IsBreak(c);
    if n == |s| {
      end, rest := "", "";
      assert s == line && SplitLines(rest) == [];
    } else {
      var k := BreakLength(s[n..]);
      end, rest := s[n..][..k], s[n..][k..];
      if k == 2 { assert end == "\r\n"; } else { assert end == [s[n]]; }
    }
  }

  /** A text is its lines with their breaks, and no line contains one. */
  lemma {:induction false} LinesAre(s: string) returns (breaks: seq<string>)
    ensures |breaks| == |SplitLines(s)| && Woven(SplitLines(s), breaks) == s
    ensures forall i :: 0 <= i < |breaks| ==> Unbroken(SplitLines(s)[i]) && Ends(SplitLines(s), breaks, i)
    decreases |s|
  {
    breaks := [];
    if s != [] {
      var line, end, rest := SplitOff(s);
      var later := LinesAre(rest);
      breaks := [end] + later;
      WeaveMore(line, end, SplitLines(rest), later);
    }
  }

  lemma WeaveMore(line: string, end: string, lines: seq<string>, breaks: seq<string>)
    requires |breaks| == |lines| && Unbroken(line) && EndsWith(line, end, Woven(lines, breaks))
    requires forall i :: 0 <= i < |breaks| ==> Unbroken(lines[i]) && Ends(lines, breaks, i)
    ensures Woven([line] + lines, [end] + breaks) == line + end + Woven(lines, breaks)
    ensures forall i :: 0 <= i < |breaks| + 1 ==> Unbroken(([line] + lines)[i]) && Ends([line] + lines, [end] + breaks, i)
  {
    var more, ends := [line] + lines, [end] + breaks;
    assert more[1..] == lines && ends[1..] == breaks;
    forall i | 0 < i < |ends| ensures Ends(more, ends, i) {
      EndsLater(more, ends, i);
      assert Ends(lines, breaks, i - 1);
    }
  }
}
