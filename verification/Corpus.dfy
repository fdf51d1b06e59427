/** Markdown knowledge files split into a title and sections. */
module Corpus {
  import opened Text
  import opened Lines
  import opened Mapping

  datatype Section = Section(heading: string, lines: seq<string>)

  /** The sections closed so far, and the open one. */
  datatype Markdown = Markdown(title: string, closed: seq<Section>, heading: string, lines: seq<string>) {
    function Sections(): seq<Section> { closed + [Section(heading, lines)] }

    function FirstHeading(): string { if closed == [] then heading else closed[0].heading }

    /** The document without its last section. */
    function Previous(): Markdown
      requires closed != []
    {
      var n := |closed| - 1;
      Markdown(title, closed[..n], closed[n].heading, closed[n].lines)
    }
  }

  /** What one line of the file is. */
  datatype Line = Title(name: string) | Heading(name: string) | Text(text: string)

  // ---------------------------------------------------------------- sections

  /** The line starts with "# ", and therefore not with "## ". */
  predicate IsTitle(line: string) { |line| >= 2 && line[0] == '#' && line[1] == ' ' }

  /** The line starts with "## ". */
  predicate IsHeading(line: string) { |line| >= 3 && line[0] == '#' && line[1] == '#' && line[2] == ' ' }

  function Parse(line: string): Line {
    if IsTitle(line) then Title(Strip(line[2..]))
    else if IsHeading(line) then Heading(Strip(line[3..]))
    else Text(line)
  }

  function ParseAll(lines: seq<string>): (parsed: seq<Line>)
    ensures |parsed| == |lines| && forall i :: 0 <= i < |lines| ==> parsed[i] == Parse(lines[i])
  {
    seq(|lines|, i requires 0 <= i < |lines| => Parse(lines[i]))
  }

  function Step(md: Markdown, line: Line): Markdown {
    match line
    case Title(name) => md.(title := name)
    case Heading(name) => Markdown(md.title, md.Sections(), name, [])
    case Text(text) => md.(lines := md.lines + [text])
  }

  function Feed(md: Markdown, lines: seq<Line>): Markdown {
    if lines == [] then md else Step(Feed(md, lines[..|lines| - 1]), lines[|lines| - 1])
  }

  function Start(title: string, heading: string): Markdown { Markdown(title, [], heading, []) }

  function Outline(lines: seq<string>): Markdown {
    Feed(Start("Untitled", "Overview"), ParseAll(lines))
  }

  function Join(lines: seq<string>): string {
    if lines == [] then []
    else if |lines| == 1 then lines[0]
    else Join(lines[..|lines| - 1]) + "\n" + lines[|lines| - 1]
  }

  function Bodies(sections: seq<Section>): (r: seq<(string, string)>)
    ensures |r| == |sections| && forall i :: 0 <= i < |r| ==> r[i] == (sections[i].heading, Join(sections[i].lines))
  {
    seq(|sections|, i requires 0 <= i < |sections| => (sections[i].heading, Join(sections[i].lines)))
  }

  lemma FeedNext(md: Markdown, lines: seq<string>, i: nat)
    requires i < |lines|
    ensures Feed(md, ParseAll(lines[..i + 1])) == Step(Feed(md, ParseAll(lines[..i])), Parse(lines[i]))
  {
    assert ParseAll(lines[..i + 1])[..i] == ParseAll(lines[..i]);
  }

  // ---------------------------------------------------------------- nothing is lost

  function Texts(lines: seq<Line>): seq<string> {
    if lines == [] then []
    else
      var rest, last := Texts(lines[..|lines| - 1]), lines[|lines| - 1];
      if last.Text? then rest + [last.text] else rest
  }

  function HeadingNames(lines: seq<Line>): seq<string> {
    if lines == [] then []
    else
      var rest, last := HeadingNames(lines[..|lines| - 1]), lines[|lines| - 1];
      if last.Heading? then rest + [last.name] else rest
  }

  function LastTitle(lines: seq<Line>, default: string): string {
    if lines == [] then default
    else if lines[|lines| - 1].Title? then lines[|lines| - 1].name
    else LastTitle(lines[..|lines| - 1], default)
  }

  function AllLines(sections: seq<Section>): seq<string> {
    if sections == [] then [] else AllLines(sections[..|sections| - 1]) + sections[|sections| - 1].lines
  }

  function Headings(sections: seq<Section>): seq<string> {
    if sections == [] then [] else Headings(sections[..|sections| - 1]) + [sections[|sections| - 1].heading]
  }

  lemma OpenSection(md: Markdown)
    ensures AllLines(md.Sections()) == AllLines(md.closed) + md.lines
    ensures Headings(md.Sections()) == Headings(md.closed) + [md.heading]
  {
    assert md.Sections()[..|md.closed|] == md.closed;
  }

  lemma {:induction false} FeedKeeps(title: string, heading: string, lines: seq<Line>)
    ensures
      var md := Feed(Start(title, heading), lines);
      && md.title == LastTitle(lines, title)
      && AllLines(md.closed) + md.lines == Texts(lines)
      && Headings(md.closed) + [md.heading] == [heading] + HeadingNames(lines)
  {
    if lines != [] {
      var front, last := lines[..|lines| - 1], lines[|lines| - 1];
      FeedKeeps(title, heading, front);
      var before := Feed(Start(title, heading), front);
      OpenSection(before);
      if last.Text? {
        assert AllLines(before.closed) + (before.lines + [last.text]) == AllLines(before.closed) + before.lines + [last.text];
      }
    }
  }

  /** Every line that is no heading lands in exactly one section, in order; every second-level heading opens
      one, after the overview; and the last first-level heading is the title. */
  lemma NothingLost(lines: seq<string>)
    ensures
      var md := Outline(lines);
      && AllLines(md.Sections()) == Texts(ParseAll(lines))
      && Headings(md.Sections()) == ["Overview"] + HeadingNames(ParseAll(lines))
      && md.title == LastTitle(ParseAll(lines), "Untitled")
  {
    FeedKeeps("Untitled", "Overview", ParseAll(lines));
    OpenSection(Outline(lines));
  }

  // ---------------------------------------------------------------- in the lines themselves

  /** The marks are "# " and "## " at the start of the line; every other line is text. */
  lemma ParseIs(line: string)
    ensures Parse(line)
      == if "# " <= line then Title(Strip(line[2..]))
         else if "## " <= line then Heading(Strip(line[3..]))
         else Text(line)
  {
    assert "# " <= line <==> |line| >= 2 && line[0] == '#' && line[1] == ' ';
    assert "## " <= line <==> |line| >= 3 && line[0] == '#' && line[1] == '#' && line[2] == ' ';
  }

  /** `out` are the lines of one kind, in order, as this kind reads them; `at` are their positions. */
  ghost predicate TextsAt(lines: seq<string>, texts: seq<string>, at: seq<nat>) {
    && |at| == |texts| && Increasing(at)
    && (forall k :: 0 <= k < |at| ==> at[k] < |lines| && texts[k] == lines[at[k]] && !("# " <= texts[k]) && !("## " <= texts[k]))
    && (forall i :: 0 <= i < |lines| && !("# " <= lines[i]) && !("## " <= lines[i]) ==> i in at)
  }

  ghost predicate HeadingsAt(lines: seq<string>, names: seq<string>, at: seq<nat>) {
    && |at| == |names| && Increasing(at)
    && (forall k :: 0 <= k < |at| ==> at[k] < |lines| && "## " <= lines[at[k]] && names[k] == Strip(lines[at[k]][3..]))
    && (forall i :: 0 <= i < |lines| && "## " <= lines[i] ==> i in at)
  }

  lemma {:induction false} TextsAre(lines: seq<string>) returns (at: seq<nat>)
    ensures TextsAt(lines, Texts(ParseAll(lines)), at)
  {
    at := [];
    if lines != [] {
      var n := |lines| - 1;
      at := TextsAre(lines[..n]);
      ParseIs(lines[n]);
      assert ParseAll(lines)[..n] == ParseAll(lines[..n]);
      if Parse(lines[n]).Text? {
        var before := at;
        at := at + [n];
        assert at[|before|] == n && forall i :: i in before ==> i in at;
      }
    }
  }

  lemma {:induction false} HeadingsAre(lines: seq<string>) returns (at: seq<nat>)
    ensures HeadingsAt(lines, HeadingNames(ParseAll(lines)), at)
  {
    at := [];
    if lines != [] {
      var n := |lines| - 1;
      at := HeadingsAre(lines[..n]);
      ParseIs(lines[n]);
      assert ParseAll(lines)[..n] == ParseAll(lines[..n]);
      if Parse(lines[n]).Heading? {
        var before := at;
        at := at + [n];
        assert at[|before|] == n && forall i :: i in before ==> i in at;
      }
    }
  }

  lemma {:induction false} TitleIs(lines: seq<string>, default: string)
    ensures
      var title := LastTitle(ParseAll(lines), default);
      || (title == default && forall i :: 0 <= i < |lines| ==> !("# " <= lines[i]))
      || exists i :: 0 <= i < |lines| && "# " <= lines[i] && title == Strip(lines[i][2..])
                     && forall j :: i < j < |lines| ==> !("# " <= lines[j])
  {
    if lines != [] {
      var n := |lines| - 1;
      ParseIs(lines[n]);
      assert ParseAll(lines)[..n] == ParseAll(lines[..n]);
      if !("# " <= lines[n]) {
        TitleIs(lines[..n], default);
        assert forall i :: 0 <= i < n ==> lines[..n][i] == lines[i];
        var title := LastTitle(ParseAll(lines), default);
        if i :| 0 <= i < n && "# " <= lines[..n][i] && title == Strip(lines[..n][i][2..])
                && forall j :: i < j < n ==> !("# " <= lines[..n][j]) {
          assert "# " <= lines[i] && forall j :: i < j < |lines| ==> !("# " <= lines[j]);
        }
      }
    }
  }

  // ---------------------------------------------------------------- bodies

  /** The pieces of a text between its newlines. */
  function Pieces(s: string): (pieces: seq<string>)
    ensures pieces != []
  {
    if s == "" then [""]
    else if s[0] == '\n' then [""] + Pieces(s[1..])
    else
      var rest := Pieces(s[1..]);
      [[s[0]] + rest[0]] + rest[1..]
  }

  lemma {:induction false} PiecesOne(line: string)
    requires '\n' !in line
    ensures Pieces(line) == [line]
  {
    if line != "" {
      PiecesOne(line[1..]);
      assert line == [line[0]] + line[1..];
    }
  }

  lemma {:induction false} PiecesMore(a: string, line: string)
    requires '\n' !in line
    ensures Pieces(a + "\n" + line) == Pieces(a) + [line]
  {
    var s := a + "\n" + line;
    if a == "" {
      assert s == "\n" + line && s[1..] == line;
      PiecesOne(line);
    } else {
      assert s[1..] == a[1..] + "\n" + line;
      PiecesMore(a[1..], line);
      var rest := Pieces(a[1..]);
      assert (rest + [line])[1..] == rest[1..] + [line];
    }
  }

  /** The body is these lines with newlines between them. */
  ghost predicate Holds(body: string, lines: seq<string>) {
    if lines == [] then body == "" else Pieces(body) == lines
  }

  lemma {:induction false} JoinHolds(lines: seq<string>)
    requires forall l :: l in lines ==> '\n' !in l
    ensures Holds(Join(lines), lines)
  {
    if |lines| == 1 {
      PiecesOne(lines[0]);
    } else if lines != [] {
      var front, last := lines[..|lines| - 1], lines[|lines| - 1];
      JoinHolds(front);
      assert last in lines;
      PiecesMore(Join(front), last);
    }
  }

  lemma TextsFrom(lines: seq<string>)
    ensures forall t :: t in Texts(ParseAll(lines)) ==> t in lines
  {
    var at := TextsAre(lines);
  }

  lemma {:induction false} AllLinesHas(sections: seq<Section>, i: nat)
    requires i < |sections|
    ensures forall l :: l in sections[i].lines ==> l in AllLines(sections)
  {
    var n := |sections| - 1;
    if i < n { AllLinesHas(sections[..n], i); }
  }

  /** No line of a section has a newline in it, since each is a line of the file. */
  lemma SectionLines(raw: string, i: nat)
    requires i < |Outline(SplitLines(raw)).Sections()|
    ensures forall l :: l in Outline(SplitLines(raw)).Sections()[i].lines ==> '\n' !in l
  {
    var lines := SplitLines(raw);
    NothingLost(lines);
    AllLinesHas(Outline(lines).Sections(), i);
    TextsFrom(lines);
    SplitUnbroken(raw);
    assert IsBreak('\n');
  }

  lemma BodiesHold(raw: string)
    ensures
      var sections := Outline(SplitLines(raw)).Sections();
      forall i :: 0 <= i < |sections| ==> Holds(Bodies(sections)[i].1, sections[i].lines)
  {
    var sections := Outline(SplitLines(raw)).Sections();
    forall i | 0 <= i < |sections| ensures Holds(Bodies(sections)[i].1, sections[i].lines) {
      SectionLines(raw, i);
      JoinHolds(sections[i].lines);
    }
  }

  method SplitMarkdown(raw: string) returns (title: string, sections: seq<(string, string)>)
    ensures title == Outline(SplitLines(raw)).title
    ensures sections == Bodies(Outline(SplitLines(raw)).Sections())
    ensures |sections| == |Outline(SplitLines(raw)).Sections()|
    ensures forall i :: 0 <= i < |sections| ==>
      && sections[i].0 == Outline(SplitLines(raw)).Sections()[i].heading
      && Holds(sections[i].1, Outline(SplitLines(raw)).Sections()[i].lines)
  {
    var lines := SplitLines(raw);
    title, sections := "Untitled", [];
    var heading := "Overview";
    var current: seq<string> := [];
    ghost var closed: seq<Section> := [];
    ghost var start := Start(title, heading);
    for i := 0 to |lines|
      invariant Feed(start, ParseAll(lines[..i])) == Markdown(title, closed, heading, current)
      invariant sections == Bodies(closed)
    {
      var line := lines[i];
      FeedNext(start, lines, i);
      if IsTitle(line) {
        title := Strip(line[2..]);
        continue;
      }
      if IsHeading(line) {
        sections := sections + [(heading, Join(current))];
        closed := closed + [Section(heading, current)];
        heading, current := Strip(line[3..]), [];
        continue;
      }
      current := current + [line];
    }
    assert lines[..|lines|] == lines;
    sections := sections + [(heading, Join(current))];
    BodiesHold(raw);
  }

  // ---------------------------------------------------------------- writing a document

  function AsText(lines: seq<string>): (r: seq<Line>)
    ensures |r| == |lines| && forall i :: 0 <= i < |r| ==> r[i] == Text(lines[i])
  {
    seq(|lines|, i requires 0 <= i < |lines| => Text(lines[i]))
  }

  function WriteBody(md: Markdown): seq<Line>
    decreases |md.closed|
  {
    if md.closed == [] then AsText(md.lines)
    else WriteBody(md.Previous()) + ([Heading(md.heading)] + AsText(md.lines))
  }

  /** The first section has no heading line of its own. */
  function Write(md: Markdown): seq<Line> {
    [Title(md.title)] + WriteBody(md)
  }

  lemma {:induction false} FeedConcat(md: Markdown, a: seq<Line>, b: seq<Line>)
    ensures Feed(md, a + b) == Feed(Feed(md, a), b)
  {
    if b == [] {
      assert a + b == a;
    } else {
      FeedConcat(md, a, b[..|b| - 1]);
      assert (a + b)[..|a + b| - 1] == a + b[..|b| - 1];
    }
  }

  lemma FeedOne(md: Markdown, line: Line)
    ensures Feed(md, [line]) == Step(md, line)
  {
    assert [line][..0] == [];
  }

  lemma {:induction false} FeedText(md: Markdown, lines: seq<string>)
    ensures Feed(md, AsText(lines)) == md.(lines := md.lines + lines)
  {
    if lines == [] {
      assert md.lines + lines == md.lines;
    } else {
      var front, last := lines[..|lines| - 1], lines[|lines| - 1];
      FeedText(md, front);
      assert AsText(lines)[..|front|] == AsText(front);
      assert md.lines + front + [last] == md.lines + lines;
    }
  }

  lemma FeedSection(md: Markdown, heading: string, lines: seq<string>)
    ensures Feed(md, [Heading(heading)] + AsText(lines)) == Markdown(md.title, md.Sections(), heading, lines)
  {
    FeedConcat(md, [Heading(heading)], AsText(lines));
    FeedOne(md, Heading(heading));
    FeedText(Markdown(md.title, md.Sections(), heading, []), lines);
    assert [] + lines == lines;
  }

  lemma FeedAfter(start: Markdown, before: Markdown, body: seq<Line>, md: Markdown)
    requires Feed(start, body) == before && md.closed == before.Sections() && md.title == before.title
    ensures Feed(start, body + ([Heading(md.heading)] + AsText(md.lines))) == md
  {
    FeedConcat(start, body, [Heading(md.heading)] + AsText(md.lines));
    FeedSection(before, md.heading, md.lines);
  }

  lemma {:induction false} FeedBody(md: Markdown)
    ensures Feed(Start(md.title, md.FirstHeading()), WriteBody(md)) == md
    decreases |md.closed|
  {
    var start := Start(md.title, md.FirstHeading());
    if md.closed == [] {
      FeedText(start, md.lines);
      assert [] + md.lines == md.lines;
    } else {
      var before := md.Previous();
      FeedBody(before);
      assert before.Sections() == md.closed;
      FeedAfter(start, before, WriteBody(before), md);
    }
  }

  /** Feeding the lines of a document gives it back, whatever the title before. */
  lemma FeedWritten(md: Markdown, title: string)
    ensures Feed(Start(title, md.FirstHeading()), Write(md)) == md
  {
    FeedConcat(Start(title, md.FirstHeading()), [Title(md.title)], WriteBody(md));
    FeedOne(Start(title, md.FirstHeading()), Title(md.title));
    FeedBody(md);
  }

  // ---------------------------------------------------------------- round trip

  function Show(line: Line): string {
    match line
    case Title(name) => ['#', ' '] + name
    case Heading(name) => ['#', '#', ' '] + name
    case Text(text) => text
  }

  function ShowAll(lines: seq<Line>): (shown: seq<string>)
    ensures |shown| == |lines| && forall i :: 0 <= i < |lines| ==> shown[i] == Show(lines[i])
  {
    seq(|lines|, i requires 0 <= i < |lines| => Show(lines[i]))
  }

  /** Names are trimmed, and text does not look like a heading of either level. */
  predicate Plain(line: Line) {
    if line.Text? then !IsTitle(line.text) && !IsHeading(line.text) else Strip(line.name) == line.name
  }

  lemma ShownTitle(shown: string, name: string)
    requires shown == ['#', ' '] + name
    ensures IsTitle(shown) && shown[2..] == name
  {
  }

  lemma ShownHeading(shown: string, name: string)
    requires shown == ['#', '#', ' '] + name
    ensures !IsTitle(shown) && IsHeading(shown) && shown[3..] == name
  {
  }

  lemma ParseShow(line: Line)
    requires Plain(line)
    ensures Parse(Show(line)) == line
  {
    if line.Title? { ShownTitle(Show(line), line.name); }
    if line.Heading? { ShownHeading(Show(line), line.name); }
  }

  lemma ParsePlain(line: string)
    ensures Plain(Parse(line))
  {
    if IsTitle(line) {
      StripIdempotent(line[2..]);
    } else if IsHeading(line) {
      StripIdempotent(line[3..]);
    }
  }

  ghost predicate AllPlain(lines: seq<Line>) { forall l :: l in lines ==> Plain(l) }

  /** Trimmed names, bodies without headings, and an overview first. */
  ghost predicate Renderable(md: Markdown) {
    md.FirstHeading() == "Overview" && AllPlain(Write(md))
  }

  function Render(md: Markdown): seq<string> { ShowAll(Write(md)) }

  lemma ParseShowAll(lines: seq<Line>)
    requires AllPlain(lines)
    ensures ParseAll(ShowAll(lines)) == lines
  {
    forall i | 0 <= i < |lines| ensures Parse(Show(lines[i])) == lines[i] {
      assert lines[i] in lines;
      ParseShow(lines[i]);
    }
  }

  lemma RenderedOutline(md: Markdown)
    requires Renderable(md)
    ensures Outline(Render(md)) == md
  {
    ParseShowAll(Write(md));
    FeedWritten(md, "Untitled");
  }

  /** A fed document is written with lines that it was fed with, besides its first title and heading. */
  lemma {:induction false} WriteFed(title: string, heading: string, lines: seq<Line>)
    ensures
      var md := Feed(Start(title, heading), lines);
      && md.FirstHeading() == heading
      && forall l :: l in Write(md) ==> l in lines || l == Title(title)
  {
    if lines != [] {
      var front, last := lines[..|lines| - 1], lines[|lines| - 1];
      WriteFed(title, heading, front);
      WriteStep(Feed(Start(title, heading), front), last);
      assert lines == front + [last];
    }
  }

  lemma WriteStep(md: Markdown, line: Line)
    ensures Step(md, line).FirstHeading() == md.FirstHeading()
    ensures forall l :: l in Write(Step(md, line)) ==> l in Write(md) || l == line
  {
    var after := Step(md, line);
    match line
    case Title(_) => SameBody(md, after);
    case Heading(name) => assert after.Previous() == md; assert AsText([]) == [];
    case Text(text) =>
      assert AsText(md.lines + [text]) == AsText(md.lines) + [line];
      if md.closed != [] { assert after.Previous() == md.Previous(); }
  }

  lemma {:induction false} SameBody(a: Markdown, b: Markdown)
    requires a.closed == b.closed && a.heading == b.heading && a.lines == b.lines
    ensures WriteBody(a) == WriteBody(b)
    decreases |a.closed|
  {
    if a.closed != [] { SameBody(a.Previous(), b.Previous()); }
  }

  lemma TitlePlain(name: string)
    requires name != [] && !IsSpace(name[0]) && !IsSpace(name[|name| - 1])
    ensures Plain(Title(name))
  {
    NothingToStrip(name);
  }

  lemma OutlineRenderable(lines: seq<string>)
    ensures Renderable(Outline(lines))
  {
    var parsed := ParseAll(lines);
    WriteFed("Untitled", "Overview", parsed);
    TitlePlain("Untitled");
    forall l | l in parsed ensures Plain(l) {
      var i :| 0 <= i < |lines| && parsed[i] == l;
      ParsePlain(lines[i]);
    }
  }

  /** Splitting undoes rendering exactly for the documents with trimmed names, heading-free bodies and an
      overview first. */
  lemma SplitUndoesRender(md: Markdown)
    ensures Outline(Render(md)) == md <==> Renderable(md)
  {
    OutlineRenderable(Render(md));
    if Renderable(md) { RenderedOutline(md); }
  }

  /** The same for the text of a whole file. */
  lemma FileRoundTrip(md: Markdown)
    requires Renderable(md) && forall l :: l in Render(md) ==> Unbroken(l)
    ensures Outline(SplitLines(Unlines(Render(md)))) == md
  {
    LinesRoundTrip(Render(md));
    RenderedOutline(md);
  }
}
