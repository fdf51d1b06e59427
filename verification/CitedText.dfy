/** The citation contract in the characters of the answer: which lines are evidence, and what they must name. */
module CitedText {
  import opened Wrappers
  import opened Text
  import opened Lines
  import opened Citation
  import opened Mapping

  // ---------------------------------------------------------------- evidence lines

  /** White space up to a marker, white space after it, and at least one more character. */
  predicate BulletAt(line: string, at: nat) {
    && at + 2 < |line|
    && (forall i :: 0 <= i < at ==> IsSpace(line[i]))
    && (line[at] == '-' || line[at] == '*' || line[at] == '\U{2022}')
    && IsSpace(line[at + 1])
  }

  ghost predicate IsEvidence(line: string) {
    exists at: nat :: BulletAt(line, at)
  }

  /** `point` is what the line holds after its marker, without the white space around it. */
  ghost predicate SaysAt(line: string, point: string, at: nat, from: nat, to: nat) {
    BulletAt(line, at) && TrimmedAt(line[at + 1..], point, from, to)
  }

  ghost predicate Says(line: string, point: string) {
    exists at, from, to :: SaysAt(line, point, at, from, to)
  }

  lemma BulletFound(line: string)
    requires BulletPoint(line).Some?
    ensures Says(line, BulletPoint(line).value) && IsEvidence(line)
  {
    TrimLeftSplits(line);
    var at := |line| - |TrimLeft(line)|;
    assert TrimLeft(line)[1..] == line[at + 1..];
    var from, to := StripPlaces(line[at + 1..]);
    assert SaysAt(line, BulletPoint(line).value, at, from, to);
    assert BulletAt(line, at);
  }

  lemma MarkerFound(line: string, at: nat)
    requires BulletAt(line, at)
    ensures BulletPoint(line) == Some(Strip(line[at + 1..]))
  {
    TrimLeftSplits(line);
    assert TrimLeft(line) == line[at..] by { assert !IsSpace(line[at]); }
    assert line[at..][1..] == line[at + 1..];
  }

  /** The evidence lines are exactly those, and the point of each is its trimmed text. */
  lemma BulletIff(line: string, point: string)
    ensures BulletPoint(line).Some? <==> IsEvidence(line)
    ensures BulletPoint(line) == Some(point) <==> Says(line, point)
  {
    if BulletPoint(line).Some? { BulletFound(line); }
    if IsEvidence(line) {
      var at: nat :| BulletAt(line, at);
      MarkerFound(line, at);
    }
    if Says(line, point) {
      var at, from, to :| SaysAt(line, point, at, from, to);
      MarkerFound(line, at);
      TrimmedIsStrip(line[at + 1..], point, from, to);
    }
  }

  /** `points` are what the evidence lines say, in order; `at` are their positions. */
  ghost predicate Evidenced(lines: seq<string>, points: seq<string>, at: seq<nat>) {
    && |at| == |points| && Increasing(at)
    && (forall k :: 0 <= k < |at| ==> at[k] < |lines| && Says(lines[at[k]], points[k]))
    && (forall i :: 0 <= i < |lines| && IsEvidence(lines[i]) ==> i in at)
  }

  lemma EvidencedMore(lines: seq<string>, line: string, points: seq<string>, at: seq<nat>)
    requires Evidenced(lines, points, at)
    ensures !IsEvidence(line) ==> Evidenced(lines + [line], points, at)
    ensures forall point :: Says(line, point) ==> Evidenced(lines + [line], points + [point], at + [|lines|])
  {
    assert |lines| in at + [|lines|];
    assert forall k :: 0 <= k < |at| ==> (lines + [line])[at[k]] == lines[at[k]];
  }

  lemma {:induction false} BulletsEvidenced(lines: seq<string>) returns (at: seq<nat>)
    ensures Evidenced(lines, Bullets(lines), at)
  {
    at := [];
    if lines != [] {
      var front, line := lines[..|lines| - 1], lines[|lines| - 1];
      at := BulletsEvidenced(front);
      assert lines == front + [line];
      EvidencedMore(front, line, Bullets(front), at);
      var point := BulletPoint(line);
      BulletIff(line, if point.Some? then point.value else "");
      if point.Some? { at := at + [|front|]; }
    }
  }

  // ---------------------------------------------------------------- what a point names

  /** The key stands in the point at that place, in any case; a sensor type also with spaces for underscores. */
  ghost predicate KeyAt(point: string, key: string, source: Source, i: int) {
    && key != "" && 0 <= i <= |point| - |key|
    && (|| (forall k :: 0 <= k < |key| ==> SameLetter(point[i + k], key[k]))
        || (source == Sensor && forall k :: 0 <= k < |key| ==> SameLetter(point[i + k], if key[k] == '_' then ' ' else key[k])))
  }

  ghost predicate Named(point: string, key: string, source: Source) {
    exists i :: KeyAt(point, key, source, i)
  }

  lemma SpacedLower(key: string)
    ensures Spaced(Lower(key)) == Lower(Spaced(key))
  {
  }

  lemma NamedWhere(point: string, key: string, source: Source, i: int)
    ensures KeyAt(point, key, source, i)
      <==> key != "" && (WrittenAt(point, key, i) || (source == Sensor && WrittenAt(point, Spaced(key), i)))
  {
  }

  lemma NamesIff(point: string, key: string, source: Source)
    ensures Names(Lower(point), Lower(key), source) <==> Named(point, key, source)
  {
    SpacedLower(key);
    MentionsIff(point, key);
    MentionsIff(point, Spaced(key));
    forall i ensures KeyAt(point, key, source, i)
      <==> key != "" && (WrittenAt(point, key, i) || (source == Sensor && WrittenAt(point, Spaced(key), i))) {
      NamedWhere(point, key, source, i);
    }
    if Named(point, key, source) {
      var i :| KeyAt(point, key, source, i);
      assert WrittenAt(point, key, i) || WrittenAt(point, Spaced(key), i);
    }
    if Names(Lower(point), Lower(key), source) {
      if Mentions(point, key) {
        var i :| WrittenAt(point, key, i);
        assert KeyAt(point, key, source, i);
      } else {
        var i :| WrittenAt(point, Spaced(key), i);
        assert KeyAt(point, key, source, i);
      }
    }
  }

  /** A past incident is found by its source or its id, and displayed by its source. */
  ghost predicate NamesIncident(point: string, h: HistoryEntry, ref: string) {
    && ref == (match h.source case Some(source) => source case None => "None")
    && ((h.source.Some? && Named(point, h.source.value, History)) || Named(point, h.id, History))
  }

  /** What is cited is in the evidence, and its own key stands in the point. */
  ghost predicate NamesReal(point: string, e: Evidence, source: Source, ref: string) {
    match source
    case Sensor => ref in e.sensorTypes && Named(point, ref, Sensor)
    case Sop => ref in e.docIds && Named(point, ref, Sop)
    case History => exists h :: h in e.history && NamesIncident(point, h, ref)
  }

  lemma IncidentIff(point: string, h: HistoryEntry, ref: string)
    ensures NamesIncident(point, h, ref) <==> Display(h) == ref && NamesEntry(Lower(point), h)
  {
    NamesIff(point, h.id, History);
    if h.source.Some? { NamesIff(point, h.source.value, History); }
  }

  lemma RealIff(point: string, e: Evidence, source: Source, ref: string)
    ensures Real(point, e, source, ref) <==> NamesReal(point, e, source, ref)
  {
    match source
    case Sensor => NamesIff(point, ref, Sensor);
    case Sop => NamesIff(point, ref, Sop);
    case History =>
      forall h ensures NamesIncident(point, h, ref) <==> Display(h) == ref && NamesEntry(Lower(point), h) {
        IncidentIff(point, h, ref);
      }
  }

  /** The first of the three tags that the point bears decides what it may cite; without one, anything but a sensor. */
  ghost predicate TagAllows(point: string, source: Source) {
    if Mentions(point, "[sensor reading]") then source == Sensor
    else if Mentions(point, "sop citation") then source == Sop
    else if Mentions(point, "historical incident") then source == History
    else source != Sensor
  }

  lemma LowerPhrase(point: string, phrase: string)
    requires forall i :: 0 <= i < |phrase| ==> !('A' <= phrase[i] <= 'Z')
    ensures Contains(Lower(point), phrase) <==> Mentions(point, phrase)
  {
    LowerSame(phrase);
    MentionsIff(point, phrase);
  }

  lemma MayCiteIff(point: string, source: Source)
    ensures MayCite(point, source) <==> TagAllows(point, source)
  {
    LowerPhrase(point, "[sensor reading]");
    LowerPhrase(point, "sop citation");
    LowerPhrase(point, "historical incident");
  }

  ghost predicate Backed(point: string, e: Evidence) {
    exists source, ref :: TagAllows(point, source) && NamesReal(point, e, source, ref)
  }

  lemma SupportedIff(point: string, e: Evidence)
    ensures Supported(point, e) <==> Backed(point, e)
  {
    forall source, ref
      ensures MayCite(point, source) && Cites(point, e, source, ref)
        <==> TagAllows(point, source) && NamesReal(point, e, source, ref)
    {
      MayCiteIff(point, source);
      CitesIffReal(point, e, source, ref);
      RealIff(point, e, source, ref);
    }
    if Supported(point, e) {
      var source, ref :| MayCite(point, source) && Cites(point, e, source, ref);
      assert TagAllows(point, source) && NamesReal(point, e, source, ref);
    }
    if Backed(point, e) {
      var source, ref :| TagAllows(point, source) && NamesReal(point, e, source, ref);
      assert MayCite(point, source) && Cites(point, e, source, ref);
    }
  }

  // ---------------------------------------------------------------- the whole answer

  /** The phrase is written somewhere, and no dash comes before the first newline. */
  ghost predicate Declares(text: string) {
    && Mentions(text, "insufficient evidence")
    && forall i :: 0 <= i < |text| && text[i] == '-' ==> exists j :: 0 <= j < i && text[j] == '\n'
  }

  lemma DeclaresIff(text: string)
    ensures DeclaresInsufficiency(text) <==> Declares(text)
  {
    LowerPhrase(text, "insufficient evidence");
    var n := NewlineAt(text);
    if '-' in text[..n] {
      var i :| 0 <= i < n && text[..n][i] == '-';
      assert text[i] == '-';
    } else {
      forall i | 0 <= i < |text| && text[i] == '-' ensures exists j :: 0 <= j < i && text[j] == '\n' {
        assert forall k :: 0 <= k < n ==> text[k] in text[..n];
        assert text[n] == '\n';
      }
    }
  }

  /** Line `i` is the first in which the pattern finds a cause. */
  ghost predicate CauseAt(lines: seq<string>, matcher: string -> Option<Match>, i: nat) {
    && i < |lines| && matcher(Strip(lines[i])).Some?
    && forall j :: 0 <= j < i ==> matcher(Strip(lines[j])) == None
  }

  lemma {:induction false} FirstMatchAt(lines: seq<string>, matcher: string -> Option<Match>) returns (i: nat)
    ensures FirstMatch(lines, matcher).Some? ==>
      CauseAt(lines, matcher, i) && FirstMatch(lines, matcher) == matcher(Strip(lines[i]))
    ensures FirstMatch(lines, matcher) == None ==> forall j :: 0 <= j < |lines| ==> matcher(Strip(lines[j])) == None
  {
    i := 0;
    if lines != [] && matcher(Strip(lines[0])) == None {
      var k := FirstMatchAt(lines[1..], matcher);
      i := k + 1;
      assert forall j :: 1 <= j < |lines| ==> lines[j] == lines[1..][j - 1];
    }
  }

  lemma CauseUnique(lines: seq<string>, matcher: string -> Option<Match>, i: nat)
    requires CauseAt(lines, matcher, i)
    ensures FirstMatch(lines, matcher) == matcher(Strip(lines[i]))
  {
    var k := FirstMatchAt(lines, matcher);
  }

  /** The first line with a cause, a cause that is not blank, and a confidence. */
  ghost predicate StatesCause(lines: seq<string>, matcher: string -> Option<Match>) {
    exists i: nat :: CauseAt(lines, matcher, i)
      && Strip(matcher(Strip(lines[i])).value.cause) != "" && matcher(Strip(lines[i])).value.confidence.Some?
  }

  ghost predicate EveryLineBacked(lines: seq<string>, e: Evidence) {
    && (exists i :: 0 <= i < |lines| && IsEvidence(lines[i]))
    && forall i, point | 0 <= i < |lines| && Says(lines[i], point) :: Backed(point, e)
  }

  lemma SaysIsEvidence(line: string, point: string)
    requires Says(line, point)
    ensures IsEvidence(line)
  {
    BulletIff(line, point);
  }

  lemma LinesBackedIff(lines: seq<string>, e: Evidence)
    ensures Bullets(lines) != [] && AllSupported(Bullets(lines), e) <==> EveryLineBacked(lines, e)
  {
    var at := BulletsEvidenced(lines);
    var points := Bullets(lines);
    if points != [] && AllSupported(points, e) {
      SaysIsEvidence(lines[at[0]], points[0]);
      forall i, point | 0 <= i < |lines| && Says(lines[i], point) ensures Backed(point, e) {
        SaysIsEvidence(lines[i], point);
        var k :| 0 <= k < |at| && at[k] == i;
        BulletIff(lines[i], point);
        BulletIff(lines[i], points[k]);
        SupportedIff(point, e);
      }
    }
    if EveryLineBacked(lines, e) {
      forall p | p in points ensures Supported(p, e) {
        var k :| 0 <= k < |points| && points[k] == p;
        SupportedIff(p, e);
      }
    }
  }

  lemma StatesCauseIff(lines: seq<string>, matcher: string -> Option<Match>)
    ensures WellFormed(lines, matcher) <==> StatesCause(lines, matcher) && Bullets(lines) != []
  {
    var i := FirstMatchAt(lines, matcher);
    if StatesCause(lines, matcher) {
      var k: nat :| CauseAt(lines, matcher, k)
        && Strip(matcher(Strip(lines[k])).value.cause) != "" && matcher(Strip(lines[k])).value.confidence.Some?;
      CauseUnique(lines, matcher, k);
    }
  }

  /** An answer is accepted if and only if it does not declare insufficiency, states a cause with a confidence, and
      has evidence lines, each of which names something of the evidence that its tag allows. */
  lemma AcceptedInText(content: string, e: Evidence, matcher: string -> Option<Match>)
    ensures
      var lines := SplitLines(Strip(content));
      var meant := !Declares(Strip(content)) && StatesCause(lines, matcher) && EveryLineBacked(lines, e);
      Expected(content, e, matcher).Accepted? <==> meant
  {
    var lines := SplitLines(Strip(content));
    AcceptedIff(content, e, matcher);
    DeclaresIff(Strip(content));
    StatesCauseIff(lines, matcher);
    LinesBackedIff(lines, e);
  }

  /** The citation is of this point: something the point names, of a kind that its tag allows. */
  ghost predicate CitesPoint(c: Citation, point: string, e: Evidence) {
    c.text == point && TagAllows(point, c.source) && NamesReal(point, e, c.source, c.ref)
  }

  /** An accepted answer carries one citation for each of its evidence lines, in order: what the line says, and
      something real whose own key stands in it. Cause and confidence are those of the first line that states them. */
  lemma AcceptedCites(content: string, e: Evidence, matcher: string -> Option<Match>) returns (at: seq<nat>, i: nat)
    requires Expected(content, e, matcher).Accepted?
    ensures
      var lines, cited := SplitLines(Strip(content)), Expected(content, e, matcher).cited;
      && |at| == |cited| > 0 && Increasing(at)
      && (forall k :: 0 <= k < |at| ==>
            at[k] < |lines| && Says(lines[at[k]], cited[k].text) && CitesPoint(cited[k], cited[k].text, e))
      && (forall l :: 0 <= l < |lines| && IsEvidence(lines[l]) ==> l in at)
    ensures
      var lines, x := SplitLines(Strip(content)), Expected(content, e, matcher);
      && CauseAt(lines, matcher, i) && matcher(Strip(lines[i])).value.confidence.Some?
      && x.hypothesis == Strip(matcher(Strip(lines[i])).value.cause) != ""
      && x.confidence == (var stated := matcher(Strip(lines[i])).value.confidence.value; if stated > 100 then 100 else stated)
  {
    var lines, x := SplitLines(Strip(content)), Expected(content, e, matcher);
    AcceptedContract(content, e, matcher);
    AcceptedStates(content, e, matcher);
    at := BulletsEvidenced(lines);
    i := FirstMatchAt(lines, matcher);
    forall k | 0 <= k < |at| ensures CitesPoint(x.cited[k], x.cited[k].text, e) {
      assert RightlyCited(x.cited[k], Bullets(lines)[k], e);
      MayCiteIff(x.cited[k].text, x.cited[k].source);
      RealIff(x.cited[k].text, e, x.cited[k].source, x.cited[k].ref);
    }
  }

  // ---------------------------------------------------------------- refusals

  ghost predicate SomeBacked(points: seq<string>, e: Evidence) {
    exists p :: p in points && Backed(p, e)
  }

  lemma {:induction false} JudgedPoints(points: seq<string>, e: Evidence)
    ensures CitedOf(points, e) != [] <==> SomeBacked(points, e)
    ensures forall p :: p in InvalidOf(points, e) <==> p in points && !Backed(p, e)
  {
    if points != [] {
      var front, last := points[..|points| - 1], points[|points| - 1];
      assert points == front + [last];
      JudgedPoints(front, e);
      PointValidIffSupported(last, e);
      SupportedIff(last, e);
      if SomeBacked(points, e) && !Backed(last, e) {
        var p :| p in points && Backed(p, e);
        assert p in front;
      }
      assert last in points;
    }
  }

  /** Why an answer is refused, in the order of the checks: no cause, no evidence line that is backed, some that
      are not, no confidence. */
  lemma RefusalReasons(lines: seq<string>, e: Evidence, matcher: string -> Option<Match>, i: nat)
    ensures (forall j :: 0 <= j < |lines| ==> matcher(Strip(lines[j])) == None)
      ==> JudgeLines(lines, e, matcher) == Rejected(NoHypothesis)
    ensures CauseAt(lines, matcher, i) ==>
      var found, points, x := matcher(Strip(lines[i])).value, Bullets(lines), JudgeLines(lines, e, matcher);
      var backed := forall p :: p in points ==> Backed(p, e);
      if Strip(found.cause) == "" then x == Rejected(NoHypothesis)
      else if !SomeBacked(points, e) then x == Rejected(NoCitation)
      else if !backed then
        x.Rejected? && x.reason.Unverified? && forall p :: p in x.reason.points <==> p in points && !Backed(p, e)
      else x == Rejected(NoConfidence) <==> found.confidence == None
  {
    JudgedPoints(Bullets(lines), e);
    var k := FirstMatchAt(lines, matcher);
    if CauseAt(lines, matcher, i) {
      CauseUnique(lines, matcher, i);
      var points, invalid := Bullets(lines), InvalidOf(Bullets(lines), e);
      if p :| p in points && !Backed(p, e) { assert p in invalid; }
      if invalid != [] { assert invalid[0] in invalid; }
    }
  }
}
