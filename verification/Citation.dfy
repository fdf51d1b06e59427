/** The citation contract: every evidence point of a diagnosis must name something real. */
module Citation {
  import opened Wrappers
  import opened Text
  import opened Lines

  datatype HistoryEntry = HistoryEntry(source: Option<string>, id: string)

  /** What a point may cite; an absent sensor type or document id is the empty string. */
  datatype Evidence = Evidence(sensorTypes: seq<string>, docIds: seq<string>, history: seq<HistoryEntry>)

  datatype Source = Sensor | Sop | History

  datatype Citation = Citation(source: Source, ref: string, text: string)

  datatype Reason = NoHypothesis | NoCitation | Unverified(points: seq<string>) | NoConfidence

  datatype Verdict =
    | Insufficient(hypothesis: string)
    | Accepted(hypothesis: string, confidence: int, cited: seq<Citation>)
    | Rejected(reason: Reason)

  /** What the pattern of the cause line captures: the cause, and up to three digits of confidence. */
  datatype Match = Match(cause: string, confidence: Option<nat>)

  // ---------------------------------------------------------------- lookup dictionaries

  type Dict = seq<(string, string)>

  /** Assigning to a dictionary: a known key keeps its place, a new one goes last. */
  function Put(d: Dict, key: string, value: string): Dict {
    if d == [] then [(key, value)]
    else if d[0].0 == key then [(key, value)] + d[1..]
    else [d[0]] + Put(d[1..], key, value)
  }

  function DictOf(entries: seq<(string, string)>): Dict {
    if entries == [] then []
    else
      var last := entries[|entries| - 1];
      Put(DictOf(entries[..|entries| - 1]), last.0, last.1)
  }

  lemma {:induction false} PutMembers(d: Dict, key: string, value: string)
    ensures forall e :: e in Put(d, key, value) ==> e in d || e == (key, value)
    ensures (key, value) in Put(d, key, value)
    ensures forall e :: e in d && e.0 != key ==> e in Put(d, key, value)
  {
    if d != [] && d[0].0 != key {
      PutMembers(d[1..], key, value);
      assert d == [d[0]] + d[1..];
    } else if d != [] {
      assert d == [d[0]] + d[1..];
    }
  }

  ghost predicate HasKey(entries: seq<(string, string)>, key: string) {
    exists v :: (key, v) in entries
  }

  /** A dictionary holds only entries it was given, and every key it was given. */
  lemma {:induction false} DictMembers(entries: seq<(string, string)>)
    ensures forall e :: e in DictOf(entries) ==> e in entries
    ensures forall k :: HasKey(entries, k) ==> HasKey(DictOf(entries), k)
  {
    if entries != [] {
      var front, last := entries[..|entries| - 1], entries[|entries| - 1];
      assert entries == front + [last];
      DictMembers(front);
      PutMembers(DictOf(front), last.0, last.1);
      forall k | HasKey(entries, k) ensures HasKey(DictOf(entries), k) {
        if k != last.0 {
          var v :| (k, v) in entries;
          assert HasKey(front, k);
          var w :| (k, w) in DictOf(front);
          assert (k, w) in DictOf(entries);
        } else {
          assert (k, last.1) in DictOf(entries);
        }
      }
    }
  }

  function SensorEntries(e: Evidence): (r: seq<(string, string)>)
    ensures |r| == |e.sensorTypes|
    ensures forall i :: 0 <= i < |r| ==> r[i] == (Lower(e.sensorTypes[i]), e.sensorTypes[i])
  {
    seq(|e.sensorTypes|, i requires 0 <= i < |e.sensorTypes| => (Lower(e.sensorTypes[i]), e.sensorTypes[i]))
  }

  function SopEntries(e: Evidence): (r: seq<(string, string)>)
    ensures |r| == |e.docIds| && forall i :: 0 <= i < |r| ==> r[i] == (Lower(e.docIds[i]), e.docIds[i])
  {
    seq(|e.docIds|, i requires 0 <= i < |e.docIds| => (Lower(e.docIds[i]), e.docIds[i]))
  }

  /** An entry without a source is displayed as the text "None", but can still be found by its id. */
  function Display(h: HistoryEntry): string {
    if h.source.Some? then h.source.value else "None"
  }

  function SourceKey(h: HistoryEntry): string {
    if h.source.Some? then Lower(h.source.value) else ""
  }

  function HistoryEntries(history: seq<HistoryEntry>): seq<(string, string)> {
    if history == [] then []
    else
      var h := history[|history| - 1];
      HistoryEntries(history[..|history| - 1]) + [(SourceKey(h), Display(h)), (Lower(h.id), Display(h))]
  }

  // ---------------------------------------------------------------- one evidence point

  function Spaced(key: string): (r: string)
    ensures |r| == |key| && forall i :: 0 <= i < |r| ==> r[i] == if key[i] == '_' then ' ' else key[i]
  {
    seq(|key|, i requires 0 <= i < |key| => if key[i] == '_' then ' ' else key[i])
  }

  /** The key occurs in the point; a sensor type also with spaces for underscores. */
  predicate Names(lowered: string, key: string, source: Source) {
    key != "" && (Contains(lowered, key) || (source == Sensor && Contains(lowered, Spaced(key))))
  }

  function FirstNamed(d: Dict, lowered: string, source: Source): Option<string> {
    if d == [] then None
    else if Names(lowered, d[0].0, source) then Some(d[0].1)
    else FirstNamed(d[1..], lowered, source)
  }

  /** Which bracket tag decides; a point without one may still name a document or a past incident. */
  function Tag(lowered: string): Option<Source> {
    if Contains(lowered, "[sensor reading]") then Some(Sensor)
    else if Contains(lowered, "sop citation") then Some(Sop)
    else if Contains(lowered, "historical incident") then Some(History)
    else None
  }

  function Entries(e: Evidence, source: Source): seq<(string, string)> {
    match source
    case Sensor => SensorEntries(e)
    case Sop => SopEntries(e)
    case History => HistoryEntries(e.history)
  }

  function Lookup(e: Evidence, lowered: string, source: Source): Option<(Source, string)> {
    var ref := FirstNamed(DictOf(Entries(e, source)), lowered, source);
    if ref.Some? then Some((source, ref.value)) else None
  }

  function ValidatePoint(point: string, e: Evidence): Option<(Source, string)> {
    var lowered := Lower(point);
    var tag := Tag(lowered);
    if tag.Some? then Lookup(e, lowered, tag.value)
    else if Lookup(e, lowered, Sop).Some? then Lookup(e, lowered, Sop)
    else Lookup(e, lowered, History)
  }

  /** `ref` is displayed for some entry of that kind whose key the point names. */
  ghost predicate Cites(point: string, e: Evidence, source: Source, ref: string) {
    exists key :: (key, ref) in Entries(e, source) && Names(Lower(point), key, source)
  }

  predicate MayCite(point: string, source: Source) {
    Tag(Lower(point)) == Some(source) || (Tag(Lower(point)) == None && source != Sensor)
  }

  /** The point names something real of a kind that its tag allows. */
  ghost predicate Supported(point: string, e: Evidence) {
    exists source, ref :: MayCite(point, source) && Cites(point, e, source, ref)
  }

  lemma {:induction false} FirstNamedFinds(d: Dict, lowered: string, source: Source)
    ensures
      match FirstNamed(d, lowered, source)
      case Some(ref) => exists key :: (key, ref) in d && Names(lowered, key, source)
      case None => forall e :: e in d ==> !Names(lowered, e.0, source)
  {
    if d != [] {
      assert d == [d[0]] + d[1..];
      if Names(lowered, d[0].0, source) {
        assert (d[0].0, d[0].1) in d;
      } else {
        FirstNamedFinds(d[1..], lowered, source);
      }
    }
  }

  lemma LookupFinds(point: string, e: Evidence, source: Source)
    ensures
      match Lookup(e, Lower(point), source)
      case Some(found) => found.0 == source && Cites(point, e, source, found.1)
      case None => forall ref :: !Cites(point, e, source, ref)
  {
    var entries, lowered := Entries(e, source), Lower(point);
    DictMembers(entries);
    FirstNamedFinds(DictOf(entries), lowered, source);
    if Lookup(e, lowered, source) == None {
      forall ref ensures !Cites(point, e, source, ref) {
        if Cites(point, e, source, ref) {
          var key :| (key, ref) in entries && Names(lowered, key, source);
          assert HasKey(entries, key);
        }
      }
    }
  }

  /** A point is accepted if and only if it is supported, and then with something it really cites. */
  lemma PointValidIffSupported(point: string, e: Evidence)
    ensures ValidatePoint(point, e).Some? <==> Supported(point, e)
    ensures
      match ValidatePoint(point, e)
      case Some(v) => MayCite(point, v.0) && Cites(point, e, v.0, v.1)
      case None => true
  {
    LookupFinds(point, e, Sensor);
    LookupFinds(point, e, Sop);
    LookupFinds(point, e, History);
  }

  /** In terms of the evidence itself: what is cited exists, and its own name occurs in the point. */
  ghost predicate Real(point: string, e: Evidence, source: Source, ref: string) {
    var lowered := Lower(point);
    match source
    case Sensor => ref in e.sensorTypes && Names(lowered, Lower(ref), Sensor)
    case Sop => ref in e.docIds && Names(lowered, Lower(ref), Sop)
    case History => exists h :: h in e.history && Display(h) == ref && NamesEntry(lowered, h)
  }

  predicate NamesEntry(lowered: string, h: HistoryEntry) {
    Names(lowered, SourceKey(h), History) || Names(lowered, Lower(h.id), History)
  }

  lemma {:induction false} HistoryKeys(history: seq<HistoryEntry>, key: string, ref: string)
    ensures (key, ref) in HistoryEntries(history)
      <==> exists h :: h in history && Display(h) == ref && (key == SourceKey(h) || key == Lower(h.id))
  {
    if history != [] {
      var front, last := history[..|history| - 1], history[|history| - 1];
      assert history == front + [last];
      HistoryKeys(front, key, ref);
    }
  }

  lemma CitesIffReal(point: string, e: Evidence, source: Source, ref: string)
    ensures Cites(point, e, source, ref) <==> Real(point, e, source, ref)
  {
    var lowered := Lower(point);
    match source
    case Sensor =>
      if ref in e.sensorTypes { assert (Lower(ref), ref) in SensorEntries(e); }
    case Sop =>
      if ref in e.docIds { assert (Lower(ref), ref) in SopEntries(e); }
    case History =>
      forall key ensures (key, ref) in HistoryEntries(e.history)
        <==> exists h :: h in e.history && Display(h) == ref && (key == SourceKey(h) || key == Lower(h.id)) {
        HistoryKeys(e.history, key, ref);
      }
  }

  ghost predicate Includes(larger: Evidence, e: Evidence) {
    && (forall s :: s in e.sensorTypes ==> s in larger.sensorTypes)
    && (forall d :: d in e.docIds ==> d in larger.docIds)
    && (forall h :: h in e.history ==> h in larger.history)
  }

  /** More evidence never turns a valid point into an invalid one. */
  lemma SupportedGrows(point: string, e: Evidence, larger: Evidence)
    requires Includes(larger, e) && Supported(point, e)
    ensures Supported(point, larger)
  {
    var source, ref :| MayCite(point, source) && Cites(point, e, source, ref);
    CitesIffReal(point, e, source, ref);
    assert Real(point, larger, source, ref);
    CitesIffReal(point, larger, source, ref);
  }

  // ---------------------------------------------------------------- the whole answer

  predicate IsMarker(c: char) { c == '-' || c == '*' || c == '\U{2022}' }

  /** A bullet line: a marker, white space, and something after it. */
  function BulletPoint(line: string): Option<string> {
    var t := TrimLeft(line);
    if |t| >= 3 && IsMarker(t[0]) && IsSpace(t[1]) then Some(Strip(t[1..])) else None
  }

  function Bullets(lines: seq<string>): seq<string> {
    if lines == [] then []
    else
      var rest, point := Bullets(lines[..|lines| - 1]), BulletPoint(lines[|lines| - 1]);
      if point.Some? then rest + [point.value] else rest
  }

  function FirstMatch(lines: seq<string>, matcher: string -> Option<Match>): Option<Match> {
    if lines == [] then None
    else if matcher(Strip(lines[0])).Some? then matcher(Strip(lines[0]))
    else FirstMatch(lines[1..], matcher)
  }

  function Clamped(confidence: nat): (c: int)
    ensures 0 <= c <= 100
  {
    if confidence > 100 then 100 else confidence
  }

  function CitedOf(points: seq<string>, e: Evidence): seq<Citation> {
    if points == [] then []
    else
      var rest, point := CitedOf(points[..|points| - 1], e), points[|points| - 1];
      var v := ValidatePoint(point, e);
      if v.Some? then rest + [Citation(v.value.0, v.value.1, point)] else rest
  }

  function InvalidOf(points: seq<string>, e: Evidence): seq<string> {
    if points == [] then []
    else
      var rest, point := InvalidOf(points[..|points| - 1], e), points[|points| - 1];
      if ValidatePoint(point, e).Some? then rest else rest + [point]
  }

  /** The part of the text before its first newline has no dash, and insufficiency is declared somewhere. */
  predicate DeclaresInsufficiency(text: string) {
    Contains(Lower(text), "insufficient evidence") && '-' !in text[..NewlineAt(text)]
  }

  function NewlineAt(text: string): (n: nat)
    ensures n <= |text| && (forall i :: 0 <= i < n ==> text[i] != '\n') && (n < |text| ==> text[n] == '\n')
  {
    if text == [] || text[0] == '\n' then 0 else 1 + NewlineAt(text[1..])
  }

  function FirstLine(text: string): string {
    if text == [] then [] else text[..LineLength(text)]
  }

  function Judge(hypothesis: string, confidence: Option<nat>, cited: seq<Citation>, invalid: seq<string>): Verdict {
    if cited == [] then Rejected(NoCitation)
    else if invalid != [] then Rejected(Unverified(invalid))
    else if confidence == None then Rejected(NoConfidence)
    else Accepted(hypothesis, Clamped(confidence.value), cited)
  }

  function JudgeLines(lines: seq<string>, e: Evidence, matcher: string -> Option<Match>): Verdict {
    var found := FirstMatch(lines, matcher);
    if found == None || Strip(found.value.cause) == "" then Rejected(NoHypothesis)
    else
      Judge(Strip(found.value.cause), found.value.confidence, CitedOf(Bullets(lines), e), InvalidOf(Bullets(lines), e))
  }

  function Expected(content: string, e: Evidence, matcher: string -> Option<Match>): Verdict {
    var text := Strip(content);
    if DeclaresInsufficiency(text) then Insufficient(FirstLine(text)) else JudgeLines(SplitLines(text), e, matcher)
  }

  lemma FirstMatchNext(lines: seq<string>, i: nat, matcher: string -> Option<Match>)
    requires i < |lines|
    ensures FirstMatch(lines[i..], matcher)
      == if matcher(Strip(lines[i])).Some? then matcher(Strip(lines[i])) else FirstMatch(lines[i + 1..], matcher)
  {
    assert lines[i..][1..] == lines[i + 1..];
  }

  method FindHypothesis(lines: seq<string>, matcher: string -> Option<Match>) returns (found: Option<Match>)
    ensures found == FirstMatch(lines, matcher)
  {
    assert lines[0..] == lines;
    for i := 0 to |lines|
      invariant FirstMatch(lines, matcher) == FirstMatch(lines[i..], matcher)
    {
      FirstMatchNext(lines, i, matcher);
      found := matcher(Strip(lines[i]));
      if found.Some? { return; }
    }
    found := None;
  }

  lemma NextLine(lines: seq<string>, i: nat)
    requires i < |lines|
    ensures
      var bullet := BulletPoint(lines[i]);
      Bullets(lines[..i + 1]) == Bullets(lines[..i]) + if bullet.Some? then [bullet.value] else []
  {
    assert lines[..i + 1][..i] == lines[..i];
  }

  lemma NextPoint(points: seq<string>, point: string, e: Evidence)
    ensures
      var v := ValidatePoint(point, e);
      && CitedOf(points + [point], e)
         == CitedOf(points, e) + (if v.Some? then [Citation(v.value.0, v.value.1, point)] else [])
      && InvalidOf(points + [point], e) == InvalidOf(points, e) + (if v.Some? then [] else [point])
  {
    assert (points + [point])[..|points|] == points;
  }

  method CheckBullets(lines: seq<string>, e: Evidence) returns (cited: seq<Citation>, invalid: seq<string>)
    ensures cited == CitedOf(Bullets(lines), e) && invalid == InvalidOf(Bullets(lines), e)
  {
    cited, invalid := [], [];
    ghost var points: seq<string> := [];
    for i := 0 to |lines|
      invariant points == Bullets(lines[..i])
      invariant cited == CitedOf(points, e) && invalid == InvalidOf(points, e)
    {
      NextLine(lines, i);
      var bullet := BulletPoint(lines[i]);
      if bullet == None { continue; }
      NextPoint(points, bullet.value, e);
      points := points + [bullet.value];
      var verdict := ValidatePoint(bullet.value, e);
      if verdict == None {
        invalid := invalid + [bullet.value];
      } else {
        cited := cited + [Citation(verdict.value.0, verdict.value.1, bullet.value)];
      }
    }
    assert lines[..|lines|] == lines;
  }

  method ParseAndValidate(content: string, e: Evidence, matcher: string -> Option<Match>) returns (verdict: Verdict)
    ensures verdict == Expected(content, e, matcher)
  {
    var text := Strip(content);
    if DeclaresInsufficiency(text) { return Insufficient(FirstLine(text)); }
    var lines := SplitLines(text);
    var found := FindHypothesis(lines, matcher);
    if found == None || Strip(found.value.cause) == "" { return Rejected(NoHypothesis); }
    var cited, invalid := CheckBullets(lines, e);
    if cited == [] { return Rejected(NoCitation); }
    if invalid != [] { return Rejected(Unverified(invalid)); }
    if found.value.confidence == None { return Rejected(NoConfidence); }
    verdict := Accepted(Strip(found.value.cause), Clamped(found.value.confidence.value), cited);
  }

  // ---------------------------------------------------------------- the contract

  ghost predicate AllSupported(points: seq<string>, e: Evidence) {
    forall p :: p in points ==> Supported(p, e)
  }

  lemma {:induction false} NoneInvalid(points: seq<string>, e: Evidence)
    ensures InvalidOf(points, e) == [] <==> AllSupported(points, e)
  {
    if points != [] {
      var front, last := points[..|points| - 1], points[|points| - 1];
      assert points == front + [last];
      NoneInvalid(front, e);
      PointValidIffSupported(last, e);
    }
  }

  ghost predicate RightlyCited(c: Citation, point: string, e: Evidence) {
    c.text == point && MayCite(point, c.source) && Real(point, e, c.source, c.ref)
  }

  lemma {:induction false} CitedInOrder(points: seq<string>, e: Evidence)
    requires AllSupported(points, e)
    ensures |CitedOf(points, e)| == |points|
    ensures forall i :: 0 <= i < |points| ==> RightlyCited(CitedOf(points, e)[i], points[i], e)
  {
    if points != [] {
      var front, last := points[..|points| - 1], points[|points| - 1];
      assert points == front + [last];
      CitedInOrder(front, e);
      PointValidIffSupported(last, e);
      var v := ValidatePoint(last, e).value;
      CitesIffReal(last, e, v.0, v.1);
    }
  }

  lemma JudgeAccepts(hypothesis: string, confidence: Option<nat>, points: seq<string>, e: Evidence)
    ensures Judge(hypothesis, confidence, CitedOf(points, e), InvalidOf(points, e)).Accepted?
      <==> points != [] && confidence.Some? && AllSupported(points, e)
  {
    NoneInvalid(points, e);
    if AllSupported(points, e) { CitedInOrder(points, e); }
  }

  /** The answer names a cause, states a confidence, and has bullet points. */
  predicate WellFormed(lines: seq<string>, matcher: string -> Option<Match>) {
    var found := FirstMatch(lines, matcher);
    found.Some? && Strip(found.value.cause) != "" && found.value.confidence.Some? && Bullets(lines) != []
  }

  lemma LinesAcceptedIff(lines: seq<string>, e: Evidence, matcher: string -> Option<Match>)
    ensures JudgeLines(lines, e, matcher).Accepted? <==> WellFormed(lines, matcher) && AllSupported(Bullets(lines), e)
  {
    var found := FirstMatch(lines, matcher);
    if found.Some? { JudgeAccepts(Strip(found.value.cause), found.value.confidence, Bullets(lines), e); }
  }

  /** An answer that does not declare insufficiency is accepted if and only if it is well formed and every one
      of its bullet points is supported. */
  lemma AcceptedIff(content: string, e: Evidence, matcher: string -> Option<Match>)
    ensures
      var lines := SplitLines(Strip(content));
      var supported := WellFormed(lines, matcher) && AllSupported(Bullets(lines), e);
      Expected(content, e, matcher).Accepted? <==> !DeclaresInsufficiency(Strip(content)) && supported
  {
    LinesAcceptedIff(SplitLines(Strip(content)), e, matcher);
  }

  /** `verdict` cites exactly the points, in order, each with a reference that is real. */
  ghost predicate CitesAll(verdict: Verdict, points: seq<string>, e: Evidence)
    requires verdict.Accepted?
  {
    && 0 <= verdict.confidence <= 100 && verdict.hypothesis != ""
    && |verdict.cited| == |points| > 0
    && forall i :: 0 <= i < |points| ==> RightlyCited(verdict.cited[i], points[i], e)
  }

  lemma LinesContract(lines: seq<string>, e: Evidence, matcher: string -> Option<Match>)
    requires JudgeLines(lines, e, matcher).Accepted?
    ensures CitesAll(JudgeLines(lines, e, matcher), Bullets(lines), e)
  {
    LinesAcceptedIff(lines, e, matcher);
    CitedInOrder(Bullets(lines), e);
  }

  /** What an accepted answer cites: exactly its bullet points in order, each with a reference that is real. */
  lemma AcceptedContract(content: string, e: Evidence, matcher: string -> Option<Match>)
    requires Expected(content, e, matcher).Accepted?
    ensures CitesAll(Expected(content, e, matcher), Bullets(SplitLines(Strip(content))), e)
  {
    LinesContract(SplitLines(Strip(content)), e, matcher);
  }

  lemma AllSupportedGrows(points: seq<string>, e: Evidence, larger: Evidence)
    requires Includes(larger, e) && AllSupported(points, e)
    ensures AllSupported(points, larger)
  {
    forall p | p in points ensures Supported(p, larger) { SupportedGrows(p, e, larger); }
  }

  /** The cause and confidence that the text states, whatever the evidence. */
  predicate States(verdict: Verdict, found: Option<Match>) {
    && found.Some? && found.value.confidence.Some? && verdict.Accepted?
    && verdict.hypothesis == Strip(found.value.cause) && verdict.confidence == Clamped(found.value.confidence.value)
  }

  lemma LinesState(lines: seq<string>, e: Evidence, matcher: string -> Option<Match>)
    requires JudgeLines(lines, e, matcher).Accepted?
    ensures States(JudgeLines(lines, e, matcher), FirstMatch(lines, matcher))
  {
  }

  lemma AcceptedStates(content: string, e: Evidence, matcher: string -> Option<Match>)
    requires Expected(content, e, matcher).Accepted?
    ensures States(Expected(content, e, matcher), FirstMatch(SplitLines(Strip(content)), matcher))
  {
    LinesState(SplitLines(Strip(content)), e, matcher);
  }

  /** More evidence never turns an accepted answer into a rejected one. */
  lemma AcceptedGrows(content: string, e: Evidence, larger: Evidence, matcher: string -> Option<Match>)
    requires Includes(larger, e) && Expected(content, e, matcher).Accepted?
    ensures Expected(content, larger, matcher).Accepted?
  {
    AcceptedIff(content, e, matcher);
    AllSupportedGrows(Bullets(SplitLines(Strip(content))), e, larger);
    AcceptedIff(content, larger, matcher);
  }

  lemma Unsupported(point: string, e: Evidence)
    requires e.sensorTypes == [] && e.docIds == [] && e.history == []
    ensures !Supported(point, e)
  {
    forall source, ref ensures !Cites(point, e, source, ref) { CitesIffReal(point, e, source, ref); }
  }

  /** Without evidence nothing is accepted: the only verdicts are an insufficiency and a rejection. */
  lemma NothingWithoutEvidence(content: string, e: Evidence, matcher: string -> Option<Match>)
    requires e.sensorTypes == [] && e.docIds == [] && e.history == []
    ensures !Expected(content, e, matcher).Accepted?
  {
    var points := Bullets(SplitLines(Strip(content)));
    AcceptedIff(content, e, matcher);
    if points != [] { Unsupported(points[0], e); }
  }
}
