/** The Root-Cause Agent's handler: nothing reaches the record that did not pass the citation contract. */
module RootCause {
  import opened Wrappers
  import opened Text
  import opened Lines
  import opened Incidents
  import opened Store
  import Protocol
  import Citation
  import opened CitedText

  datatype Diagnosis = Diagnosis(hypothesis: string, confidence: int, status: Status)

  const WITHHELD_DIAGNOSIS := Diagnosis(Protocol.WITHHELD, 0, NeedsHumanReview)

  function DiagnosisOf(verdict: Citation.Verdict): Option<Diagnosis> {
    match verdict
    case Insufficient(hypothesis) => Some(Diagnosis(hypothesis, 0, Investigating))
    case Accepted(hypothesis, confidence, _) => Some(Diagnosis(hypothesis, confidence, Investigating))
    case Rejected(_) => None
  }

  /** One normal attempt and one stricter retry; then the fixed note. */
  function Diagnosed(first: Citation.Verdict, second: Citation.Verdict): Diagnosis {
    if DiagnosisOf(first).Some? then DiagnosisOf(first).value
    else if DiagnosisOf(second).Some? then DiagnosisOf(second).value
    else WITHHELD_DIAGNOSIS
  }

  function Stored(d: Slice, x: Diagnosis): Slice {
    SaveRootCause(d, x.hypothesis, x.confidence, x.status)
  }

  /** The stored text is the cause of an answer whose every bullet cites something real, the first line of one
      that declares insufficiency, or the fixed note. */
  ghost predicate Sound(x: Diagnosis, content: string, e: Citation.Evidence, matcher: string -> Option<Citation.Match>) {
    var verdict := Citation.Expected(content, e, matcher);
    && DiagnosisOf(verdict) == Some(x)
    && match verdict
       case Insufficient(line) => Citation.DeclaresInsufficiency(Strip(content)) && x.confidence == 0
       case Accepted(_, _, _) => Citation.CitesAll(verdict, Citation.Bullets(SplitLines(Strip(content))), e)
       case Rejected(_) => false
  }

  lemma VerdictSound(content: string, e: Citation.Evidence, matcher: string -> Option<Citation.Match>)
    requires !Citation.Expected(content, e, matcher).Rejected?
    ensures Sound(DiagnosisOf(Citation.Expected(content, e, matcher)).value, content, e, matcher)
  {
    if Citation.Expected(content, e, matcher).Accepted? { Citation.AcceptedContract(content, e, matcher); }
  }

  /** Whatever the model answers twice, what is stored is sound or withheld, and the confidence is a percentage. */
  lemma DiagnosedSound(first: string, second: string, e: Citation.Evidence, matcher: string -> Option<Citation.Match>)
    ensures
      var x := Diagnosed(Citation.Expected(first, e, matcher), Citation.Expected(second, e, matcher));
      && 0 <= x.confidence <= 100
      && (x == WITHHELD_DIAGNOSIS || Sound(x, first, e, matcher) || Sound(x, second, e, matcher))
      && (x.status == NeedsHumanReview <==> x == WITHHELD_DIAGNOSIS)
  {
    if !Citation.Expected(first, e, matcher).Rejected? {
      VerdictSound(first, e, matcher);
    } else if !Citation.Expected(second, e, matcher).Rejected? {
      VerdictSound(second, e, matcher);
    }
  }

  // ---------------------------------------------------------------- when a person has to look at it

  /** The answer neither declares insufficiency nor states a cause with evidence that is backed line by line. */
  ghost predicate Refused(content: string, e: Citation.Evidence, matcher: string -> Option<Citation.Match>) {
    var lines := SplitLines(Strip(content));
    !Declares(Strip(content)) && !(StatesCause(lines, matcher) && EveryLineBacked(lines, e))
  }

  lemma RefusedIff(content: string, e: Citation.Evidence, matcher: string -> Option<Citation.Match>)
    ensures Citation.Expected(content, e, matcher).Rejected? <==> Refused(content, e, matcher)
    ensures Citation.Expected(content, e, matcher).Insufficient? <==> Declares(Strip(content))
  {
    AcceptedInText(content, e, matcher);
    DeclaresIff(Strip(content));
  }

  /** The incident goes to human review if and only if both answers are refused. */
  lemma ReviewedIff(first: string, second: string, e: Citation.Evidence, matcher: string -> Option<Citation.Match>)
    ensures Diagnosed(Citation.Expected(first, e, matcher), Citation.Expected(second, e, matcher)).status == NeedsHumanReview
      <==> Refused(first, e, matcher) && Refused(second, e, matcher)
  {
    RefusedIff(first, e, matcher);
    RefusedIff(second, e, matcher);
  }

  /** The diagnosis that the answer states: the first line of a declared insufficiency with confidence 0, or the
      cause and the confidence, at most 100, of the first line that has them. */
  ghost predicate Stated(x: Diagnosis, content: string, matcher: string -> Option<Citation.Match>) {
    var text := Strip(content);
    var lines := SplitLines(text);
    && x.status == Investigating
    && (Declares(text) ==>
          && x.confidence == 0 && x.hypothesis <= text && Unbroken(x.hypothesis)
          && (x.hypothesis == text || IsBreak(text[|x.hypothesis|])))
    && (!Declares(text) ==> exists i: nat :: CauseAt(lines, matcher, i) && StatedBy(x, matcher(Strip(lines[i])).value))
  }

  predicate StatedBy(x: Diagnosis, found: Citation.Match) {
    && found.confidence.Some? && x.hypothesis == Strip(found.cause)
    && x.confidence == if found.confidence.value > 100 then 100 else found.confidence.value
  }

  lemma VerdictStated(content: string, e: Citation.Evidence, matcher: string -> Option<Citation.Match>)
    requires !Refused(content, e, matcher)
    ensures
      var x := DiagnosisOf(Citation.Expected(content, e, matcher));
      x.Some? && Stated(x.value, content, matcher)
  {
    RefusedIff(content, e, matcher);
    if !Declares(Strip(content)) { var at, i := AcceptedCites(content, e, matcher); }
  }

  /** What is stored is what the first answer states, or, only if that one is refused, what the second states, or,
      only if both are, the fixed note. */
  lemma DiagnosedStates(first: string, second: string, e: Citation.Evidence, matcher: string -> Option<Citation.Match>)
    ensures
      var x := Diagnosed(Citation.Expected(first, e, matcher), Citation.Expected(second, e, matcher));
      if !Refused(first, e, matcher) then Stated(x, first, matcher)
      else if !Refused(second, e, matcher) then Stated(x, second, matcher)
      else x == Diagnosis(Protocol.WITHHELD, 0, NeedsHumanReview)
  {
    RefusedIff(first, e, matcher);
    RefusedIff(second, e, matcher);
    if !Refused(first, e, matcher) {
      VerdictStated(first, e, matcher);
    } else if !Refused(second, e, matcher) {
      VerdictStated(second, e, matcher);
    }
  }

  /** A declared insufficiency never goes to human review by itself: its first line is stored as the hypothesis,
      uncited, and the incident goes on as investigating. */
  lemma InsufficiencyGoesOn(first: string, second: Citation.Verdict, e: Citation.Evidence,
                            matcher: string -> Option<Citation.Match>)
    requires Declares(Strip(first))
    ensures Diagnosed(Citation.Expected(first, e, matcher), second)
      == Diagnosis(Citation.FirstLine(Strip(first)), 0, Investigating)
  {
    DeclaresIff(Strip(first));
  }

  // ---------------------------------------------------------------- the prescribed answer

  const OPENING := "Insufficient evidence"

  /** The answer that the prompt prescribes when the evidence does not suffice. */
  const PRESCRIBED := OPENING + (" for a confident" + (" conclusion;" + (" human review" + " required.")))

  /** No dash and no line break. */
  predicate Quiet(s: string) {
    forall i :: 0 <= i < |s| ==> s[i] != '-' && !IsBreak(s[i])
  }

  lemma OpeningLowered()
    ensures Lower(OPENING) == "insufficient evidence"
  {
    var expected := "insufficient evidence";
    assert |OPENING| == |expected| == 21;
  }

  lemma PrescribedIsQuiet()
    ensures Quiet(PRESCRIBED)
  {
    assert Quiet(OPENING);
    assert Quiet(" for a confident");
    assert Quiet(" conclusion;");
    assert Quiet(" human review");
    assert Quiet(" required.");
  }

  lemma LowerPrefix(head: string, tail: string)
    ensures Lower(head + tail)[..|head|] == Lower(head)
  {
  }

  /** One line that opens with those words, and has no dash, declares insufficiency with the whole of itself. */
  lemma OpensInsufficient(text: string, tail: string)
    requires text == OPENING + tail && Quiet(text)
    ensures Citation.DeclaresInsufficiency(text) && Citation.FirstLine(text) == text
  {
    OpeningLowered();
    LowerPrefix(OPENING, tail);
    assert OccursAt(Lower(text), Lower(OPENING), 0);
  }

  /** Its diagnosis is stored without a citation as investigating, and so announced to the next stage. */
  lemma PrescribedAnswerGoesOn(second: Citation.Verdict, e: Citation.Evidence, matcher: string -> Option<Citation.Match>)
    ensures Diagnosed(Citation.Expected(PRESCRIBED, e, matcher), second) == Diagnosis(PRESCRIBED, 0, Investigating)
  {
    var text := PRESCRIBED;
    NothingToStrip(text);
    PrescribedIsQuiet();
    OpensInsufficient(text, text[|OPENING|..]);
    DeclaresIff(text);
    InsufficiencyGoesOn(text, second, e, matcher);
  }

  class RootCauseAgent {
    const store: IncidentStore
    var inProgress: set<Id>

    constructor (store: IncidentStore)
      ensures this.store == store && inProgress == {}
    {
      this.store, inProgress := store, {};
    }

    /** One normal attempt and, when its answer is rejected, one stricter retry. */
    method Ask(e: Citation.Evidence, answers: nat -> string, matcher: string -> Option<Citation.Match>)
        returns (x: Diagnosis)
      ensures x == Diagnosed(Citation.Expected(answers(0), e, matcher), Citation.Expected(answers(1), e, matcher))
    {
      var first := Citation.ParseAndValidate(answers(0), e, matcher);
      if !first.Rejected? { return DiagnosisOf(first).value; }
      var second := Citation.ParseAndValidate(answers(1), e, matcher);
      x := if !second.Rejected? then DiagnosisOf(second).value else WITHHELD_DIAGNOSIS;
    }

    /** Diagnoses once: an incident that has a hypothesis is left alone. Only a diagnosis that is not withheld is
        announced. */
    method Handle(id: Id, e: Citation.Evidence, answers: nat -> string, matcher: string -> Option<Citation.Match>)
        returns (announced: bool)
      modifies store
      ensures id !in old(store.incidents) || old(store.incidents)[id].hypothesis.Some?
        ==> store.Untouched() && !announced
      ensures id in old(store.incidents) && old(store.incidents)[id].hypothesis == None ==>
        var x := Diagnosed(Citation.Expected(answers(0), e, matcher), Citation.Expected(answers(1), e, matcher));
        && store.Committed(id, Stored(old(store.SliceOf(id)), x))
        && store.incidents[id] == old(store.incidents)[id].(
             hypothesis := Some(x.hypothesis), confidence := Some(x.confidence), status := x.status)
        && announced == (x.status == Investigating)
    {
      announced := false;
      if id !in store.incidents || store.incidents[id].hypothesis.Some? { return; }
      var x := Ask(e, answers, matcher);
      var saved := store.SaveRootCause(id, x.hypothesis, x.confidence, x.status);
      announced := x.status == Investigating;
    }

    /** A duplicate trigger during a diagnosis is ignored; the guard is always released. */
    method HandleEvent(id: Id, e: Citation.Evidence, answers: nat -> string, matcher: string -> Option<Citation.Match>)
        returns (announced: bool)
      modifies this, store
      ensures inProgress == old(inProgress)
      ensures id in old(inProgress) || id !in old(store.incidents) || old(store.incidents)[id].hypothesis.Some?
        ==> store.Untouched() && !announced
      ensures id !in old(inProgress) && id in old(store.incidents) && old(store.incidents)[id].hypothesis == None ==>
        var x := Diagnosed(Citation.Expected(answers(0), e, matcher), Citation.Expected(answers(1), e, matcher));
        && store.Committed(id, Stored(old(store.SliceOf(id)), x))
        && store.incidents[id] == old(store.incidents)[id].(
             hypothesis := Some(x.hypothesis), confidence := Some(x.confidence), status := x.status)
        && announced == (x.status == Investigating)
    {
      if id in inProgress { return false; }
      inProgress := inProgress + {id};
      announced := Handle(id, e, answers, matcher);
      inProgress := inProgress - {id};
      assert inProgress == old(inProgress);
    }
  }
}
