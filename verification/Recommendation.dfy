/** The planner's final text parsed into typed actions, and what of it can reach the CMMS. */
module Recommendation {
  import opened Wrappers
  import opened Text
  import opened Lines
  import opened Mapping

  datatype Product = Coagulant | Biocide | CorrosionInhibitor {
    function Key(): string {
      match this
      case Coagulant => "coagulant"
      case Biocide => "biocide"
      case CorrosionInhibitor => "corrosion_inhibitor"
    }
  }

  datatype Reorder = Reorder(product: Product, quantity: real, digits: string, reason: string)

  /** `float` refuses a number with two points, or without digits. */
  datatype ParseError = NotANumber(digits: string)

  // ---------------------------------------------------------------- the reorder line

  predicate IsDigit(c: char) { '0' <= c <= '9' }

  function NumberLength(s: string): (n: nat)
    ensures n <= |s| && forall i :: 0 <= i < n ==> IsDigit(s[i]) || s[i] == '.'
    ensures n < |s| ==> !IsDigit(s[n]) && s[n] != '.'
  {
    if s == [] || !(IsDigit(s[0]) || s[0] == '.') then 0 else 1 + NumberLength(s[1..])
  }

  function Whole(digits: string): nat {
    if digits == [] then 0
    else
      var c := digits[|digits| - 1];
      10 * Whole(digits[..|digits| - 1]) + if IsDigit(c) then c as int - '0' as int else 0
  }

  function Power(n: nat): (p: nat)
    ensures p >= 1
  {
    if n == 0 then 1 else 10 * Power(n - 1)
  }

  function PointAt(s: string): (n: nat)
    ensures n <= |s| && (forall i :: 0 <= i < n ==> s[i] != '.') && (n < |s| ==> s[n] == '.')
  {
    if s == [] || s[0] == '.' then 0 else 1 + PointAt(s[1..])
  }

  /** `float` on a string of digits and points. */
  function Decimal(s: string): Option<real> {
    var n := PointAt(s);
    if n == |s| then if s == [] then None else Some(Whole(s) as real)
    else if '.' in s[n + 1..] || |s| == 1 then None
    else Some(Fraction(s[..n], s[n + 1..]))
  }

  /** The digits before and after the point. */
  function Fraction(whole: string, parts: string): real {
    Whole(whole) as real + Whole(parts) as real / Power(|parts|) as real
  }

  const DEFAULT_REASON := "recommended by the Recommendation Agent"

  function ProductName(t: string): Option<Product> {
    if StartsWithIgnoringCase(t, "coagulant") then Some(Coagulant)
    else if StartsWithIgnoringCase(t, "biocide") then Some(Biocide)
    else if StartsWithIgnoringCase(t, "corrosion_inhibitor") then Some(CorrosionInhibitor)
    else None
  }

  /** What follows the quantity: nothing, or a reason after "because". */
  function ReasonOf(t: string): Option<string> {
    if t == [] then Some(DEFAULT_REASON)
    else if StartsWithIgnoringCase(t, "because") && |t| > 7 && IsSpace(t[7]) then Some(Strip(t[7..]))
    else None
  }

  /** Digits of the quantity, and what follows it, after "qty" and an equals sign. */
  function QuantityText(t: string): Option<(string, string)> {
    if !StartsWithIgnoringCase(t, "qty") then None
    else
      var v := TrimLeft(t[3..]);
      if v == [] || v[0] != '=' then None
      else
        var w := TrimLeft(v[1..]);
        var n := NumberLength(w);
        if n == 0 then None else Some((w[..n], TrimLeft(w[n..])))
  }

  /** The three parts of a well-formed reorder: product, digits, reason. */
  function ReorderParts(raw: string): Option<(Product, string, string)> {
    var t := Strip(raw);
    var product := ProductName(t);
    if product == None then None
    else
      var rest := t[|product.value.Key()|..];
      if rest == [] || !IsSpace(rest[0]) then None
      else
        var quantity := QuantityText(TrimLeft(rest));
        if quantity == None then None
        else
          var reason := ReasonOf(quantity.value.1);
          if reason == None then None else Some((product.value, quantity.value.0, reason.value))
  }

  /** Success(None) when the line does not match; a failure when it does but its quantity is no number. */
  function ParseProductReorder(raw: string): Result<Option<Reorder>, ParseError> {
    var parts := ReorderParts(raw);
    if parts == None then Success(None)
    else
      var (product, digits, reason) := parts.value;
      var quantity := Decimal(digits);
      if quantity == None then Failure(NotANumber(digits))
      else Success(Some(Reorder(product, quantity.value, digits, reason)))
  }

  // ---------------------------------------------------------------- the lines

  /** A numbered or bulleted line with something after its prefix. */
  function ActionText(stripped: string): Option<string> {
    if |stripped| > 2 && '1' <= stripped[0] <= '9' && stripped[1] == '.' then Some(Strip(stripped[2..]))
    else if |stripped| > 1 && (stripped[0] == '-' || stripped[0] == '*') then Some(Strip(stripped[1..]))
    else None
  }

  /** What one line of the answer is; the item is what it would list outside the rationale. */
  datatype Line =
    | ReorderLine(parsed: Result<Option<Reorder>, ParseError>)
    | RationaleLine(rest: string)
    | NoteLine(stripped: string, item: Option<string>)
    | PlainLine(stripped: string, item: Option<string>)
  {
    predicate MayList() { (NoteLine? || PlainLine?) && item.Some? }
  }

  function Read(line: string): Line {
    var stripped := Strip(line);
    if StartsWithIgnoringCase(stripped, "product reorder:") then ReorderLine(ParseProductReorder(stripped[16..]))
    else if StartsWithIgnoringCase(stripped, "rationale:") then RationaleLine(Strip(stripped[10..]))
    else if StartsWithIgnoringCase(stripped, "hitl note") then NoteLine(stripped, ActionText(stripped))
    else PlainLine(stripped, ActionText(stripped))
  }

  function ReadAll(lines: seq<string>): (r: seq<Line>)
    ensures |r| == |lines| && forall i :: 0 <= i < |r| ==> r[i] == Read(lines[i])
  {
    seq(|lines|, i requires 0 <= i < |lines| => Read(lines[i]))
  }

  /** What the loop has collected. */
  datatype Progress = Progress(
    work: seq<string>, reorder: Option<Reorder>, rationale: seq<string>, inRationale: bool)

  function List(p: Progress, item: Option<string>): Progress {
    if item.Some? then p.(work := p.work + [item.value]) else p
  }

  function Advance(p: Progress, line: Line): Result<Progress, ParseError> {
    match line
    case ReorderLine(Success(reorder)) => Success(p.(reorder := reorder))
    case ReorderLine(Failure(error)) => Failure(error)
    case RationaleLine(rest) => Success(p.(inRationale := true, rationale := p.rationale + [rest]))
    case NoteLine(_, item) => Success(if p.inRationale then p.(inRationale := false) else List(p, item))
    case PlainLine(stripped, item) =>
      Success(if p.inRationale then p.(rationale := p.rationale + [stripped]) else List(p, item))
  }

  function Collect(lines: seq<Line>): Result<Progress, ParseError> {
    if lines == [] then Success(Progress([], None, [], false))
    else
      var before := Collect(lines[..|lines| - 1]);
      if before.Failure? then before else Advance(before.value, lines[|lines| - 1])
  }

  function ReorderText(r: Reorder): string {
    "Reorder " + r.digits + " of " + r.product.Key() + " (" + r.reason + ")"
  }

  /** Work orders numbered from 1 in order of appearance. */
  function WorkActions(work: seq<string>): (actions: seq<RecommendedAction>)
    ensures |actions| == |work|
    ensures forall i :: 0 <= i < |work| ==> actions[i] == Entry(work[i], Some(i + 1), "work_order", "", None)
  {
    seq(|work|, i requires 0 <= i < |work| => Entry(work[i], Some(i + 1), "work_order", "", None))
  }

  function ReorderAction(r: Reorder, priority: int): RecommendedAction {
    Entry(ReorderText(r), Some(priority), "product_reorder", r.product.Key(), Some(r.quantity))
  }

  function Fallback(text: string): RecommendedAction {
    var whole := Strip(if text == "" then "No specific action parsed" else text);
    Entry(if |whole| > 400 then whole[..400] else whole, Some(1), "manual", "", None)
  }

  function WithReorder(actions: seq<RecommendedAction>, reorder: Option<Reorder>): seq<RecommendedAction> {
    if reorder.Some? then actions + [ReorderAction(reorder.value, |actions| + 1)] else actions
  }

  function ActionsOf(text: string, p: Progress): seq<RecommendedAction> {
    var actions := WithReorder(WorkActions(p.work), p.reorder);
    if actions == [] then [Fallback(text)] else actions
  }

  function Finished(text: string, p: Progress): Parsed {
    Parsed(ActionsOf(text, p), Strip(Spaced(NonEmpty(p.rationale))))
  }

  function NonEmpty(parts: seq<string>): seq<string> {
    if parts == [] then []
    else
      var rest, last := NonEmpty(parts[..|parts| - 1]), parts[|parts| - 1];
      if last == "" then rest else rest + [last]
  }

  function Spaced(parts: seq<string>): string {
    if parts == [] then []
    else if |parts| == 1 then parts[0]
    else Spaced(parts[..|parts| - 1]) + " " + parts[|parts| - 1]
  }

  datatype Parsed = Parsed(actions: seq<RecommendedAction>, rationale: string)

  function Outcome(text: string): Result<Parsed, ParseError> {
    var collected := Collect(ReadAll(SplitLines(text)));
    if collected.Failure? then Failure(collected.error) else Success(Finished(text, collected.value))
  }

  lemma CollectNext(lines: seq<Line>, i: nat)
    requires i < |lines| && Collect(lines[..i]).Success?
    ensures Collect(lines[..i + 1]) == Advance(Collect(lines[..i]).value, lines[i])
  {
    assert lines[..i + 1][..i] == lines[..i];
  }

  lemma {:induction false} CollectFails(lines: seq<Line>, i: nat)
    requires i <= |lines| && Collect(lines[..i]).Failure?
    ensures Collect(lines) == Collect(lines[..i])
    decreases |lines| - i
  {
    if i == |lines| {
      assert lines[..i] == lines;
    } else {
      assert lines[..i + 1][..i] == lines[..i];
      CollectFails(lines, i + 1);
    }
  }

  lemma WorkMore(work: seq<string>, text: string)
    ensures WorkActions(work + [text])
      == WorkActions(work) + [NextWork(WorkActions(work), text)]
  {
  }

  function NextWork(actions: seq<RecommendedAction>, text: string): RecommendedAction {
    Entry(text, Some(|actions| + 1), "work_order", "", None)
  }

  method CollectLines(text: seq<string>)
      returns (r: Result<(seq<RecommendedAction>, Option<Reorder>, seq<string>), ParseError>, ghost p: Progress)
    ensures Collect(ReadAll(text)).Failure? ==> r == Failure(Collect(ReadAll(text)).error)
    ensures Collect(ReadAll(text)).Success? ==> p == Collect(ReadAll(text)).value
    ensures Collect(ReadAll(text)).Success? ==> r == Success((WorkActions(p.work), p.reorder, p.rationale))
  {
    var actions: seq<RecommendedAction> := [];
    var rationaleParts: seq<string> := [];
    var reorder: Option<Reorder> := None;
    var inRationale := false;
    ghost var work: seq<string> := [];
    var lines := ReadAll(text);
    for i := 0 to |lines|
      invariant Collect(lines[..i]) == Success(Progress(work, reorder, rationaleParts, inRationale))
      invariant actions == WorkActions(work)
    {
      var line := lines[i];
      CollectNext(lines, i);
      if line.ReorderLine? {
        if line.parsed.Failure? {
          CollectFails(lines, i + 1);
          return Failure(line.parsed.error), Progress([], None, [], false);
        }
        reorder := line.parsed.value;
        continue;
      }
      if line.RationaleLine? {
        inRationale := true;
        rationaleParts := rationaleParts + [line.rest];
        continue;
      }
      if inRationale {
        if line.NoteLine? {
          inRationale := false;
          continue;
        }
        rationaleParts := rationaleParts + [line.stripped];
        continue;
      }
      if line.item.Some? {
        WorkMore(work, line.item.value);
        actions := actions + [NextWork(actions, line.item.value)];
        work := work + [line.item.value];
      }
    }
    assert lines[..|lines|] == lines;
    p := Progress(work, reorder, rationaleParts, inRationale);
    r := Success((actions, reorder, rationaleParts));
  }

  method ParseRecommendation(text: string) returns (r: Result<Parsed, ParseError>)
    ensures r == Outcome(text)
  {
    var lines := SplitLines(text);
    var collected, p := CollectLines(lines);
    if collected.Failure? { return Failure(collected.error); }
    var (actions, reorder, rationaleParts) := collected.value;
    actions := WithReorder(actions, reorder);
    if actions == [] { actions := [Fallback(text)]; }
    r := Success(Parsed(actions, Strip(Spaced(NonEmpty(rationaleParts)))));
  }

  // ---------------------------------------------------------------- where the actions come from

  /** After a rationale line and before the next note. */
  function InRationale(lines: seq<Line>): bool {
    if lines == [] then false
    else
      match lines[|lines| - 1]
      case RationaleLine(_) => true
      case NoteLine(_, _) => false
      case _ => InRationale(lines[..|lines| - 1])
  }

  /** A numbered or bulleted line outside the rationale. */
  predicate IsListed(lines: seq<Line>, i: nat)
    requires i < |lines|
  {
    lines[i].MayList() && !InRationale(lines[..i])
  }

  /** `at` are the positions of the listed lines, in order, and `work` their items. */
  ghost predicate Listed(lines: seq<Line>, work: seq<string>, at: seq<nat>) {
    && |at| == |work| && Increasing(at)
    && (forall k :: 0 <= k < |at| ==> at[k] < |lines| && IsListed(lines, at[k]) && lines[at[k]].item.value == work[k])
    && (forall i: nat :: i < |lines| && IsListed(lines, i) ==> i in at)
  }

  lemma ListedBefore(lines: seq<Line>, line: Line, i: nat)
    requires i < |lines|
    ensures IsListed(lines + [line], i) == IsListed(lines, i)
  {
    assert (lines + [line])[..i] == lines[..i];
  }

  lemma ListedMore(lines: seq<Line>, line: Line, work: seq<string>, at: seq<nat>)
    requires Listed(lines, work, at)
    ensures
      if IsListed(lines + [line], |lines|) then Listed(lines + [line], work + [line.item.value], at + [|lines|])
      else Listed(lines + [line], work, at)
  {
    forall i: nat | i < |lines| ensures IsListed(lines + [line], i) == IsListed(lines, i) {
      ListedBefore(lines, line, i);
    }
    assert |lines| in at + [|lines|];
  }

  lemma LastListed(lines: seq<Line>, line: Line)
    ensures IsListed(lines + [line], |lines|) <==> line.MayList() && !InRationale(lines)
    ensures InRationale(lines + [line]) == (line.RationaleLine? || (InRationale(lines) && !line.NoteLine?))
  {
    assert (lines + [line])[..|lines|] == lines;
  }

  lemma AdvanceWork(p: Progress, line: Line, q: Progress)
    requires Advance(p, line) == Success(q)
    ensures q.work == if line.MayList() && !p.inRationale then p.work + [line.item.value] else p.work
    ensures q.inRationale == (line.RationaleLine? || (p.inRationale && !line.NoteLine?))
  {
  }

  lemma ListedStep(lines: seq<Line>, line: Line, p: Progress, q: Progress, at: seq<nat>) returns (more: seq<nat>)
    requires Listed(lines, p.work, at) && p.inRationale == InRationale(lines) && Advance(p, line) == Success(q)
    ensures Listed(lines + [line], q.work, more) && q.inRationale == InRationale(lines + [line])
  {
    LastListed(lines, line);
    AdvanceWork(p, line, q);
    ListedMore(lines, line, p.work, at);
    more := if line.MayList() && !p.inRationale then at + [|lines|] else at;
  }

  /** The work orders are exactly the numbered and bulleted lines outside the rationale, in order. */
  lemma {:induction false} WorkIsListed(lines: seq<Line>) returns (at: seq<nat>)
    requires Collect(lines).Success?
    ensures Listed(lines, Collect(lines).value.work, at)
    ensures Collect(lines).value.inRationale == InRationale(lines)
  {
    at := [];
    if lines != [] {
      var front, line := lines[..|lines| - 1], lines[|lines| - 1];
      at := WorkIsListed(front);
      assert lines == front + [line];
      at := ListedStep(front, line, Collect(front).value, Collect(lines).value, at);
    }
  }

  /** The last reorder line decides, also when it does not parse; without one there is no reorder. */
  function LastReorder(lines: seq<Line>): Option<Reorder> {
    if lines == [] then None
    else if lines[|lines| - 1].ReorderLine? then
      match lines[|lines| - 1].parsed
      case Success(reorder) => reorder
      case Failure(_) => None
    else LastReorder(lines[..|lines| - 1])
  }

  lemma {:induction false} ReorderIsLast(lines: seq<Line>)
    requires Collect(lines).Success?
    ensures Collect(lines).value.reorder == LastReorder(lines)
  {
    if lines != [] { ReorderIsLast(lines[..|lines| - 1]); }
  }

  /** Every listed action says something. */
  lemma ActionTextKept(stripped: string)
    requires stripped == Strip(stripped) && ActionText(stripped).Some?
    ensures ActionText(stripped).value != [] && Strip(ActionText(stripped).value) == ActionText(stripped).value
  {
    var rest := if '1' <= stripped[0] <= '9' then stripped[2..] else stripped[1..];
    SomethingToKeep(rest);
    StripIdempotent(rest);
  }

  // ---------------------------------------------------------------- what reaches the CMMS

  lemma DeclaredWorkOrder()
    ensures KnownType(Lower(Strip("work_order"))) == Some(WorkOrder)
  {
    NothingToStrip("work_order");
    LowerSame("work_order");
  }

  lemma DeclaredReorder()
    ensures KnownType(Lower(Strip("product_reorder"))) == Some(ProductReorder)
  {
    NothingToStrip("product_reorder");
    LowerSame("product_reorder");
    assert |"product_reorder"| == 15;
  }

  lemma DeclaredManual()
    ensures KnownType(Lower(Strip("manual"))) == Some(Manual)
  {
    NothingToStrip("manual");
    LowerSame("manual");
  }

  lemma ClassifyDeclared(entry: RecommendedAction, kind: Kind)
    requires entry.Entry? && KnownType(Lower(Strip(entry.declared))) == Some(kind)
    ensures Classify(entry) == kind
  {
  }

  lemma PlaceEntry(actions: seq<RecommendedAction>, entry: RecommendedAction, kind: Kind)
    requires entry.Entry? && Classify(entry) == kind
    ensures Mapped(actions + [entry]) == PlaceAs(Mapped(actions), entry, kind)
  {
    MappedNext(actions, entry);
  }

  function WorkOrderOperation(text: string, priority: int): CmmsOperation {
    CmmsOperation(WorkOrder, priority, text, Strip(text), "", 0.0)
  }

  function WorkOrders(work: seq<string>): seq<CmmsOperation> {
    if work == [] then []
    else WorkOrders(work[..|work| - 1]) + [WorkOrderOperation(work[|work| - 1], |work|)]
  }

  function ReorderOperation(r: Reorder, priority: int): CmmsOperation {
    CmmsOperation(ProductReorder, priority, ReorderText(r), "", r.product.Key(), r.quantity)
  }

  lemma WorkMappedNext(actions: seq<RecommendedAction>, text: string)
    ensures Mapped(actions + [NextWork(actions, text)])
      == Mapped(actions).(operations := Mapped(actions).operations + [WorkOrderOperation(text, |actions| + 1)])
  {
    var entry := NextWork(actions, text);
    DeclaredWorkOrder();
    ClassifyDeclared(entry, WorkOrder);
    PlaceEntry(actions, entry, WorkOrder);
  }

  lemma {:induction false} WorkMapped(work: seq<string>)
    ensures Mapped(WorkActions(work)) == MappingResult(WorkOrders(work), [])
  {
    if work != [] {
      var front, last := work[..|work| - 1], work[|work| - 1];
      WorkMapped(front);
      WorkMore(front, last);
      assert work == front + [last];
      WorkMappedNext(WorkActions(front), last);
    }
  }

  lemma KeyKept(product: Product)
    ensures Strip(product.Key()) == product.Key() && product.Key() != ""
  {
    NothingToStrip(product.Key());
  }

  lemma ReorderMapped(actions: seq<RecommendedAction>, r: Reorder)
    ensures Mapped(WithReorder(actions, Some(r)))
      == Mapped(actions).(operations := Mapped(actions).operations + [ReorderOperation(r, |actions| + 1)])
  {
    var entry := ReorderAction(r, |actions| + 1);
    DeclaredReorder();
    ClassifyDeclared(entry, ProductReorder);
    PlaceEntry(actions, entry, ProductReorder);
    KeyKept(r.product);
  }

  lemma ManualMapped(entry: RecommendedAction)
    requires entry.Entry? && Classify(entry) == Manual
    ensures Mapped([entry]) == MappingResult([], [NotExecutable(entry)])
  {
    PlaceEntry([], entry, Manual);
    assert [] + [entry] == [entry];
  }

  lemma FallbackMapped(text: string)
    ensures Mapped([Fallback(text)]) == MappingResult([], [NotExecutable(Fallback(text))])
  {
    DeclaredManual();
    ClassifyDeclared(Fallback(text), Manual);
    ManualMapped(Fallback(text));
  }

  function Operations(p: Progress): seq<CmmsOperation> {
    WorkOrders(p.work) + if p.reorder.Some? then [ReorderOperation(p.reorder.value, |p.work| + 1)] else []
  }

  /** The external operations of a parsed recommendation: one work order for each listed line, then at most one
      reorder of one of the three products. Only the whole-text fallback is left to a person. */
  lemma ParsedMapping(text: string, p: Progress)
    ensures Mapped(ActionsOf(text, p)).operations == Operations(p)
    ensures Mapped(ActionsOf(text, p)).unmapped == if Operations(p) == [] then [NotExecutable(Fallback(text))] else []
  {
    WorkMapped(p.work);
    if p.reorder.Some? {
      ReorderMapped(WorkActions(p.work), p.reorder.value);
    } else if p.work == [] {
      FallbackMapped(text);
    }
  }

  /** Actions are numbered 1 to n, and there is always one. */
  lemma PrioritiesCount(text: string, p: Progress)
    ensures
      var actions := ActionsOf(text, p);
      actions != [] && forall i :: 0 <= i < |actions| ==> actions[i].Entry? && actions[i].priority == Some(i + 1)
  {
  }

  ghost predicate NoneListed(lines: seq<Line>) {
    forall i: nat :: i < |lines| ==> !IsListed(lines, i)
  }

  lemma NoneListedIff(lines: seq<Line>, work: seq<string>, at: seq<nat>)
    requires Listed(lines, work, at)
    ensures work == [] <==> NoneListed(lines)
  {
    if work != [] { assert IsListed(lines, at[0]); }
  }

  /** Text leads to no external operation if and only if it lists no action and ends without a usable reorder. */
  lemma NothingExternalIff(text: string)
    requires Outcome(text).Success?
    ensures
      var lines := ReadAll(SplitLines(text));
      Mapped(Outcome(text).value.actions).operations == [] <==> NoneListed(lines) && LastReorder(lines) == None
  {
    var lines := ReadAll(SplitLines(text));
    var p := Collect(lines).value;
    var at := WorkIsListed(lines);
    ReorderIsLast(lines);
    ParsedMapping(text, p);
    NoneListedIff(lines, p.work, at);
  }

  // ---------------------------------------------------------------- the planner's rounds

  datatype ToolCall = ToolCall(name: string, arguments: string)

  datatype Response = Response(content: string, toolCalls: seq<ToolCall>)

  datatype ToolEntry = ToolEntry(round: nat, call: ToolCall, result: string)

  const MAX_TOOL_ROUNDS := 4

  function RoundEntries(round: nat, calls: seq<ToolCall>, execute: ToolCall -> string): seq<ToolEntry> {
    if calls == [] then []
    else
      var last := calls[|calls| - 1];
      RoundEntries(round, calls[..|calls| - 1], execute) + [ToolEntry(round, last, execute(last))]
  }

  /** Every call of the first `rounds` responses with its result, in order. */
  function ToolLog(responses: nat -> Response, rounds: nat, execute: ToolCall -> string): seq<ToolEntry> {
    if rounds == 0 then []
    else ToolLog(responses, rounds - 1, execute) + RoundEntries(rounds, responses(rounds - 1).toolCalls, execute)
  }

  method ExecuteTools(round: nat, calls: seq<ToolCall>, execute: ToolCall -> string, toolLog: seq<ToolEntry>)
      returns (extended: seq<ToolEntry>)
    ensures extended == toolLog + RoundEntries(round, calls, execute)
  {
    extended := toolLog;
    for i := 0 to |calls|
      invariant extended == toolLog + RoundEntries(round, calls[..i], execute)
    {
      assert calls[..i + 1][..i] == calls[..i];
      extended := extended + [ToolEntry(round, calls[i], execute(calls[i]))];
    }
    assert calls[..|calls|] == calls;
  }

  /** The planner asks at most `MAX_TOOL_ROUNDS + 1` times: it ends with the first answer that calls no tool, or
      with the one after the last round, and every call before it is logged. */
  method PlannerLoop(responses: nat -> Response, execute: ToolCall -> string)
      returns (answer: string, toolLog: seq<ToolEntry>, chats: nat)
    ensures 1 <= chats <= MAX_TOOL_ROUNDS + 1 && answer == responses(chats - 1).content
    ensures forall i: nat :: i < chats - 1 ==> responses(i).toolCalls != []
    ensures chats <= MAX_TOOL_ROUNDS ==> responses(chats - 1).toolCalls == []
    ensures toolLog == ToolLog(responses, chats - 1, execute)
  {
    toolLog := [];
    for round := 0 to MAX_TOOL_ROUNDS
      invariant forall i: nat :: i < round ==> responses(i).toolCalls != []
      invariant toolLog == ToolLog(responses, round, execute)
    {
      var response := responses(round);
      if response.toolCalls == [] { return response.content, toolLog, round + 1; }
      toolLog := ExecuteTools(round + 1, response.toolCalls, execute, toolLog);
    }
    answer, chats := responses(MAX_TOOL_ROUNDS).content, MAX_TOOL_ROUNDS + 1;
  }
}
