/** The planner's answer in its own lines: what each line of it orders, lists or explains. */
module RecommendationText {
  import opened Wrappers
  import opened Text
  import opened Lines
  import opened Mapping
  import opened Recommendation
  import opened ReorderText

  // ---------------------------------------------------------------- the kinds of lines

  ghost predicate IsReorder(line: string) { WrittenAt(Strip(line), "product reorder:", 0) }

  ghost predicate IsRationale(line: string) { !IsReorder(line) && WrittenAt(Strip(line), "rationale:", 0) }

  ghost predicate IsNote(line: string) {
    !IsReorder(line) && !IsRationale(line) && WrittenAt(Strip(line), "hitl note", 0)
  }

  /** A digit and a point, or a dash or star, and then the item. */
  ghost predicate HasItem(line: string, item: string) {
    var t := Strip(line);
    || (|t| > 2 && t[0] in "123456789" && t[1] == '.' && item == Strip(t[2..]))
    || (|t| > 1 && t[0] in "-*" && item == Strip(t[1..]))
  }

  lemma ItemIff(line: string, item: string)
    ensures ActionText(Strip(line)) == Some(item) <==> HasItem(line, item)
  {
    var t := Strip(line);
    if t != "" && '1' <= t[0] <= '9' {
      var k := t[0] as int - '1' as int;
      assert "123456789"[k] == t[0];
    }
  }

  lemma ReadIs(line: string)
    ensures Read(line).ReorderLine? <==> IsReorder(line)
    ensures Read(line).RationaleLine? <==> IsRationale(line)
    ensures Read(line).NoteLine? <==> IsNote(line)
    ensures IsReorder(line) ==> |Strip(line)| >= 16 && Read(line).parsed == ParseProductReorder(Strip(line)[16..])
    ensures IsRationale(line) ==> |Strip(line)| >= 10 && Read(line).rest == Strip(Strip(line)[10..])
    ensures !IsReorder(line) && !IsRationale(line) ==>
      Read(line).stripped == Strip(line) && Read(line).item == ActionText(Strip(line))
  {
    StartsIff(Strip(line), "product reorder:");
    StartsIff(Strip(line), "rationale:");
    StartsIff(Strip(line), "hitl note");
    assert |"product reorder:"| == 16 && |"rationale:"| == 10;
  }

  /** A rationale line comes before, and no note since. */
  ghost predicate Inside(lines: seq<string>, i: nat)
    requires i <= |lines|
  {
    exists r :: 0 <= r < i && IsRationale(lines[r]) && forall k :: r < k < i ==> !IsNote(lines[k])
  }

  ghost predicate InsideRead(lines: seq<Line>, i: nat)
    requires i <= |lines|
  {
    exists r :: 0 <= r < i && lines[r].RationaleLine? && forall k :: r < k < i ==> !lines[k].NoteLine?
  }

  lemma {:induction false} InsideReadIff(lines: seq<Line>, i: nat)
    requires i <= |lines|
    ensures InRationale(lines[..i]) <==> InsideRead(lines, i)
  {
    if i > 0 {
      InsideReadIff(lines, i - 1);
      assert lines[..i][..i - 1] == lines[..i - 1];
      if InsideRead(lines, i - 1) && !lines[i - 1].NoteLine? {
        var r :| 0 <= r < i - 1 && lines[r].RationaleLine? && forall k :: r < k < i - 1 ==> !lines[k].NoteLine?;
        assert forall k :: r < k < i ==> !lines[k].NoteLine?;
      }
    }
  }

  lemma InsideIff(lines: seq<string>, i: nat)
    requires i <= |lines|
    ensures InRationale(ReadAll(lines)[..i]) <==> Inside(lines, i)
  {
    var read := ReadAll(lines);
    InsideReadIff(read, i);
    forall k | 0 <= k < |lines|
      ensures (read[k].RationaleLine? <==> IsRationale(lines[k])) && (read[k].NoteLine? <==> IsNote(lines[k]))
    {
      ReadIs(lines[k]);
    }
    SameInside(lines, read, i);
  }

  lemma SameInside(lines: seq<string>, read: seq<Line>, i: nat)
    requires i <= |lines| == |read|
    requires forall k :: 0 <= k < |lines| ==> (read[k].RationaleLine? <==> IsRationale(lines[k]))
    requires forall k :: 0 <= k < |lines| ==> (read[k].NoteLine? <==> IsNote(lines[k]))
    ensures InsideRead(read, i) <==> Inside(lines, i)
  {
    if Inside(lines, i) {
      var r :| 0 <= r < i && IsRationale(lines[r]) && forall k :: r < k < i ==> !IsNote(lines[k]);
      assert read[r].RationaleLine?;
    }
    if InsideRead(read, i) {
      var r :| 0 <= r < i && read[r].RationaleLine? && forall k :: r < k < i ==> !read[k].NoteLine?;
      assert IsRationale(lines[r]);
    }
  }

  /** Line `i` lists this item as work to be done. */
  ghost predicate ListsAt(lines: seq<string>, i: nat, item: string) {
    && i < |lines| && !IsReorder(lines[i]) && !IsRationale(lines[i]) && !Inside(lines, i) && HasItem(lines[i], item)
  }

  lemma ListedIff(lines: seq<string>, i: nat, item: string)
    requires i < |lines|
    ensures IsListed(ReadAll(lines), i) && ReadAll(lines)[i].item == Some(item) <==> ListsAt(lines, i, item)
  {
    InsideIff(lines, i);
    ReadIs(lines[i]);
    ItemIff(lines[i], item);
  }

  /** `work` are the items that the lines list, in order; `at` are their positions. */
  ghost predicate ListsExactly(lines: seq<string>, work: seq<string>, at: seq<nat>) {
    && |at| == |work| && Increasing(at)
    && (forall k :: 0 <= k < |at| ==> ListsAt(lines, at[k], work[k]))
    && (forall i: nat, item | ListsAt(lines, i, item) :: i in at)
  }

  lemma WorkIsWritten(lines: seq<string>) returns (at: seq<nat>)
    requires Collect(ReadAll(lines)).Success?
    ensures ListsExactly(lines, Collect(ReadAll(lines)).value.work, at)
  {
    var work := Collect(ReadAll(lines)).value.work;
    at := WorkIsListed(ReadAll(lines));
    forall k | 0 <= k < |at| ensures ListsAt(lines, at[k], work[k]) { ListedIff(lines, at[k], work[k]); }
    forall i: nat, item | ListsAt(lines, i, item) ensures i in at { ListedIff(lines, i, item); }
  }

  // ---------------------------------------------------------------- the reorder

  ghost predicate LastReorderAt(lines: seq<string>, i: nat) {
    i < |lines| && IsReorder(lines[i]) && forall j :: i < j < |lines| ==> !IsReorder(lines[j])
  }

  lemma {:induction false} LastReorderRead(lines: seq<Line>, i: nat)
    requires i <= |lines| && (i < |lines| ==> lines[i].ReorderLine?)
    requires forall j :: i < j < |lines| || i == |lines| > j >= 0 ==> !lines[j].ReorderLine?
    ensures LastReorder(lines)
      == if i < |lines| && lines[i].parsed.Success? then lines[i].parsed.value else None
    decreases |lines|
  {
    if i + 1 < |lines| {
      LastReorderRead(lines[..|lines| - 1], i);
    } else if i == |lines| > 0 {
      LastReorderRead(lines[..|lines| - 1], i - 1);
    }
  }

  function ParsedReorder(line: Line): Option<Reorder> {
    if line.ReorderLine? && line.parsed.Success? then line.parsed.value else None
  }

  /** The last reorder line decides. */
  lemma LastReorderIs(lines: seq<string>, i: nat)
    requires LastReorderAt(lines, i)
    ensures LastReorder(ReadAll(lines)) == ParsedReorder(Read(lines[i]))
  {
    var read := ReadAll(lines);
    forall k | 0 <= k < |lines| ensures read[k].ReorderLine? <==> IsReorder(lines[k]) { ReadIs(lines[k]); }
    LastReorderRead(read, i);
  }

  lemma NoReorder(lines: seq<string>)
    requires forall i :: 0 <= i < |lines| ==> !IsReorder(lines[i])
    ensures LastReorder(ReadAll(lines)) == None
  {
    var read := ReadAll(lines);
    forall k | 0 <= k < |lines| ensures read[k].ReorderLine? <==> IsReorder(lines[k]) { ReadIs(lines[k]); }
    LastReorderRead(read, |lines|);
  }

  /** The reorder line asks for this quantity, written as this number. */
  ghost predicate Asks(line: string, product: Product, number: string, quantity: real, reason: string) {
    && |Strip(line)| >= 16 && Orders(Strip(Strip(line)[16..]), product, number, reason)
    && Decimal(number) == Some(quantity)
  }

  lemma AsksIff(line: string, product: Product, number: string, quantity: real, reason: string)
    requires IsReorder(line)
    ensures ParsedReorder(Read(line)) == Some(Reorder(product, quantity, number, reason))
      <==> Asks(line, product, number, quantity, reason)
  {
    ReadIs(line);
    PartsIff(Strip(line)[16..], product, number, reason);
  }

  // ---------------------------------------------------------------- the rationale

  /** What line `i` says as part of the rationale: the rest of its heading, or a line inside that is neither a
      reorder nor a note. */
  ghost predicate ExplainsAt(lines: seq<string>, i: nat, part: string) {
    && i < |lines| && !IsReorder(lines[i])
    && if IsRationale(lines[i]) then |Strip(lines[i])| >= 10 && part == Strip(Strip(lines[i])[10..])
       else Inside(lines, i) && !IsNote(lines[i]) && part == Strip(lines[i])
  }

  ghost predicate ExplainsExactly(lines: seq<string>, parts: seq<string>, at: seq<nat>) {
    && |at| == |parts| && Increasing(at)
    && (forall k :: 0 <= k < |at| ==> ExplainsAt(lines, at[k], parts[k]))
    && (forall i: nat, part | ExplainsAt(lines, i, part) :: i in at)
  }

  /** What a line that is read contributes to the rationale. */
  function PartOf(line: Line, inRationale: bool): Option<string> {
    match line
    case RationaleLine(rest) => Some(rest)
    case PlainLine(stripped, _) => if inRationale then Some(stripped) else None
    case _ => None
  }

  predicate PartAt(lines: seq<Line>, i: nat, part: string) {
    i < |lines| && PartOf(lines[i], InRationale(lines[..i])) == Some(part)
  }

  ghost predicate PartsExactly(lines: seq<Line>, parts: seq<string>, at: seq<nat>) {
    && |at| == |parts| && Increasing(at)
    && (forall k :: 0 <= k < |at| ==> PartAt(lines, at[k], parts[k]))
    && (forall i: nat, part | PartAt(lines, i, part) :: i in at)
  }

  lemma AdvanceParts(p: Progress, line: Line, q: Progress)
    requires Advance(p, line) == Success(q)
    ensures
      var part := PartOf(line, p.inRationale);
      q.rationale == if part.Some? then p.rationale + [part.value] else p.rationale
  {
  }

  lemma PartBefore(lines: seq<Line>, line: Line, i: nat, part: string)
    ensures i < |lines| ==> (PartAt(lines + [line], i, part) <==> PartAt(lines, i, part))
    ensures PartAt(lines + [line], |lines|, part) <==> PartOf(line, InRationale(lines)) == Some(part)
  {
    var more := lines + [line];
    assert more[..|lines|] == lines;
    if i < |lines| { assert more[..i] == lines[..i]; }
  }

  lemma PartsMore(lines: seq<Line>, line: Line, parts: seq<string>, at: seq<nat>)
    requires PartsExactly(lines, parts, at)
    ensures
      match PartOf(line, InRationale(lines))
      case Some(part) => PartsExactly(lines + [line], parts + [part], at + [|lines|])
      case None => PartsExactly(lines + [line], parts, at)
  {
    forall i: nat, part
      ensures i < |lines| ==> (PartAt(lines + [line], i, part) <==> PartAt(lines, i, part))
      ensures PartAt(lines + [line], |lines|, part) <==> PartOf(line, InRationale(lines)) == Some(part)
    {
      PartBefore(lines, line, i, part);
    }
    assert |lines| in at + [|lines|];
  }

  lemma {:induction false} PartsAreRead(lines: seq<Line>) returns (at: seq<nat>)
    requires Collect(lines).Success?
    ensures PartsExactly(lines, Collect(lines).value.rationale, at)
  {
    at := [];
    if lines != [] {
      var front, line := lines[..|lines| - 1], lines[|lines| - 1];
      at := PartsAreRead(front);
      assert lines == front + [line];
      var p := Collect(front).value;
      var listed := WorkIsListed(front);
      AdvanceParts(p, line, Collect(lines).value);
      PartsMore(front, line, p.rationale, at);
      if PartOf(line, p.inRationale).Some? { at := at + [|front|]; }
    }
  }

  lemma PartIff(lines: seq<string>, i: nat, part: string)
    requires i < |lines|
    ensures PartAt(ReadAll(lines), i, part) <==> ExplainsAt(lines, i, part)
  {
    InsideIff(lines, i);
    ReadIs(lines[i]);
  }

  lemma RationaleIsWritten(lines: seq<string>) returns (at: seq<nat>)
    requires Collect(ReadAll(lines)).Success?
    ensures ExplainsExactly(lines, Collect(ReadAll(lines)).value.rationale, at)
  {
    var parts := Collect(ReadAll(lines)).value.rationale;
    at := PartsAreRead(ReadAll(lines));
    forall k | 0 <= k < |at| ensures ExplainsAt(lines, at[k], parts[k]) { PartIff(lines, at[k], parts[k]); }
    forall i: nat, part | ExplainsAt(lines, i, part) ensures i in at { PartIff(lines, i, part); }
  }

  lemma {:induction false} NonEmptyConcat(a: seq<string>, b: seq<string>)
    ensures NonEmpty(a + b) == NonEmpty(a) + NonEmpty(b)
  {
    if b == [] {
      assert a + b == a;
    } else {
      NonEmptyConcat(a, b[..|b| - 1]);
      assert (a + b)[..|a + b| - 1] == a + b[..|b| - 1];
    }
  }

  lemma {:induction false} SpacedConcat(a: seq<string>, b: seq<string>)
    requires a != [] && b != []
    ensures Spaced(a + b) == Spaced(a) + " " + Spaced(b)
  {
    if |b| == 1 {
      assert (a + b)[..|a|] == a;
    } else {
      var front, last := b[..|b| - 1], b[|b| - 1];
      SpacedConcat(a, front);
      assert (a + b)[..|a + b| - 1] == a + front;
      assert Spaced(a) + " " + Spaced(front) + " " + last == Spaced(a) + " " + (Spaced(front) + " " + last);
    }
  }

  /** The rationale's parts that say something, with one space between them: nothing is nothing, one part is itself
      unless it is empty, and two halves that say something stand side by side. */
  lemma ProseIs(a: seq<string>, b: seq<string>, part: string)
    ensures Spaced(NonEmpty([])) == "" && Spaced(NonEmpty([part])) == part
    ensures
      var x, y := Spaced(NonEmpty(a)), Spaced(NonEmpty(b));
      Spaced(NonEmpty(a + b)) == if NonEmpty(a) == [] then y else if NonEmpty(b) == [] then x else x + " " + y
    ensures NonEmpty(a) == [] <==> forall p :: p in a ==> p == ""
  {
    assert [part][..0] == [];
    NonEmptyConcat(a, b);
    SilentIff(a);
    if NonEmpty(a) == [] {
      assert [] + NonEmpty(b) == NonEmpty(b);
    } else if NonEmpty(b) != [] {
      SpacedConcat(NonEmpty(a), NonEmpty(b));
    } else {
      assert NonEmpty(a) + [] == NonEmpty(a);
    }
  }

  lemma {:induction false} SilentIff(parts: seq<string>)
    ensures NonEmpty(parts) == [] <==> forall p :: p in parts ==> p == ""
  {
    if parts != [] {
      var front, last := parts[..|parts| - 1], parts[|parts| - 1];
      SilentIff(front);
      assert parts == front + [last];
      assert last in parts && forall p :: p in front ==> p in parts;
    }
  }

  // ---------------------------------------------------------------- the whole answer

  function WorkEntry(item: string, priority: int): RecommendedAction {
    Entry(item, Some(priority), "work_order", "", None)
  }

  /** The work actions of a parsed answer are the items that its lines list outside the rationale, numbered in
      order, and its rationale is what the lines of the rationale say. */
  lemma AnswerIsWritten(text: string)
      returns (work: seq<string>, at: seq<nat>, parts: seq<string>, why: seq<nat>)
    requires Outcome(text).Success?
    ensures ListsExactly(SplitLines(text), work, at) && ExplainsExactly(SplitLines(text), parts, why)
    ensures
      var x := Outcome(text).value;
      && |work| <= |x.actions|
      && (forall k :: 0 <= k < |work| ==> x.actions[k] == WorkEntry(work[k], k + 1))
      && (forall k :: |work| <= k < |x.actions| ==> x.actions[k].Entry? && x.actions[k].declared != "work_order")
      && x.rationale == Strip(Spaced(NonEmpty(parts)))
  {
    var lines := SplitLines(text);
    var p := Collect(ReadAll(lines)).value;
    work, parts := p.work, p.rationale;
    at := WorkIsWritten(lines);
    why := RationaleIsWritten(lines);
    assert "manual"[0] != "work_order"[0] && "product_reorder"[0] != "work_order"[0];
  }

  /** The action and the external operation that an order for this quantity leads to. */
  ghost predicate OrdersLast(actions: seq<RecommendedAction>, product: Product, number: string, quantity: real, reason: string) {
    var n, operations := |actions|, Mapped(actions).operations;
    var wording := "Reorder " + number + " of " + product.Key() + " (" + reason + ")";
    && n > 0 && actions[n - 1] == Entry(wording, Some(n), "product_reorder", product.Key(), Some(quantity))
    && operations != []
    && operations[|operations| - 1] == CmmsOperation(ProductReorder, n, wording, "", product.Key(), quantity)
  }

  lemma ReorderOrders(p: Progress, text: string, r: Reorder)
    requires p.reorder == Some(r)
    ensures OrdersLast(ActionsOf(text, p), r.product, r.digits, r.quantity, r.reason)
  {
    ReorderMapped(WorkActions(p.work), r);
  }

  /** When the last reorder line asks for a quantity of a product, exactly that is ordered last. */
  lemma OrdersWhatIsAsked(text: string, i: nat, product: Product, number: string, quantity: real, reason: string)
    requires Outcome(text).Success? && LastReorderAt(SplitLines(text), i)
    requires Asks(SplitLines(text)[i], product, number, quantity, reason)
    ensures OrdersLast(Outcome(text).value.actions, product, number, quantity, reason)
  {
    var lines := SplitLines(text);
    var p := Collect(ReadAll(lines)).value;
    ReorderIsLast(ReadAll(lines));
    LastReorderIs(lines, i);
    AsksIff(lines[i], product, number, quantity, reason);
    ReorderOrders(p, text, Reorder(product, quantity, number, reason));
  }

  ghost predicate AsksSomething(line: string) {
    exists product, number, quantity, reason :: Asks(line, product, number, quantity, reason)
  }

  lemma UnaskedIsNone(line: string)
    requires IsReorder(line) && ParsedReorder(Read(line)).Some?
    ensures AsksSomething(line)
  {
    var r := ParsedReorder(Read(line)).value;
    AsksIff(line, r.product, r.digits, r.quantity, r.reason);
  }

  lemma {:induction false} LastReorderOrNone(lines: seq<string>) returns (i: nat)
    ensures if i < |lines| then LastReorderAt(lines, i) else forall k :: 0 <= k < |lines| ==> !IsReorder(lines[k])
  {
    i := |lines|;
    if lines != [] {
      var n := |lines| - 1;
      if IsReorder(lines[n]) {
        i := n;
      } else {
        i := LastReorderOrNone(lines[..n]);
        assert forall k :: 0 <= k < n ==> lines[..n][k] == lines[k];
        if i >= n { i := |lines|; }
      }
    }
  }

  ghost predicate NothingAsked(lines: seq<string>) {
    forall i: nat :: LastReorderAt(lines, i) ==> !AsksSomething(lines[i])
  }

  lemma LastUnasked(lines: seq<string>, i: nat)
    requires LastReorderAt(lines, i) && !AsksSomething(lines[i])
    ensures LastReorder(ReadAll(lines)) == None
  {
    LastReorderIs(lines, i);
    if ParsedReorder(Read(lines[i])).Some? { UnaskedIsNone(lines[i]); }
  }

  lemma NoneIsLast(lines: seq<string>)
    requires NothingAsked(lines)
    ensures LastReorder(ReadAll(lines)) == None
  {
    var i := LastReorderOrNone(lines);
    if i < |lines| { LastUnasked(lines, i); } else { NoReorder(lines); }
  }

  lemma OnlyWork(text: string, p: Progress)
    requires p.reorder == None
    ensures forall k :: 0 <= k < |ActionsOf(text, p)| ==> ActionsOf(text, p)[k].Entry? && ActionsOf(text, p)[k].productKey == ""
  {
  }

  /** Otherwise nothing is ordered. */
  lemma NothingOrdered(text: string)
    requires Outcome(text).Success? && NothingAsked(SplitLines(text))
    ensures
      var actions := Outcome(text).value.actions;
      forall k :: 0 <= k < |actions| ==> actions[k].Entry? && actions[k].productKey == ""
  {
    var read := ReadAll(SplitLines(text));
    NoneIsLast(SplitLines(text));
    ReorderIsLast(read);
    OnlyWork(text, Collect(read).value);
  }

  lemma {:induction false} CollectFailsIff(lines: seq<Line>)
    ensures Collect(lines).Failure? <==> exists i :: 0 <= i < |lines| && lines[i].ReorderLine? && lines[i].parsed.Failure?
  {
    if lines != [] {
      var front, last := lines[..|lines| - 1], lines[|lines| - 1];
      CollectFailsIff(front);
      assert forall i :: 0 <= i < |front| ==> front[i] == lines[i];
      assert lines[|front|] == last;
    }
  }

  /** A reorder line of the right form whose number is none: two points, or nothing but one. */
  ghost predicate AsksNoNumber(line: string) {
    && IsReorder(line) && |Strip(line)| >= 16
    && exists product, number, reason :: Orders(Strip(Strip(line)[16..]), product, number, reason) && Decimal(number) == None
  }

  lemma NoNumberFails(line: string)
    ensures Read(line).ReorderLine? && Read(line).parsed.Failure? <==> AsksNoNumber(line)
  {
    ReadIs(line);
    if IsReorder(line) {
      var raw := Strip(line)[16..];
      if ReorderParts(raw).Some? {
        var (product, number, reason) := ReorderParts(raw).value;
        PartsIff(raw, product, number, reason);
      }
      if AsksNoNumber(line) {
        var product, number, reason :| Orders(Strip(raw), product, number, reason) && Decimal(number) == None;
        PartsIff(raw, product, number, reason);
      }
    }
  }

  ghost predicate SomeLineFails(lines: seq<string>) {
    exists i :: 0 <= i < |lines| && AsksNoNumber(lines[i])
  }

  lemma LinesRefusedIff(lines: seq<string>)
    ensures Collect(ReadAll(lines)).Failure? <==> SomeLineFails(lines)
  {
    var read := ReadAll(lines);
    CollectFailsIff(read);
    forall i | 0 <= i < |lines| ensures read[i].ReorderLine? && read[i].parsed.Failure? <==> AsksNoNumber(lines[i]) {
      NoNumberFails(lines[i]);
    }
  }

  /** The answer as a whole is refused if and only if some line asks for what is no number. */
  lemma RefusedIff(text: string)
    ensures Outcome(text).Failure? <==> SomeLineFails(SplitLines(text))
  {
    LinesRefusedIff(SplitLines(text));
  }

  /** Nothing listed and nothing ordered: the first 400 characters of the answer become one manual action. */
  lemma FallbackIs(text: string)
    requires Outcome(text).Success? && Outcome(text).value.actions[0].declared == "manual"
    ensures
      var whole := Strip(if text == "" then "No specific action parsed" else text);
      && |Outcome(text).value.actions| == 1
      && Outcome(text).value.actions[0].action == if |whole| <= 400 then whole else whole[..400]
  {
    assert "manual"[0] != "work_order"[0] && "product_reorder"[0] != "manual"[0];
  }

  // ---------------------------------------------------------------- the prescribed format

  /** The line that the prompt prescribes, with a reason and without. */
  function Prescribed(product: Product, number: string, reason: string): string {
    "PRODUCT REORDER: " + OrderedText(product, number, reason)
  }

  lemma AskQuantity(ask: string, number: string, rest: string)
    requires IsNumber(number) && (rest == "" || rest[0] == ' ') && ask == "qty=" + (number + rest)
    ensures Quantity(ask, "", "", number, rest)
  {
    assert ask[0] == 'q' && ask[1] == 't' && ask[2] == 'y' && ask[3] == '=';
    assert ask[3..] == ['='] + (number + rest);
    assert ask[3..] == "" + (['='] + ("" + (number + rest)));
  }

  lemma AskReason(words: string, reason: string)
    requires Strip(reason) == reason && words == "because " + reason && reason != ""
    ensures Reason(" " + words, " ", words, reason)
  {
    assert words[7..] == " " + reason;
    NothingBefore(reason);
    assert forall k :: 0 <= k < 7 ==> words[0 + k] == "because"[k];
  }

  lemma NothingBefore(reason: string)
    requires Strip(reason) == reason
    ensures Strip(" " + reason) == reason
  {
    var from, to := StripPlaces(reason);
    var s := " " + reason;
    if reason == "" {
      assert TrimmedAt(s, reason, 0, 0);
      TrimmedIsStrip(s, reason, 0, 0);
    } else {
      assert from == 0 && to == |reason|;
      assert s[1..|s|] == reason;
      TrimmedIsStrip(s, reason, 1, |s|);
    }
  }

  lemma WrittenFirst(key: string, rest: string)
    ensures WrittenAt(key + rest, key, 0) && (key + rest)[|key|..] == rest
  {
    assert forall k :: 0 <= k < |key| ==> (key + rest)[0 + k] == key[k];
  }

  lemma OrdersFrom(s: string, product: Product, key: string, ask: string, number: string, rest: string, words: string,
                   reason: string)
    requires key == product.Key() && s == key + (" " + ask)
    requires Quantity(ask, "", "", number, rest) && Reason(rest, " ", words, reason)
    ensures Orders(s, product, number, reason)
  {
    WrittenFirst(key, " " + ask);
    assert OrdersWith(s, product, " ", ask, "", "", number, rest, " ", words, reason);
  }

  /** What is ordered, after the heading of a prescribed line. */
  function OrderedText(product: Product, number: string, reason: string): string {
    product.Key() + (" qty=" + (number + (if reason == "" then "" else " because " + reason)))
  }

  lemma PartsGiven(s: string, product: Product, key: string, number: string, rest: string, words: string, reason: string)
    requires key == product.Key() && IsNumber(number) && (rest == "" || rest[0] == ' ')
    requires s == key + (" qty=" + (number + rest)) && Reason(rest, " ", words, reason)
    ensures Orders(s, product, number, reason)
  {
    var ask := "qty=" + (number + rest);
    AskQuantity(ask, number, rest);
    assert " qty=" + (number + rest) == " " + ask;
    OrdersFrom(s, product, key, ask, number, rest, words, reason);
  }

  lemma PrescribedReason(reason: string, given: string) returns (rest: string, words: string)
    requires Strip(reason) == reason
    requires given == if reason == "" then "recommended by the Recommendation Agent" else reason
    ensures rest == (if reason == "" then "" else " because " + reason) && Reason(rest, " ", words, given)
  {
    words := "because " + reason;
    rest := if reason == "" then "" else " because " + reason;
    if reason != "" {
      assert rest == " " + words;
      AskReason(words, reason);
    }
  }

  lemma PrescribedParts(product: Product, number: string, reason: string, given: string)
    requires IsNumber(number) && Strip(reason) == reason
    requires given == if reason == "" then "recommended by the Recommendation Agent" else reason
    ensures Orders(OrderedText(product, number, reason), product, number, given)
  {
    var rest, words := PrescribedReason(reason, given);
    PartsGiven(OrderedText(product, number, reason), product, product.Key(), number, rest, words, given);
  }

  /** The end of a prescribed line is no white space. */
  lemma PrescribedEnds(number: string, reason: string, line: string, before: string)
    requires IsNumber(number) && Strip(reason) == reason
    requires line == before + (number + (if reason == "" then "" else " because " + reason))
    ensures line != "" && !IsSpace(line[|line| - 1])
  {
    if reason == "" {
      assert line[|line| - 1] == number[|number| - 1];
    } else {
      StripEnds(reason);
      assert line[|line| - 1] == reason[|reason| - 1];
    }
  }

  lemma HeadedLine(line: string, ordered: string)
    requires line == "PRODUCT REORDER: " + ordered && ordered != ""
    requires !IsSpace(ordered[0]) && !IsSpace(ordered[|ordered| - 1])
    ensures Strip(line) == line && |line| >= 16 && Strip(line[16..]) == ordered && IsReorder(line)
  {
    assert line[|line| - 1] == ordered[|ordered| - 1] && line[0] == 'P';
    NothingToStrip(line);
    assert line[..16] == "PRODUCT REORDER:" && line[16..] == " " + ordered;
    HeadingWritten(line);
    NothingToStrip(ordered);
    NothingBefore(ordered);
  }

  lemma PrescribedTrimmed(product: Product, number: string, reason: string)
    requires IsNumber(number) && Strip(reason) == reason
    ensures
      var line := Prescribed(product, number, reason);
      Strip(line) == line && |line| >= 16 && Strip(line[16..]) == OrderedText(product, number, reason) && IsReorder(line)
  {
    var ordered := OrderedText(product, number, reason);
    var said := number + (if reason == "" then "" else " because " + reason);
    assert ordered == (product.Key() + " qty=") + said;
    PrescribedEnds(number, reason, ordered, product.Key() + " qty=");
    assert ordered[0] == product.Key()[0];
    HeadedLine(Prescribed(product, number, reason), ordered);
  }

  lemma HeadingWritten(line: string)
    requires |line| >= 16 && line[..16] == "PRODUCT REORDER:"
    ensures WrittenAt(line, "product reorder:", 0)
  {
    var heading, phrase := "PRODUCT REORDER:", "product reorder:";
    assert |phrase| == 16 && Lower(heading) == phrase;
    LowerSame(phrase);
    LowerIff(heading, phrase);
    assert forall k :: 0 <= k < 16 ==> line[0 + k] == line[..16][k];
  }

  lemma AsksPrescribed(product: Product, number: string, quantity: real, reason: string, given: string)
    requires IsNumber(number) && Decimal(number) == Some(quantity) && Strip(reason) == reason
    requires given == if reason == "" then "recommended by the Recommendation Agent" else reason
    ensures IsReorder(Prescribed(product, number, reason))
    ensures Asks(Prescribed(product, number, reason), product, number, quantity, given)
  {
    PrescribedTrimmed(product, number, reason);
    PrescribedParts(product, number, reason, given);
  }

  /** The round trip: a line in the prescribed format asks for exactly the number that was written, of that product,
      for that reason. */
  lemma PrescribedAsks(product: Product, n: nat, reason: string, given: string)
    requires Strip(reason) == reason
    requires given == if reason == "" then "recommended by the Recommendation Agent" else reason
    ensures
      var line := Prescribed(product, Numeral(n), reason);
      IsReorder(line) && Asks(line, product, Numeral(n), n as real, given)
  {
    WrittenWhole(n);
    AsksPrescribed(product, Numeral(n), n as real, reason, given);
  }

  /** The same with `k` decimals: `n` and `m` parts of ten to the `k`. */
  lemma PrescribedAsksParts(product: Product, n: nat, m: nat, k: nat, scale: nat, number: string, reason: string,
                            given: string)
    requires IsScale(scale, k) && m < scale && number == Numeral(n) + (['.'] + Places(m, k)) && Strip(reason) == reason
    requires given == if reason == "" then "recommended by the Recommendation Agent" else reason
    ensures
      var line := Prescribed(product, number, reason);
      IsReorder(line) && Asks(line, product, number, n as real + m as real / scale as real, given)
  {
    WrittenParts(n, m, k, scale);
    AsksPrescribed(product, number, n as real + m as real / scale as real, reason, given);
  }
}
