/** Each external operation in terms of the stored action that it comes from. */
module MappingText {
  import opened Wrappers
  import opened Text
  import opened Mapping

  // ---------------------------------------------------------------- classification

  /** The declared type, trimmed and in any case. */
  ghost predicate Declares(item: RecommendedAction, name: string) {
    item.Entry? && SameIgnoringCase(Strip(item.declared), name)
  }

  ghost predicate Undeclared(item: RecommendedAction) {
    !Declares(item, "work_order") && !Declares(item, "product_reorder") && !Declares(item, "manual")
  }

  lemma DeclaresIff(item: RecommendedAction, name: string)
    requires forall i :: 0 <= i < |name| ==> !('A' <= name[i] <= 'Z')
    ensures item.Entry? ==> (Lower(Strip(item.declared)) == name <==> Declares(item, name))
  {
    LowerSame(name);
    if item.Entry? { LowerIff(Strip(item.declared), name); }
  }

  lemma DeclaredIs(item: RecommendedAction)
    ensures Declared(item) == Some(WorkOrder) <==> Declares(item, "work_order")
    ensures Declared(item) == Some(ProductReorder) <==> Declares(item, "product_reorder")
    ensures Declared(item) == Some(Manual) <==> Declares(item, "manual")
    ensures Declared(item) == None <==> Undeclared(item)
  {
    DeclaresIff(item, "work_order");
    DeclaresIff(item, "product_reorder");
    DeclaresIff(item, "manual");
    assert |"work_order"| == 10 && |"product_reorder"| == 15 && |"manual"| == 6;
  }

  ghost predicate HintsWork(wording: string) { exists h: WorkOrderHint :: Mentions(wording, h.Word()) }

  ghost predicate HintsReorder(wording: string) { exists h: ReorderHint :: Mentions(wording, h.Word()) }

  lemma WordMentioned(wording: string, word: string)
    requires forall i :: 0 <= i < |word| ==> !('A' <= word[i] <= 'Z')
    ensures Contains(Lower(wording), word) <==> Mentions(wording, word)
  {
    LowerSame(word);
    MentionsIff(wording, word);
  }

  lemma HintsAre(wording: string)
    ensures ByHints(Lower(wording))
      == if HintsWork(wording) then WorkOrder else if HintsReorder(wording) then ProductReorder else Manual
  {
    forall h: WorkOrderHint ensures Contains(Lower(wording), h.Word()) <==> Mentions(wording, h.Word()) {
      WordMentioned(wording, h.Word());
    }
    forall h: ReorderHint ensures Contains(Lower(wording), h.Word()) <==> Mentions(wording, h.Word()) {
      WordMentioned(wording, h.Word());
    }
    if HintsWork(wording) {
      var h: WorkOrderHint :| Mentions(wording, h.Word());
      assert Contains(Lower(wording), h.Word());
    }
    if HintsReorder(wording) {
      var h: ReorderHint :| Mentions(wording, h.Word());
      assert Contains(Lower(wording), h.Word());
    }
  }

  /** A declared type decides; without a known one, the words of the action do, those of a work order first. */
  lemma ClassifyIs(item: RecommendedAction)
    ensures
      var work := Undeclared(item) && HintsWork(Wording(item));
      Classify(item) == WorkOrder <==> Declares(item, "work_order") || work
    ensures
      var reorder := Undeclared(item) && !HintsWork(Wording(item)) && HintsReorder(Wording(item));
      Classify(item) == ProductReorder <==> Declares(item, "product_reorder") || reorder
  {
    DeclaredIs(item);
    HintsAre(Wording(item));
  }

  // ---------------------------------------------------------------- operations

  /** The operation has the wording and the priority of the action, or is numbered by its place when the action is
      a bare text; a work order is described by the wording, and a reorder has product and quantity as stored. */
  ghost predicate ComesFrom(op: CmmsOperation, item: RecommendedAction, place: nat) {
    && op.kind == Classify(item) && op.sourceAction == (if item.Bare? then item.text else item.action)
    && (item.Bare? ==> op.priority == place + 1)
    && (item.Entry? && item.priority.Some? && item.priority.value != 0 ==> op.priority == item.priority.value)
    && (item.Entry? && (item.priority == None || item.priority == Some(0)) ==> op.priority == 1)
    && match op.kind
       case WorkOrder => op.description == Strip(op.sourceAction) && op.productKey == "" && op.quantity == 0.0
       case ProductReorder =>
         && item.Entry? && op.description == "" && op.productKey == Strip(item.productKey) != ""
         && (item.quantity.Some? ==> op.quantity == item.quantity.value) && (item.quantity == None ==> op.quantity == 0.0)
       case Manual => false
  }

  /** Why the action has no operation: a reorder without a product, or no executable type. */
  ghost predicate LeftOver(u: Unmapped, item: RecommendedAction) {
    && Wording(u.item) == Wording(item) && (item.Entry? ==> u.item == item)
    && if u.MissingProduct? then Classify(item) == ProductReorder && (item.Entry? ==> Strip(item.productKey) == "")
       else Classify(item) == Manual
  }

  lemma PlacedFrom(soFar: MappingResult, item: RecommendedAction)
    ensures
      var after := PlaceTyped(soFar, Typed(item, Classify(item)));
      if Executable(item) then
        && after.unmapped == soFar.unmapped && |after.operations| == |soFar.operations| + 1
        && soFar.operations <= after.operations
        && ComesFrom(after.operations[|soFar.operations|], item, |soFar.operations|)
      else
        && after.operations == soFar.operations && |after.unmapped| == |soFar.unmapped| + 1
        && soFar.unmapped <= after.unmapped && LeftOver(after.unmapped[|soFar.unmapped|], item)
  {
    NothingToStrip("");
  }

  /** `at` are the positions of the wanted flags, in order, and each element of `out` fits the one that stands there. */
  ghost predicate Fits<A(!new), B(!new)>(from: seq<A>, flags: seq<bool>, wanted: bool, at: seq<nat>, out: seq<B>,
                                         fit: (B, A, nat) -> bool) {
    && |from| == |flags| && |at| == |out| && Increasing(at)
    && (forall k :: 0 <= k < |at| ==> at[k] < |from| && flags[at[k]] == wanted && fit(out[k], from[at[k]], k))
    && (forall i :: 0 <= i < |flags| && flags[i] == wanted ==> i in at)
  }

  lemma FitsMore<A(!new), B(!new)>(from: seq<A>, flags: seq<bool>, wanted: bool, at: seq<nat>, out: seq<B>,
                                   fit: (B, A, nat) -> bool, x: A, y: B)
    requires Fits(from, flags, wanted, at, out, fit) && fit(y, x, |out|)
    ensures Fits(from + [x], flags + [wanted], wanted, at + [|from|], out + [y], fit)
  {
    var more := at + [|from|];
    assert more[|at|] == |from| && forall i :: i in at ==> i in more;
  }

  lemma FitsSkip<A(!new), B(!new)>(from: seq<A>, flags: seq<bool>, wanted: bool, at: seq<nat>, out: seq<B>,
                                   fit: (B, A, nat) -> bool, x: A)
    requires Fits(from, flags, wanted, at, out, fit)
    ensures Fits(from + [x], flags + [!wanted], wanted, at, out, fit)
  {
  }

  ghost predicate AllFrom(actions: seq<RecommendedAction>, ops: seq<CmmsOperation>, at: seq<nat>) {
    Fits(actions, Flags(actions), true, at, ops, ComesFrom)
  }

  ghost predicate AllLeft(actions: seq<RecommendedAction>, unmapped: seq<Unmapped>, at: seq<nat>) {
    Fits(actions, Flags(actions), false, at, unmapped, (u, item, k) => LeftOver(u, item))
  }

  lemma FlagsMore(actions: seq<RecommendedAction>, item: RecommendedAction)
    ensures Flags(actions + [item]) == Flags(actions) + [Executable(item)]
  {
    assert (actions + [item])[..|actions|] == actions;
  }

  /** The flags say which actions can be executed. */
  lemma {:induction false} FlagsAre(actions: seq<RecommendedAction>)
    ensures |Flags(actions)| == |actions| && forall i :: 0 <= i < |actions| ==> Flags(actions)[i] == Executable(actions[i])
  {
    if actions != [] {
      var front, last := actions[..|actions| - 1], actions[|actions| - 1];
      FlagsAre(front);
      assert actions == front + [last];
      FlagsMore(front, last);
      forall i | 0 <= i < |front| ensures Flags(actions)[i] == Executable(actions[i]) {
        assert actions[i] == front[i] && Flags(actions)[i] == Flags(front)[i];
      }
    }
  }

  lemma PlacedNext(front: seq<RecommendedAction>, last: RecommendedAction, opAt: seq<nat>, unAt: seq<nat>)
    requires AllFrom(front, Mapped(front).operations, opAt) && AllLeft(front, Mapped(front).unmapped, unAt)
    ensures
      var after := Mapped(front + [last]);
      if Executable(last) then AllFrom(front + [last], after.operations, opAt + [|front|]) && AllLeft(front + [last], after.unmapped, unAt)
      else AllFrom(front + [last], after.operations, opAt) && AllLeft(front + [last], after.unmapped, unAt + [|front|])
  {
    MappedNext(front, last);
    FlagsMore(front, last);
    var before, after, flags := Mapped(front), Mapped(front + [last]), Flags(front);
    PlacedFrom(before, last);
    if Executable(last) {
      var op := after.operations[|before.operations|];
      assert after.operations == before.operations + [op];
      FitsMore(front, flags, true, opAt, before.operations, ComesFrom, last, op);
      FitsSkip(front, flags, false, unAt, before.unmapped, (u, item, k) => LeftOver(u, item), last);
    } else {
      var u := after.unmapped[|before.unmapped|];
      assert after.unmapped == before.unmapped + [u];
      FitsSkip(front, flags, true, opAt, before.operations, ComesFrom, last);
      FitsMore(front, flags, false, unAt, before.unmapped, (u, item, k) => LeftOver(u, item), last, u);
    }
  }

  /** Each executable action has exactly one operation, with its content, and each other action is left over with
      the reason; both in the order of the recommendation. */
  lemma {:induction false} OperationsComeFrom(actions: seq<RecommendedAction>) returns (opAt: seq<nat>, unAt: seq<nat>)
    ensures AllFrom(actions, Mapped(actions).operations, opAt) && AllLeft(actions, Mapped(actions).unmapped, unAt)
  {
    opAt, unAt := [], [];
    if actions != [] {
      var front, last := actions[..|actions| - 1], actions[|actions| - 1];
      opAt, unAt := OperationsComeFrom(front);
      assert actions == front + [last];
      PlacedNext(front, last, opAt, unAt);
      if Executable(last) { opAt := opAt + [|front|]; } else { unAt := unAt + [|front|]; }
    }
  }

  /** What may leave the process: a work order, or a stored reorder with a product key that is not blank. */
  lemma ExecutableIs(item: RecommendedAction)
    ensures
      var named := item.Entry? && exists i :: 0 <= i < |item.productKey| && !IsSpace(item.productKey[i]);
      Executable(item) <==> Classify(item) == WorkOrder || (Classify(item) == ProductReorder && named)
  {
    if item.Entry? { BlankIff(item.productKey); }
  }
}
