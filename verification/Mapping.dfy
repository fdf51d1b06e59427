/** Recommendation actions mapped to the closed vocabulary of external CMMS operations. */
module Mapping {
  import opened Wrappers
  import opened Text

  /** One element of the stored recommendation: an object, or any other value seen as text. */
  datatype RecommendedAction =
    | Entry(action: string, priority: Option<int>, declared: string, productKey: string, quantity: Option<real>)
    | Bare(text: string)

  datatype Kind = WorkOrder | ProductReorder | Manual

  datatype CmmsOperation = CmmsOperation(
    kind: Kind, priority: int, sourceAction: string, description: string, productKey: string, quantity: real)

  datatype Unmapped = MissingProduct(item: RecommendedAction) | NotExecutable(item: RecommendedAction)

  datatype MappingResult = MappingResult(operations: seq<CmmsOperation>, unmapped: seq<Unmapped>)

  /** The keywords that make an untyped action a work order. */
  datatype WorkOrderHint =
    | HintInspect | HintRepair | HintReplace | HintService | HintCheck
    | HintVerify | HintSchedule | HintBackwash | HintClean | HintTest
    | HintCalibrate | HintMaintain | HintMaintenance {
    function Word(): string {
      match this
      case HintInspect => "inspect"
      case HintRepair => "repair"
      case HintReplace => "replace"
      case HintService => "service"
      case HintCheck => "check"
      case HintVerify => "verify"
      case HintSchedule => "schedule"
      case HintBackwash => "backwash"
      case HintClean => "clean"
      case HintTest => "test"
      case HintCalibrate => "calibrate"
      case HintMaintain => "maintain"
      case HintMaintenance => "maintenance"
    }
  }

  /** The keywords that make it a reorder, when none of the others occurs. */
  datatype ReorderHint =
    | HintReorder | HintOrder | HintRestock | HintChemical | HintProduct {
    function Word(): string {
      match this
      case HintReorder => "reorder"
      case HintOrder => "order"
      case HintRestock => "restock"
      case HintChemical => "chemical"
      case HintProduct => "product"
    }
  }

  function Wording(item: RecommendedAction): string {
    if item.Bare? then item.text else item.action
  }

  function KnownType(declared: string): (kind: Option<Kind>)
    ensures declared == "" ==> kind == None
  {
    if declared == "work_order" then Some(WorkOrder)
    else if declared == "product_reorder" then Some(ProductReorder)
    else if declared == "manual" then Some(Manual)
    else None
  }

  function Declared(item: RecommendedAction): Option<Kind> {
    if item.Bare? then None else KnownType(Lower(Strip(item.declared)))
  }

  function ByHints(text: string): Kind {
    if exists h: WorkOrderHint :: Contains(text, h.Word()) then WorkOrder
    else if exists h: ReorderHint :: Contains(text, h.Word()) then ProductReorder
    else Manual
  }

  function Classify(item: RecommendedAction): Kind {
    if Declared(item).Some? then Declared(item).value else ByHints(Lower(Wording(item)))
  }

  /** `int(value or 1)`: an absent or zero priority counts as 1. */
  function PriorityOf(item: RecommendedAction): int {
    if item.Entry? && item.priority.Some? && item.priority.value != 0 then item.priority.value else 1
  }

  /** An element that is not an object becomes an entry numbered after the operations so far. */
  function AsEntry(item: RecommendedAction, operationsSoFar: nat): (entry: RecommendedAction)
    ensures entry.Entry? && entry.action == Wording(item)
    ensures item.Entry? ==> entry == item
  {
    if item.Entry? then item else Entry(item.text, Some(operationsSoFar + 1), "", "", None)
  }

  lemma AsEntryClassified(item: RecommendedAction, operationsSoFar: nat)
    ensures Classify(AsEntry(item, operationsSoFar)) == Classify(item)
  {
    var entry := AsEntry(item, operationsSoFar);
    if item.Bare? {
      assert Strip(entry.declared) == "";
      assert Declared(entry) == None;
      assert Lower(Wording(entry)) == Lower(Wording(item));
    }
  }

  function ProductKey(entry: RecommendedAction): string
    requires entry.Entry?
  {
    Strip(entry.productKey)
  }

  /** Where one entry of the given kind goes when it is mapped after `soFar`. */
  function PlaceAs(soFar: MappingResult, entry: RecommendedAction, kind: Kind): MappingResult
    requires entry.Entry?
  {
    match kind
    case WorkOrder =>
      soFar.(operations := soFar.operations
        + [CmmsOperation(WorkOrder, PriorityOf(entry), entry.action, Strip(entry.action), "", 0.0)])
    case ProductReorder =>
      if ProductKey(entry) == "" then soFar.(unmapped := soFar.unmapped + [MissingProduct(entry)])
      else soFar.(operations := soFar.operations
        + [CmmsOperation(ProductReorder, PriorityOf(entry), entry.action, "", ProductKey(entry),
             if entry.quantity.Some? then entry.quantity.value else 0.0)])
    case Manual =>
      soFar.(unmapped := soFar.unmapped + [NotExecutable(entry)])
  }

  /** An element with its classification. */
  datatype Typed = Typed(item: RecommendedAction, kind: Kind)

  function TypeAll(actions: seq<RecommendedAction>): seq<Typed> {
    if actions == [] then []
    else
      var last := actions[|actions| - 1];
      TypeAll(actions[..|actions| - 1]) + [Typed(last, Classify(last))]
  }

  function PlaceTyped(soFar: MappingResult, t: Typed): MappingResult {
    PlaceAs(soFar, AsEntry(t.item, |soFar.operations|), t.kind)
  }

  function MapTyped(items: seq<Typed>): MappingResult {
    if items == [] then MappingResult([], [])
    else PlaceTyped(MapTyped(items[..|items| - 1]), items[|items| - 1])
  }

  function Mapped(actions: seq<RecommendedAction>): MappingResult { MapTyped(TypeAll(actions)) }

  lemma MapTypedNext(items: seq<Typed>, t: Typed)
    ensures MapTyped(items + [t]) == PlaceTyped(MapTyped(items), t)
  {
    assert (items + [t])[..|items|] == items;
  }

  lemma MappedNext(actions: seq<RecommendedAction>, item: RecommendedAction)
    ensures Mapped(actions + [item]) == PlaceTyped(Mapped(actions), Typed(item, Classify(item)))
  {
    assert (actions + [item])[..|actions|] == actions;
    MapTypedNext(TypeAll(actions), Typed(item, Classify(item)));
  }

  /** One round of the loop over the actions. */
  lemma NextRound(actions: seq<RecommendedAction>, i: nat)
    requires i < |actions|
    ensures
      var soFar := Mapped(actions[..i]);
      var entry := AsEntry(actions[i], |soFar.operations|);
      Mapped(actions[..i + 1]) == PlaceAs(soFar, entry, Classify(entry))
  {
    assert actions[..i + 1] == actions[..i] + [actions[i]];
    MappedNext(actions[..i], actions[i]);
    AsEntryClassified(actions[i], |Mapped(actions[..i]).operations|);
  }

  method MapRecommendationToCmms(actions: seq<RecommendedAction>) returns (result: MappingResult)
    ensures result == Mapped(actions)
  {
    var operations: seq<CmmsOperation> := [];
    var unmapped: seq<Unmapped> := [];
    for i := 0 to |actions|
      invariant MappingResult(operations, unmapped) == Mapped(actions[..i])
    {
      NextRound(actions, i);
      var action := actions[i];
      if action.Bare? {
        action := Entry(action.text, Some(|operations| + 1), "", "", None);
      }
      var kind := Classify(action);
      if kind == WorkOrder {
        operations := operations
          + [CmmsOperation(WorkOrder, PriorityOf(action), action.action, Strip(action.action), "", 0.0)];
      } else if kind == ProductReorder {
        var productKey := Strip(action.productKey);
        if productKey == "" {
          unmapped := unmapped + [MissingProduct(action)];
          continue;
        }
        var quantity := if action.quantity.Some? then action.quantity.value else 0.0;
        operations := operations
          + [CmmsOperation(ProductReorder, PriorityOf(action), action.action, "", productKey, quantity)];
      } else {
        unmapped := unmapped + [NotExecutable(action)];
      }
    }
    assert actions[..|actions|] == actions;
    result := MappingResult(operations, unmapped);
  }

  /** Only a work order, or a reorder that names its product, may leave the process. */
  predicate Executable(item: RecommendedAction) {
    || Classify(item) == WorkOrder
    || (Classify(item) == ProductReorder && item.Entry? && ProductKey(item) != "")
  }

  ghost predicate Increasing(s: seq<nat>) {
    forall i, j :: 0 <= i < j < |s| ==> s[i] < s[j]
  }

  /** `out` lists, in order, exactly those elements of `from` whose flag is `wanted`; `at` says where each stood. */
  ghost predicate Picks<T>(from: seq<T>, flags: seq<bool>, wanted: bool, at: seq<nat>, out: seq<T>) {
    && |from| == |flags| && |at| == |out| && Increasing(at)
    && (forall k :: 0 <= k < |at| ==> at[k] < |from| && flags[at[k]] == wanted && out[k] == from[at[k]])
    && (forall i :: 0 <= i < |flags| && flags[i] == wanted ==> i in at)
  }

  lemma PicksExtend<T>(from: seq<T>, flags: seq<bool>, wanted: bool, at: seq<nat>, out: seq<T>, x: T, flag: bool)
    requires Picks(from, flags, wanted, at, out)
    ensures
      if flag == wanted then Picks(from + [x], flags + [flag], wanted, at + [|from|], out + [x])
      else Picks(from + [x], flags + [flag], wanted, at, out)
  {
    if flag == wanted {
      var longer := at + [|from|];
      forall i | 0 <= i < |from| + 1 && (flags + [flag])[i] == wanted ensures i in longer {
        if i < |from| { assert i in at; } else { assert longer[|at|] == i; }
      }
    }
  }

  ghost function Flags(actions: seq<RecommendedAction>): seq<bool> {
    if actions == [] then [] else Flags(actions[..|actions| - 1]) + [Executable(actions[|actions| - 1])]
  }

  ghost function Wordings(actions: seq<RecommendedAction>): seq<string> {
    if actions == [] then [] else Wordings(actions[..|actions| - 1]) + [Wording(actions[|actions| - 1])]
  }

  ghost function OperationWordings(operations: seq<CmmsOperation>): seq<string> {
    if operations == [] then []
    else OperationWordings(operations[..|operations| - 1]) + [operations[|operations| - 1].sourceAction]
  }

  ghost function UnmappedWordings(unmapped: seq<Unmapped>): seq<string> {
    if unmapped == [] then []
    else UnmappedWordings(unmapped[..|unmapped| - 1]) + [Wording(unmapped[|unmapped| - 1].item)]
  }

  predicate ExecutableAs(entry: RecommendedAction, kind: Kind)
    requires entry.Entry?
  {
    kind == WorkOrder || (kind == ProductReorder && ProductKey(entry) != "")
  }

  lemma PlaceAsExtendsOne(soFar: MappingResult, entry: RecommendedAction, kind: Kind)
    requires entry.Entry?
    ensures
      var after := PlaceAs(soFar, entry, kind);
      if ExecutableAs(entry, kind) then
        && after.unmapped == soFar.unmapped
        && OperationWordings(after.operations) == OperationWordings(soFar.operations) + [entry.action]
      else
        && after.operations == soFar.operations
        && UnmappedWordings(after.unmapped) == UnmappedWordings(soFar.unmapped) + [entry.action]
  {
    var after := PlaceAs(soFar, entry, kind);
    if ExecutableAs(entry, kind) {
      assert after.operations[..|after.operations| - 1] == soFar.operations;
    } else {
      assert after.unmapped[..|after.unmapped| - 1] == soFar.unmapped;
    }
  }

  /** Being made an entry does not change whether an element can be executed. */
  lemma AsEntryExecutable(item: RecommendedAction, operationsSoFar: nat)
    ensures Executable(item) <==> ExecutableAs(AsEntry(item, operationsSoFar), Classify(item))
  {
    NothingToStrip("");
  }

  /** Mapping one more action extends exactly one of the two parts, by that action. */
  lemma PlaceExtendsOne(soFar: MappingResult, item: RecommendedAction)
    ensures
      var after := PlaceTyped(soFar, Typed(item, Classify(item)));
      if Executable(item) then
        && after.unmapped == soFar.unmapped
        && OperationWordings(after.operations) == OperationWordings(soFar.operations) + [Wording(item)]
      else
        && after.operations == soFar.operations
        && UnmappedWordings(after.unmapped) == UnmappedWordings(soFar.unmapped) + [Wording(item)]
  {
    AsEntryExecutable(item, |soFar.operations|);
    PlaceAsExtendsOne(soFar, AsEntry(item, |soFar.operations|), Classify(item));
  }

  /** Operations and unmapped items split the actions in two, by executability, neither part reordered. */
  lemma {:induction false} MappingPartitions(actions: seq<RecommendedAction>)
      returns (opAt: seq<nat>, unAt: seq<nat>)
    ensures Picks(Wordings(actions), Flags(actions), true, opAt, OperationWordings(Mapped(actions).operations))
    ensures Picks(Wordings(actions), Flags(actions), false, unAt, UnmappedWordings(Mapped(actions).unmapped))
  {
    opAt, unAt := [], [];
    if actions != [] {
      var front, last := actions[..|actions| - 1], actions[|actions| - 1];
      opAt, unAt := MappingPartitions(front);
      assert actions == front + [last];
      MappedNext(front, last);
      PlaceExtendsOne(Mapped(front), last);
      var flag, word := Executable(last), Wording(last);
      PicksExtend(Wordings(front), Flags(front), true, opAt, OperationWordings(Mapped(front).operations), word, flag);
      PicksExtend(Wordings(front), Flags(front), false, unAt, UnmappedWordings(Mapped(front).unmapped), word, flag);
      if flag { opAt := opAt + [|Wordings(front)|]; } else { unAt := unAt + [|Wordings(front)|]; }
    }
  }
}
