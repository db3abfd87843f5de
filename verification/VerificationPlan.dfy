/** What the plan made of an authored definition contains, told from the definition
    itself: which definitions are accepted, where each step and each nested assertion
    ends up, and what is known of every assertion's id. */
module VerificationPlan {
  import opened Common
  import opened JsonValue
  import opened VerificationSteps

  /** A step takes part unless its "enabled" is the value false. */
  ghost predicate TakesPart(step: Json) {
    step.Object? && !("enabled" in step.fields && step.fields["enabled"] == Bool(false))
  }

  /** The assertions written inside a step. */
  ghost function Inner(step: Json): seq<Json> {
    if step.Object? && "assertions" in step.fields && step.fields["assertions"].Array?
    then step.fields["assertions"].items else []
  }

  /** A step is of the kind its "kind" names, or its "type" where it has no "kind". */
  ghost predicate IsOfKind(fields: Fields, kind: string) {
    if "kind" in fields then fields["kind"] == String(kind)
    else "type" in fields && fields["type"] == String(kind)
  }

  ghost predicate AssertionFits(assertion: Json) {
    && assertion.Object? && "kind" in assertion.fields && assertion.fields["kind"].String?
    && TranslateAssertion(assertion.fields["kind"].text, assertion.fields).Ok?
  }

  ghost predicate StepFits(step: Json) {
    && step.Object?
    && (TakesPart(step) ==>
          && (exists kind :: IsOfKind(step.fields, kind) && TranslateStep(kind, step.fields).Ok?)
          && ("assertions" in step.fields ==> step.fields["assertions"].Array?)
          && (forall j | 0 <= j < |Inner(step)| :: AssertionFits(Inner(step)[j])))
  }

  /** The runner steps made of a step, and of several. */
  ghost function Weight(step: Json): nat {
    if TakesPart(step) then 1 + |Inner(step)| else 0
  }

  ghost function Total(steps: seq<Json>): nat {
    if steps == [] then 0 else Total(steps[..|steps| - 1]) + Weight(steps[|steps| - 1])
  }

  // Acceptance.

  lemma AssertionFitsIff(assertion: Json)
    ensures GoodAssertion(assertion) <==> AssertionFits(assertion)
  {
    if assertion.Object? && GetText(assertion.fields, "kind").Some? {
      AssertionAccepted(assertion.fields["kind"].text, assertion.fields);
    }
  }

  lemma KindIff(fields: Fields, kind: string)
    ensures KindOf(fields) == Some(kind) <==> IsOfKind(fields, kind)
  {
  }

  lemma StepFitsIff(step: Json)
    ensures GoodStep(step) <==> StepFits(step)
  {
    if TakesPart(step) {
      KindFitsIff(step.fields);
      NestedFitIff(step);
      assert Enabled(step.fields);
    }
  }

  lemma KindFitsIff(fields: Fields)
    ensures KindOf(fields).Some? && KnownStep(KindOf(fields).value, fields) <==>
      exists kind :: IsOfKind(fields, kind) && TranslateStep(kind, fields).Ok?
  {
    forall kind ensures KindOf(fields) == Some(kind) <==> IsOfKind(fields, kind) { KindIff(fields, kind); }
    forall kind ensures TranslateStep(kind, fields).Ok? <==> KnownStep(kind, fields) { StepAccepted(kind, fields); }
    if KindOf(fields).Some? { assert IsOfKind(fields, KindOf(fields).value); }
  }

  lemma NestedFitIff(step: Json)
    requires step.Object?
    ensures GoodNested(step.fields) <==>
      && ("assertions" in step.fields ==> step.fields["assertions"].Array?)
      && (forall j | 0 <= j < |Inner(step)| :: AssertionFits(Inner(step)[j]))
  {
    assert Inner(step) == NestedOf(step.fields);
    forall j | 0 <= j < |Inner(step)| ensures GoodAssertion(Inner(step)[j]) <==> AssertionFits(Inner(step)[j]) {
      AssertionFitsIff(Inner(step)[j]);
    }
  }

  lemma {:induction false} FlattenedTotal(steps: seq<Json>)
    requires forall i | 0 <= i < |steps| :: GoodStep(steps[i])
    ensures |Flattened(steps)| == Total(steps)
  {
    if steps != [] {
      assert GoodStep(steps[|steps| - 1]);
      FlattenedTotal(steps[..|steps| - 1]);
      ItemsWeight(steps[|steps| - 1]);
    }
  }

  lemma {:induction false} NestedAt(assertions: seq<Json>)
    requires forall i | 0 <= i < |assertions| :: GoodAssertion(assertions[i])
    ensures |NestedItems(assertions)| == |assertions|
    ensures forall i | 0 <= i < |assertions| ::
              NestedItems(assertions)[i] == Item(assertions[i].fields["kind"].text, assertions[i].fields, true)
  {
    if assertions != [] { NestedAt(assertions[..|assertions| - 1]); }
  }

  lemma ItemsWeight(step: Json)
    requires GoodStep(step)
    ensures |ItemsOf(step)| == Weight(step)
  {
    if TakesPart(step) {
      NestedGood(step);
      NestedAt(Inner(step));
    }
  }

  lemma NestedGood(step: Json)
    requires GoodStep(step) && TakesPart(step)
    ensures GoodFields(step.fields) && Inner(step) == NestedOf(step.fields)
    ensures forall i | 0 <= i < |Inner(step)| :: GoodAssertion(Inner(step)[i])
  {
    assert Enabled(step.fields);
  }

  /** A definition is accepted exactly if it is a list of objects, each that takes part is
      of a kind that can be translated, as are its assertions, and 512 runner steps do. */
  lemma AcceptedIff(steps: Json)
    ensures Acceptable(steps) <==>
      && steps.Array?
      && (forall i | 0 <= i < |steps.items| :: StepFits(steps.items[i]))
      && Total(steps.items) <= 512
  {
    if steps.Array? {
      forall i | 0 <= i < |steps.items| { StepFitsIff(steps.items[i]); }
      if forall i | 0 <= i < |steps.items| :: GoodStep(steps.items[i]) { FlattenedTotal(steps.items); }
    }
  }

  // Places.

  /** What is at place `j` of step `i`: the step itself at 0, and then its assertions. */
  ghost predicate IsAt(steps: seq<Json>, i: int, j: int, kind: string, fields: Fields) {
    && 0 <= i < |steps| && TakesPart(steps[i]) && 0 <= j <= |Inner(steps[i])|
    && (if j == 0 then steps[i].fields == fields && IsOfKind(fields, kind)
        else Inner(steps[i])[j - 1] == Object(fields) && "kind" in fields && fields["kind"] == String(kind))
  }

  ghost predicate IsPlace(steps: seq<Json>, i: int, j: int) {
    0 <= i < |steps| && TakesPart(steps[i]) && 0 <= j <= |Inner(steps[i])|
  }

  /** The weight of all that comes before place `j` of step `i`. */
  ghost function Place(steps: seq<Json>, i: int, j: int): int
    requires 0 <= i <= |steps|
  {
    Total(steps[..i]) + j
  }

  ghost predicate ItemIsAt(steps: seq<Json>, items: seq<Item>, i: int, j: int)
    requires 0 <= i <= |steps|
  {
    && 0 <= Place(steps, i, j) < |items|
    && IsAt(steps, i, j, items[Place(steps, i, j)].kind, items[Place(steps, i, j)].fields)
    && (items[Place(steps, i, j)].nested <==> j > 0)
  }

  /** There is an item at every place, and at no other. */
  ghost predicate Placed(steps: seq<Json>, items: seq<Item>) {
    && |items| == Total(steps)
    && forall i, j | IsPlace(steps, i, j) :: ItemIsAt(steps, items, i, j)
  }

  ghost predicate PlacedAlone(step: Json, items: seq<Item>) {
    && |items| == Weight(step)
    && forall j | 0 <= j < |items| ::
         IsAt([step], 0, j, items[j].kind, items[j].fields) && (items[j].nested <==> j > 0)
  }

  lemma ItemsPlaced(step: Json)
    requires GoodStep(step)
    ensures PlacedAlone(step, ItemsOf(step))
  {
    if TakesPart(step) {
      NestedGood(step);
      NestedAt(Inner(step));
      KindIff(step.fields, KindOf(step.fields).value);
    }
  }

  lemma PlacedGrows(steps: seq<Json>, items: seq<Item>, step: Json, more: seq<Item>)
    requires Placed(steps, items) && PlacedAlone(step, more)
    ensures Placed(steps + [step], items + more)
  {
    var longer, all := steps + [step], items + more;
    assert longer[..|longer| - 1] == steps;
    forall i, j | IsPlace(longer, i, j) ensures ItemIsAt(longer, all, i, j) {
      assert longer[..i] == steps[..i];
      if i < |steps| {
        assert IsPlace(steps, i, j) && ItemIsAt(steps, items, i, j);
      } else {
        assert steps[..i] == steps;
        assert all[|items| + j] == more[j];
        assert IsAt([step], 0, j, more[j].kind, more[j].fields);
      }
    }
  }

  lemma {:induction false} FlattenedPlaced(steps: seq<Json>)
    requires forall k | 0 <= k < |steps| :: GoodStep(steps[k])
    ensures Placed(steps, Flattened(steps))
  {
    if steps != [] {
      var before, last := steps[..|steps| - 1], steps[|steps| - 1];
      assert GoodStep(last);
      FlattenedPlaced(before);
      ItemsPlaced(last);
      PlacedGrows(before, Flattened(before), last, ItemsOf(last));
      assert before + [last] == steps;
    }
  }

  lemma {:induction false} EveryItemIsAt(steps: seq<Json>, place: nat) returns (i: nat, j: nat)
    requires place < Total(steps)
    ensures IsPlace(steps, i, j) && place == Place(steps, i, j)
  {
    var before := steps[..|steps| - 1];
    if place < Total(before) {
      i, j := EveryItemIsAt(before, place);
      assert before[..i] == steps[..i];
    } else {
      i, j := |steps| - 1, place - Total(before);
    }
  }

  lemma {:induction false} LaterIsFurther(steps: seq<Json>, i: nat, k: nat)
    requires i < k <= |steps|
    ensures Total(steps[..i]) + Weight(steps[i]) <= Total(steps[..k])
  {
    assert steps[..k][..k - 1] == steps[..k - 1];
    if i < k - 1 { LaterIsFurther(steps, i, k - 1); }
  }

  ghost function Translation(kind: string, fields: Fields, nested: bool): Result<Fields, Message> {
    if nested then TranslateAssertion(kind, fields) else TranslateStep(kind, fields)
  }

  /** The plan has the translation of every step that takes part and of its assertions,
      at the place given by the weight of all steps before, and nothing else. */
  lemma PlanHasPlaces(steps: Json, plan: Plan, i: nat, j: nat, kind: string, fields: Fields)
    requires Acceptable(steps) && Carries(Flattened(steps.items), plan)
    ensures |plan.translated| == Total(steps.items)
    ensures IsAt(steps.items, i, j, kind, fields) ==>
      && Total(steps.items[..i]) + j < |plan.translated|
      && Translation(kind, fields, j > 0).Ok?
      && plan.translated[Total(steps.items[..i]) + j] == Object(Translation(kind, fields, j > 0).value)
  {
    FlattenedPlaced(steps.items);
    if IsAt(steps.items, i, j, kind, fields) {
      TranslatedAt(steps.items, Flattened(steps.items), plan.translated, i, j, kind, fields);
    }
  }

  lemma TranslatedAt(steps: seq<Json>, items: seq<Item>, output: seq<Json>, i: nat, j: nat,
                     kind: string, fields: Fields)
    requires Placed(steps, items) && Translates(items, output) && IsAt(steps, i, j, kind, fields)
    ensures 0 <= Place(steps, i, j) < |output| && Translation(kind, fields, j > 0).Ok?
    ensures output[Place(steps, i, j)] == Object(Translation(kind, fields, j > 0).value)
  {
    assert IsPlace(steps, i, j) && ItemIsAt(steps, items, i, j);
    var item := items[Place(steps, i, j)];
    OneItemIsAt(steps, i, j, kind, fields, item.kind, item.fields);
    assert Translated(item).Ok?;
  }

  lemma OneItemIsAt(steps: seq<Json>, i: int, j: int, kind: string, fields: Fields, kind': string, fields': Fields)
    requires IsAt(steps, i, j, kind, fields) && IsAt(steps, i, j, kind', fields')
    ensures kind == kind' && fields == fields'
  {
  }

  // Requirements.

  /** Place `j` of step `i` is an assertion of this id, required or not. */
  ghost predicate Demands(steps: seq<Json>, i: int, j: int, id: string, required: bool) {
    exists kind, fields :: (
      && IsAt(steps, i, j, kind, fields) && (j > 0 || "assert." <= kind)
      && "id" in fields && fields["id"] == String(id)
      && (required <==> !("required" in fields && fields["required"] == Bool(false))))
  }

  lemma DemandsIff(steps: seq<Json>, items: seq<Item>, i: int, j: int, id: string, required: bool)
    requires Placed(steps, items) && IsPlace(steps, i, j)
    ensures 0 <= Place(steps, i, j) < |items|
    ensures Demands(steps, i, j, id, required) <==>
      && RecordsId(items[Place(steps, i, j)], id)
      && SaysRequired(items[Place(steps, i, j)].fields) == required
  {
    assert ItemIsAt(steps, items, i, j);
    var item := items[Place(steps, i, j)];
    forall kind, fields | IsAt(steps, i, j, kind, fields) ensures kind == item.kind && fields == item.fields {
      OneItemIsAt(steps, i, j, kind, fields, item.kind, item.fields);
    }
  }

  ghost predicate Before(i: int, j: int, k: int, l: int) { i < k || (i == k && j < l) }

  /** No assertion after place `j` of step `i` is of this id. */
  ghost predicate NoneAfter(steps: seq<Json>, i: int, j: int, id: string) {
    forall k, l, required | Before(i, j, k, l) :: !Demands(steps, k, l, id, required)
  }

  lemma BeforeIff(steps: seq<Json>, i: int, j: int, k: int, l: int)
    requires IsPlace(steps, i, j) && IsPlace(steps, k, l)
    ensures Before(i, j, k, l) <==> Place(steps, i, j) < Place(steps, k, l)
  {
    if i < k { LaterIsFurther(steps, i, k); }
    if k < i { LaterIsFurther(steps, k, i); }
  }

  ghost predicate NoneLater(items: seq<Item>, place: int, id: string) {
    forall p | place < p < |items| :: 0 <= p && !RecordsId(items[p], id)
  }

  lemma NoneAfterIff(steps: seq<Json>, items: seq<Item>, i: int, j: int, id: string)
    requires Placed(steps, items) && IsPlace(steps, i, j)
    ensures NoneAfter(steps, i, j, id) <==> NoneLater(items, Place(steps, i, j), id)
  {
    if NoneAfter(steps, i, j, id) {
      forall p | Place(steps, i, j) < p < |items| ensures 0 <= p && !RecordsId(items[p], id) {
        var k, l := EveryItemIsAt(steps, p);
        BeforeIff(steps, i, j, k, l);
        DemandsIff(steps, items, k, l, id, SaysRequired(items[p].fields));
      }
    }
    if NoneLater(items, Place(steps, i, j), id) {
      forall k, l, required | Before(i, j, k, l) ensures !Demands(steps, k, l, id, required) {
        if Demands(steps, k, l, id, required) {
          assert IsPlace(steps, k, l);
          BeforeIff(steps, i, j, k, l);
          DemandsIff(steps, items, k, l, id, required);
        }
      }
    }
  }

  /** An id is required, or is not, exactly if the last assertion of that id in the
      definition says so; an id of no assertion is not known. */
  lemma RequirementIff(steps: Json, plan: Plan, id: string, required: bool)
    requires Acceptable(steps) && Carries(Flattened(steps.items), plan)
    ensures id in plan.requirements && plan.requirements[id] == required <==>
      exists i, j :: Demands(steps.items, i, j, id, required) && NoneAfter(steps.items, i, j, id)
  {
    FlattenedPlaced(steps.items);
    LastDemandIff(steps.items, Flattened(steps.items), plan.requirements, id, required);
  }

  lemma LastDemandIff(steps: seq<Json>, items: seq<Item>, requirements: map<string, bool>, id: string, required: bool)
    requires Placed(steps, items) && Knows(items, requirements)
    ensures id in requirements && requirements[id] == required <==>
      exists i, j :: Demands(steps, i, j, id, required) && NoneAfter(steps, i, j, id)
  {
    assert KnowsId(items, requirements, id);
    if id in requirements && requirements[id] == required {
      var p :| LastOfId(items, p, id) && requirements[id] == SaysRequired(items[p].fields);
      var i, j := EveryItemIsAt(steps, p);
      DemandsIff(steps, items, i, j, id, required);
      NoneAfterIff(steps, items, i, j, id);
    }
    if i, j :| Demands(steps, i, j, id, required) && NoneAfter(steps, i, j, id) {
      assert IsPlace(steps, i, j);
      DemandsIff(steps, items, i, j, id, required);
      NoneAfterIff(steps, items, i, j, id);
      LastDecides(items, requirements, id, Place(steps, i, j));
    }
  }

  lemma LastDecides(items: seq<Item>, requirements: map<string, bool>, id: string, p: int)
    requires KnowsId(items, requirements, id) && 0 <= p < |items|
    requires RecordsId(items[p], id) && NoneLater(items, p, id)
    ensures id in requirements && requirements[id] == SaysRequired(items[p].fields)
  {
    if id in requirements {
      var q :| LastOfId(items, q, id) && requirements[id] == SaysRequired(items[q].fields);
      assert q == p;
    }
  }
}
