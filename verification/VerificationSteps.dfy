/** Authored verification steps become runner steps, and the runner's assertion
    results get back the requirement their author gave them. */
module VerificationSteps {
  import opened Common
  import opened JsonValue

  const MAX_RUNNER_STEPS: nat := 512

  type Message = string

  // Building JSON.

  function Or<T>(first: Option<T>, second: Option<T>): Option<T> {
    if first.Some? then first else second
  }

  function With(output: Fields, key: string, value: Option<Json>): Fields {
    if value.Some? then output[key := value.value] else output
  }

  function WithRequired(output: Fields, key: string, value: Option<Json>): Result<Fields, Message> {
    if value.None? then Err(key + " is required") else Ok(output[key := value.value])
  }

  // Translation.

  function Finish(output: Result<Fields, Message>, fields: Fields): Result<Fields, Message> {
    if output.Err? then output else Ok(With(output.value, "timeoutMs", Get(fields, "timeoutMs")))
  }

  function Start(runner: string, fields: Fields): Fields {
    With(map["type" := String(runner)], "id", Get(fields, "id"))
  }

  function RunnerKind(kind: string): Option<string> {
    if kind in {"text", "assert.text"} then Some("assert.text")
    else if kind in {"element", "assert.element"} then Some("assert.element")
    else if kind in {"statusCode", "assert.status"} then Some("assert.status")
    else if kind in {"console", "assert.console"} then Some("assert.console")
    else if kind in {"screenshot", "accessibility"} then Some(kind)
    else None
  }

  /** The fields an assertion adds to its type and id. */
  function AssertionBody(runner: string, output: Fields, fields: Fields): Result<Fields, Message> {
    var target := Get(fields, "target");
    var value := Or(Get(fields, "expected"), Get(fields, "value"));
    match runner
    case "assert.text" => WithRequired(With(output, "selector", target), "expected", value)
    case "assert.element" =>
      var selected := WithRequired(output, "selector", target);
      if selected.Err? then selected else Ok(With(selected.value, "state", value))
    case "assert.status" => WithRequired(output, "expected", value)
    case "assert.console" =>
      Ok(With(With(output, "text", value), "absent", Or(Get(fields, "absent"), Some(Bool(false)))))
    case "screenshot" => Ok(With(output, "name", Or(value, target)))
    case _ => Ok(output)
  }

  function TranslateAssertion(kind: string, fields: Fields): Result<Fields, Message> {
    match RunnerKind(kind)
    case None => Err("unsupported assertion kind " + kind)
    case Some(runner) => Finish(AssertionBody(runner, Start(runner, fields), fields), fields)
  }

  predicate Compares(fields: Fields) {
    GetBool(fields, "compare") != Some(false)
  }

  /** The fields a step other than an assertion adds to its type and id. */
  function StepBody(kind: string, output: Fields, fields: Fields): Result<Fields, Message> {
    var target := Get(fields, "target");
    var value := Get(fields, "value");
    match kind
    case "navigate" => WithRequired(output, "url", target)
    case "click" => WithRequired(output, "selector", target)
    case "fill" =>
      var selected := WithRequired(output, "selector", target);
      if selected.Err? then selected else WithRequired(selected.value, "value", value)
    case "press" => WithRequired(With(output, "selector", target), "key", value)
    case "wait" => Ok(With(With(output, "selector", target), "state", value))
    case "waitFor" => Ok(With(With(output, "selector", target), "state", value))
    case "screenshot" =>
      var name := if Compares(fields) then Get(fields, "id") else Or(value, target);
      Ok(With(With(output, "name", name), "compare", Some(Bool(Compares(fields)))))
    case "accessibility" => Ok(output)
    case _ => Err("unsupported step kind " + kind)
  }

  function StepType(kind: string): string {
    if kind == "waitFor" then "wait" else kind
  }

  predicate IsAssertionStep(kind: string) {
    kind in {"assert.text", "assert.element", "assert.status", "assert.console"}
  }

  function TranslateStep(kind: string, fields: Fields): Result<Fields, Message> {
    if IsAssertionStep(kind)
    then TranslateAssertion(kind, fields)
    else Finish(StepBody(kind, Start(StepType(kind), fields), fields), fields)
  }

  // What translation accepts and keeps.

  const STEP_KINDS: set<string> :=
    {"navigate", "click", "fill", "press", "wait", "waitFor", "screenshot", "accessibility",
     "assert.text", "assert.element", "assert.status", "assert.console"}

  const ASSERTION_KINDS: set<string> :=
    {"text", "element", "statusCode", "console", "screenshot", "accessibility",
     "assert.text", "assert.element", "assert.status", "assert.console"}

  predicate NeedsTarget(kind: string) {
    kind in {"navigate", "click", "fill", "element", "assert.element"}
  }

  predicate NeedsExpected(kind: string) {
    kind in {"text", "assert.text", "statusCode", "assert.status"}
  }

  predicate NeedsValue(kind: string) { kind in {"fill", "press"} }

  /** The fields a kind cannot do without are there. */
  predicate Complete(kind: string, fields: Fields) {
    && (NeedsTarget(kind) ==> "target" in fields)
    && (NeedsValue(kind) ==> "value" in fields)
    && (NeedsExpected(kind) ==> "expected" in fields || "value" in fields)
  }

  predicate KnownStep(kind: string, fields: Fields) {
    kind in STEP_KINDS && Complete(kind, fields)
  }

  predicate KnownAssertion(kind: string, fields: Fields) {
    kind in ASSERTION_KINDS && Complete(kind, fields)
  }

  /** Where a step's runner gets `key` from. */
  function StepSource(kind: string, fields: Fields, key: string): Option<Json> {
    var target := Get(fields, "target");
    var value := Get(fields, "value");
    var compares := !("compare" in fields && fields["compare"] == Bool(false));
    match key
    case "type" => Some(String(if kind == "waitFor" then "wait" else kind))
    case "id" => Get(fields, "id")
    case "timeoutMs" => Get(fields, "timeoutMs")
    case "url" => if kind == "navigate" then target else None
    case "selector" => if kind in {"click", "fill", "press", "wait", "waitFor"} then target else None
    case "value" => if kind == "fill" then value else None
    case "key" => if kind == "press" then value else None
    case "state" => if kind in {"wait", "waitFor"} then value else None
    case "name" =>
      if kind != "screenshot" then None else if compares then Get(fields, "id") else Or(value, target)
    case "compare" => if kind == "screenshot" then Some(Bool(compares)) else None
    case _ => None
  }

  /** Where the runner of an assertion gets `key` from. */
  function AssertionSource(runner: string, fields: Fields, key: string): Option<Json> {
    var target := Get(fields, "target");
    var value := Or(Get(fields, "expected"), Get(fields, "value"));
    match key
    case "type" => Some(String(runner))
    case "id" => Get(fields, "id")
    case "timeoutMs" => Get(fields, "timeoutMs")
    case "selector" => if runner in {"assert.text", "assert.element"} then target else None
    case "expected" => if runner in {"assert.text", "assert.status"} then value else None
    case "state" => if runner == "assert.element" then value else None
    case "text" => if runner == "assert.console" then value else None
    case "absent" =>
      if runner == "assert.console" then Or(Get(fields, "absent"), Some(Bool(false))) else None
    case "name" => if runner == "screenshot" then Or(value, target) else None
    case _ => None
  }

  lemma StepBodyFields(kind: string, fields: Fields, key: string)
    requires StepBody(kind, Start(StepType(kind), fields), fields).Ok?
    ensures Get(StepBody(kind, Start(StepType(kind), fields), fields).value, key)
         == if key == "timeoutMs" then None else StepSource(kind, fields, key)
  {
  }

  lemma AssertionBodyFields(runner: string, fields: Fields, key: string)
    requires AssertionBody(runner, Start(runner, fields), fields).Ok?
    ensures Get(AssertionBody(runner, Start(runner, fields), fields).value, key)
         == if key == "timeoutMs" then None else AssertionSource(runner, fields, key)
  {
  }

  /** An assertion's short name and its full name mean the same; the two that are no
      assertions of the page keep their names, and every other kind is unknown. */
  lemma RunnerKinds(kind: string)
    ensures RunnerKind("text") == RunnerKind("assert.text") == Some("assert.text")
    ensures RunnerKind("element") == RunnerKind("assert.element") == Some("assert.element")
    ensures RunnerKind("statusCode") == RunnerKind("assert.status") == Some("assert.status")
    ensures RunnerKind("console") == RunnerKind("assert.console") == Some("assert.console")
    ensures RunnerKind("screenshot") == Some("screenshot") && RunnerKind("accessibility") == Some("accessibility")
    ensures RunnerKind(kind).Some? <==> kind in ASSERTION_KINDS
  {
  }

  lemma AssertionAccepted(kind: string, fields: Fields)
    ensures TranslateAssertion(kind, fields).Ok? <==> KnownAssertion(kind, fields)
  {
  }

  lemma StepAccepted(kind: string, fields: Fields)
    ensures TranslateStep(kind, fields).Ok? <==> KnownStep(kind, fields)
  {
    AssertionAccepted(kind, fields);
  }

  /** An assertion is accepted exactly when its kind is known and its fields
      complete; it carries these fields of the author's under these names, and
      no others. */
  lemma AssertionTranslates(kind: string, fields: Fields, key: string)
    ensures TranslateAssertion(kind, fields).Ok? <==> KnownAssertion(kind, fields)
    ensures TranslateAssertion(kind, fields).Ok? ==>
      Get(TranslateAssertion(kind, fields).value, key) == AssertionSource(RunnerKind(kind).value, fields, key)
  {
    AssertionAccepted(kind, fields);
    if TranslateAssertion(kind, fields).Ok? { AssertionBodyFields(RunnerKind(kind).value, fields, key); }
  }

  /** And likewise a step. */
  lemma StepTranslates(kind: string, fields: Fields, key: string)
    ensures TranslateStep(kind, fields).Ok? <==> KnownStep(kind, fields)
    ensures TranslateStep(kind, fields).Ok? ==>
      Get(TranslateStep(kind, fields).value, key)
        == if IsAssertionStep(kind) then AssertionSource(kind, fields, key) else StepSource(kind, fields, key)
  {
    StepAccepted(kind, fields);
    if TranslateStep(kind, fields).Ok? {
      if IsAssertionStep(kind) { AssertionTranslates(kind, fields, key); }
      else { StepBodyFields(kind, fields, key); }
    }
  }

  // Flattening.

  predicate Enabled(step: Fields) {
    GetBool(step, "enabled") != Some(false)
  }

  /** The first of the two keys that is present decides, even when it is no text. */
  function KindOf(step: Fields): Option<string> {
    if "kind" in step then GetText(step, "kind") else GetText(step, "type")
  }

  predicate GoodAssertion(assertion: Json) {
    && assertion.Object? && GetText(assertion.fields, "kind").Some?
    && KnownAssertion(GetText(assertion.fields, "kind").value, assertion.fields)
  }

  function NestedOf(step: Fields): seq<Json> {
    if "assertions" in step && step["assertions"].Array? then step["assertions"].items else []
  }

  predicate GoodNested(step: Fields) {
    && ("assertions" in step ==> step["assertions"].Array?)
    && forall i | 0 <= i < |NestedOf(step)| :: GoodAssertion(NestedOf(step)[i])
  }

  predicate GoodFields(step: Fields) {
    KindOf(step).Some? && KnownStep(KindOf(step).value, step) && GoodNested(step)
  }

  /** A disabled step need only be an object. */
  predicate GoodStep(step: Json) {
    step.Object? && (Enabled(step.fields) ==> GoodFields(step.fields))
  }

  /** One thing the author asks the runner to do: a step, or an assertion nested in it. */
  datatype Item = Item(kind: string, fields: Fields, nested: bool)

  function NestedItem(assertion: Json): Item
    requires GoodAssertion(assertion)
  {
    Item(GetText(assertion.fields, "kind").value, assertion.fields, true)
  }

  function NestedItems(assertions: seq<Json>): seq<Item>
    requires forall i | 0 <= i < |assertions| :: GoodAssertion(assertions[i])
  {
    if assertions == [] then []
    else NestedItems(assertions[..|assertions| - 1]) + [NestedItem(assertions[|assertions| - 1])]
  }

  function ItemsOf(step: Json): seq<Item>
    requires GoodStep(step)
  {
    if Enabled(step.fields) then ItemsOfFields(step.fields) else []
  }

  function ItemsOfFields(step: Fields): seq<Item>
    requires GoodFields(step)
  {
    [Item(KindOf(step).value, step, false)] + NestedItems(NestedOf(step))
  }

  /** The items of enabled steps in order, each step followed by its assertions. */
  function Flattened(steps: seq<Json>): seq<Item>
    requires forall i | 0 <= i < |steps| :: GoodStep(steps[i])
  {
    if steps == [] then []
    else Flattened(steps[..|steps| - 1]) + ItemsOf(steps[|steps| - 1])
  }

  function Translated(item: Item): Result<Fields, Message> {
    if item.nested then TranslateAssertion(item.kind, item.fields) else TranslateStep(item.kind, item.fields)
  }

  /** `output` is the translation of `items`, one for one. */
  ghost predicate Translates(items: seq<Item>, output: seq<Json>) {
    && |output| == |items|
    && forall i | 0 <= i < |items| :: Translated(items[i]).Ok? && output[i] == Object(Translated(items[i]).value)
  }

  /** Assertions, nested or written as steps, have a say in whether they block. */
  predicate Records(item: Item) {
    item.nested || "assert." <= item.kind
  }

  function SaysRequired(fields: Fields): bool {
    GetBool(fields, "required") != Some(false)
  }

  predicate RecordsId(item: Item, id: string) {
    Records(item) && GetText(item.fields, "id") == Some(id)
  }

  ghost predicate LastOfId(items: seq<Item>, i: int, id: string) {
    && 0 <= i < |items| && RecordsId(items[i], id)
    && forall j | i < j < |items| :: !RecordsId(items[j], id)
  }

  /** What is known of `id`: nothing if no item records it, and otherwise what
      the last one that does says. */
  ghost predicate KnowsId(items: seq<Item>, requirements: map<string, bool>, id: string) {
    if id in requirements
    then exists i :: LastOfId(items, i, id) && requirements[id] == SaysRequired(items[i].fields)
    else forall i | 0 <= i < |items| :: !RecordsId(items[i], id)
  }

  ghost predicate Knows(items: seq<Item>, requirements: map<string, bool>) {
    forall id :: KnowsId(items, requirements, id)
  }

  function Recorded(requirements: map<string, bool>, item: Item): map<string, bool> {
    var id := GetText(item.fields, "id");
    if Records(item) && id.Some? then requirements[id.value := SaysRequired(item.fields)] else requirements
  }

  lemma RecordOneMoreId(items: seq<Item>, item: Item, requirements: map<string, bool>, id: string)
    requires KnowsId(items, requirements, id)
    ensures KnowsId(items + [item], Recorded(requirements, item), id)
  {
    var more := items + [item];
    if RecordsId(item, id) {
      assert LastOfId(more, |items|, id);
    } else if id in requirements {
      var i :| LastOfId(items, i, id) && requirements[id] == SaysRequired(items[i].fields);
      assert LastOfId(more, i, id);
    }
  }

  lemma RecordOneMore(items: seq<Item>, item: Item, requirements: map<string, bool>)
    requires Knows(items, requirements)
    ensures Knows(items + [item], Recorded(requirements, item))
  {
    forall id ensures KnowsId(items + [item], Recorded(requirements, item), id) {
      RecordOneMoreId(items, item, requirements, id);
    }
  }

  lemma {:induction false} FlattenedGrows(steps: seq<Json>, k: nat)
    requires k <= |steps| && forall i | 0 <= i < |steps| :: GoodStep(steps[i])
    ensures |Flattened(steps[..k])| <= |Flattened(steps)|
    decreases |steps|
  {
    if k < |steps| {
      FlattenedGrows(steps[..|steps| - 1], k);
      assert steps[..|steps| - 1][..k] == steps[..k];
    } else {
      assert steps[..k] == steps;
    }
  }

  datatype Plan = Plan(translated: seq<Json>, requirements: map<string, bool>)

  /** Every step can be translated, and the whole is not too long. */
  ghost predicate Acceptable(steps: Json) {
    && steps.Array?
    && (forall i | 0 <= i < |steps.items| :: GoodStep(steps.items[i]))
    && |Flattened(steps.items)| <= MAX_RUNNER_STEPS
  }

  /** `plan` is the translation of `items`. */
  ghost predicate Carries(items: seq<Item>, plan: Plan) {
    Translates(items, plan.translated) && Knows(items, plan.requirements)
  }

  lemma CarryOneMore(items: seq<Item>, item: Item, plan: Plan)
    requires Carries(items, plan) && Translated(item).Ok?
    ensures Carries(items + [item],
                    Plan(plan.translated + [Object(Translated(item).value)], Recorded(plan.requirements, item)))
  {
    RecordOneMore(items, item, plan.requirements);
  }

  /** The assertions nested in a step, after the step itself. */
  method AddNested(assertions: seq<Json>, plan: Plan, ghost items: seq<Item>) returns (result: Result<Plan, Message>)
    requires Carries(items, plan)
    ensures result.Ok? <==> forall i | 0 <= i < |assertions| :: GoodAssertion(assertions[i])
    ensures result.Ok? ==> Carries(items + NestedItems(assertions), result.value)
  {
    var current := plan;
    assert items + NestedItems([]) == items;
    for k := 0 to |assertions|
      invariant forall i | 0 <= i < k :: GoodAssertion(assertions[i])
      invariant Carries(items + NestedItems(assertions[..k]), current)
    {
      if !assertions[k].Object? { return Err("assertion must be an object"); }
      var assertion := assertions[k].fields;
      var kind := GetText(assertion, "kind");
      if kind.None? { return Err("assertion omitted kind"); }
      var added := AddNestedItem(kind.value, assertion, current, items + NestedItems(assertions[..k]));
      if added.Err? { return added; }
      current := added.value;
      assert assertions[..k + 1][..k] == assertions[..k];
      assert items + NestedItems(assertions[..k + 1])
          == items + NestedItems(assertions[..k]) + [NestedItem(assertions[k])];
    }
    assert assertions[..|assertions|] == assertions;
    result := Ok(current);
  }

  /** A step by itself. */
  method AddOwn(kind: string, fields: Fields, plan: Plan, ghost items: seq<Item>)
    returns (result: Result<Plan, Message>)
    requires Carries(items, plan)
    ensures result.Ok? <==> KnownStep(kind, fields)
    ensures result.Ok? ==> Carries(items + [Item(kind, fields, false)], result.value)
  {
    StepAccepted(kind, fields);
    var item := Item(kind, fields, false);
    var translated := TranslateStep(kind, fields);
    if translated.Err? { return Err(translated.error); }
    CarryOneMore(items, item, plan);
    result := Ok(Plan(plan.translated + [Object(translated.value)], Recorded(plan.requirements, item)));
  }

  lemma NoTakeover(fields: Fields)
    ensures !KnownStep("takeover", fields)
  {
  }

  method AddNestedItem(kind: string, fields: Fields, plan: Plan, ghost items: seq<Item>)
    returns (result: Result<Plan, Message>)
    requires Carries(items, plan)
    ensures result.Ok? <==> KnownAssertion(kind, fields)
    ensures result.Ok? ==> Carries(items + [Item(kind, fields, true)], result.value)
  {
    AssertionAccepted(kind, fields);
    var item := Item(kind, fields, true);
    var requirements := Recorded(plan.requirements, item);
    var translated := TranslateAssertion(kind, fields);
    if translated.Err? { return Err(translated.error); }
    CarryOneMore(items, item, plan);
    result := Ok(Plan(plan.translated + [Object(translated.value)], requirements));
  }

  lemma OwnThenNested(step: Fields, items: seq<Item>)
    requires GoodFields(step)
    ensures items + ItemsOfFields(step)
         == items + [Item(KindOf(step).value, step, false)] + NestedItems(NestedOf(step))
  {
  }

  method AddFields(step: Fields, plan: Plan, ghost items: seq<Item>) returns (result: Result<Plan, Message>)
    requires Carries(items, plan)
    ensures result.Ok? <==> GoodFields(step)
    ensures result.Ok? ==> Carries(items + ItemsOfFields(step), result.value)
  {
    NoTakeover(step);
    var kind := KindOf(step);
    if kind.None? { return Err("step omitted kind"); }
    if kind.value == "takeover" { return Err("takeover cannot be a step"); }
    result := AddOwn(kind.value, step, plan, items);
    if result.Err? { return; }
    if "assertions" in step && !step["assertions"].Array? { return Err("nested assertions must be an array"); }
    result := AddNested(NestedOf(step), result.value, items + [Item(kind.value, step, false)]);
    if result.Ok? { OwnThenNested(step, items); }
  }

  method AddStep(step: Json, plan: Plan, ghost items: seq<Item>) returns (result: Result<Plan, Message>)
    requires Carries(items, plan)
    ensures result.Ok? <==> GoodStep(step)
    ensures result.Ok? ==> Carries(items + ItemsOf(step), result.value)
  {
    if !step.Object? { return Err("step must be an object"); }
    if Enabled(step.fields) {
      result := AddFields(step.fields, plan, items);
    } else {
      assert items + [] == items;
      result := Ok(plan);
    }
  }

  /** Normalisation succeeds exactly on the acceptable definitions, and yields
      their flattening, translated one for one, with every requirement. */
  method NormalizedSteps(steps: Json) returns (result: Result<Plan, Message>)
    ensures result.Ok? <==> Acceptable(steps)
    ensures result.Ok? ==> Carries(Flattened(steps.items), result.value)
  {
    if !steps.Array? { return Err("steps must be an array"); }
    var plan := Plan([], map[]);
    for k := 0 to |steps.items|
      invariant forall i | 0 <= i < k :: GoodStep(steps.items[i])
      invariant Carries(Flattened(steps.items[..k]), plan) && |plan.translated| <= MAX_RUNNER_STEPS
    {
      var added := AddStep(steps.items[k], plan, Flattened(steps.items[..k]));
      if added.Err? { return added; }
      plan := added.value;
      assert steps.items[..k + 1][..k] == steps.items[..k];
      if |plan.translated| > MAX_RUNNER_STEPS {
        if forall i | 0 <= i < |steps.items| :: GoodStep(steps.items[i]) { FlattenedGrows(steps.items, k + 1); }
        return Err("too many runner steps");
      }
    }
    assert steps.items[..|steps.items|] == steps.items;
    result := Ok(plan);
  }
}
