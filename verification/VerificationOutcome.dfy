/** Decoding what the runner returns: evidence is stored by content, assertions are
    required unless their author said otherwise, and a run that did not go through
    adds one more. */
module VerificationOutcome {
  import opened Common
  import opened ArtifactStore
  import opened JsonValue
  import opened VerificationSteps

  /** A file the service handed over, in the order of the result's artifact entries. */
  datatype Extracted = Extracted(kind: string, bytes: Bytes)

  datatype Artifact = Artifact(kind: string, digest: Digest)

  datatype AssertionResult = AssertionResult(name: string, required: bool, status: string)

  datatype Comparison = Comparison(variant: string, current: Digest, difference: Option<Digest>, status: string)

  /** `console` holds the levels of what was printed, `findings` how grave each
      accessibility finding is, and `events` how many entries the timeline has. */
  datatype Outcome = Outcome(
    assertions: seq<AssertionResult>, artifacts: seq<Artifact>, comparisons: seq<Comparison>,
    console: seq<string>, findings: seq<string>, events: nat)

  // Reading the result.

  function Field(value: Json, key: string): Option<Json> {
    if value.Object? then Get(value.fields, key) else None
  }

  function Text(value: Json, key: string): Option<string> {
    if value.Object? then GetText(value.fields, key) else None
  }

  function TextOr(value: Json, key: string, fallback: string): string {
    if Text(value, key).Some? then Text(value, key).value else fallback
  }

  function List(value: Json, key: string): seq<Json> {
    if value.Object? && key in value.fields && value.fields[key].Array? then value.fields[key].items else []
  }

  // Assertions.

  function Required(result: Json, requirements: map<string, bool>): bool {
    var id := Text(result, "stepId");
    if id.Some? && id.value in requirements then requirements[id.value] else true
  }

  function DecodedAssertion(result: Json, requirements: map<string, bool>): AssertionResult {
    AssertionResult(TextOr(result, "stepId", "step") + ":" + TextOr(result, "kind", "assertion"),
                    Required(result, requirements), TextOr(result, "status", "failed"))
  }

  predicate Unsuccessful(status: string) {
    status in {"failed", "error", "cancelled"}
  }

  /** The run, or one of its variants, did not go through. */
  predicate RunnerFailed(result: Json) {
    || Unsuccessful(TextOr(result, "status", "failed"))
    || exists i | 0 <= i < |List(result, "variants")| ::
         Unsuccessful(TextOr(List(result, "variants")[i], "status", ""))
  }

  const RUNNER_STATUS: AssertionResult := AssertionResult("runner:status", true, "failed")

  function DecodedAssertions(result: Json, requirements: map<string, bool>): seq<AssertionResult> {
    var results := List(result, "assertions");
    seq(|results|, i requires 0 <= i < |results| => DecodedAssertion(results[i], requirements))
      + if RunnerFailed(result) then [RUNNER_STATUS] else []
  }

  // The console and the accessibility audits.

  /** "log", which most pages print by, stays as it is. */
  function LevelOf(entry: Json): string {
    var key := Or(Field(entry, "level"), Field(entry, "type"));
    if key.None? || !key.value.String? then "info"
    else if key.value.text == "warn" then "warning" else key.value.text
  }

  function ConsoleEntries(result: Json): seq<Json> {
    if Field(result, "console").Some? then List(Field(result, "console").value, "entries") else []
  }

  function DecodedConsole(result: Json): seq<string> {
    var entries := ConsoleEntries(result);
    seq(|entries|, i requires 0 <= i < |entries| => LevelOf(entries[i]))
      + seq(|List(result, "pageErrors")|, _ => "error")
  }

  function SeverityOf(finding: Json): string {
    if Text(finding, "severity") == Some("error") then "critical" else "warning"
  }

  function SeveritiesOf(audit: Json): seq<string> {
    var findings := List(audit, "findings");
    seq(|findings|, i requires 0 <= i < |findings| => SeverityOf(findings[i]))
  }

  function DecodedFindings(audits: seq<Json>): seq<string> {
    if audits == [] then [] else SeveritiesOf(audits[0]) + DecodedFindings(audits[1..])
  }

  // What is read of a result, field by field.

  lemma ReadsIff(value: Json, key: string, text: string)
    ensures Text(value, key) == Some(text)
       <==> value.Object? && key in value.fields && value.fields[key] == String(text)
    ensures forall fallback ::
      TextOr(value, key, fallback) == if Text(value, key).Some? then Text(value, key).value else fallback
    ensures List(value, key)
         == if value.Object? && key in value.fields && value.fields[key].Array? then value.fields[key].items else []
  {
  }

  /** An assertion is named by its step and kind; without a status it has failed; and
      it is required unless the requirement of its step's id says otherwise. */
  lemma AssertionDecodes(result: Json, requirements: map<string, bool>)
    ensures var d := DecodedAssertion(result, requirements);
            && (forall step, kind | Text(result, "stepId") == Some(step) && Text(result, "kind") == Some(kind) ::
                  d.name == step + ":" + kind)
            && (Text(result, "stepId").None? && Text(result, "kind").None? ==> d.name == "step:assertion")
            && (forall status | Text(result, "status") == Some(status) :: d.status == status)
            && (Text(result, "status").None? ==> d.status == "failed")
            && (!d.required <==>
                  exists id :: Text(result, "stepId") == Some(id) && id in requirements && !requirements[id])
  {
  }

  /** The run did not go through if it says so, or says nothing, or a variant says so. */
  lemma RunnerFailedIff(result: Json)
    ensures RunnerFailed(result) <==>
      || Text(result, "status").None?
      || (exists status :: Text(result, "status") == Some(status) && status in {"failed", "error", "cancelled"})
      || (exists i, status :: (
            && 0 <= i < |List(result, "variants")| && Text(List(result, "variants")[i], "status") == Some(status)
            && status in {"failed", "error", "cancelled"}))
  {
    if i :| 0 <= i < |List(result, "variants")| && Unsuccessful(TextOr(List(result, "variants")[i], "status", "")) {
      assert Text(List(result, "variants")[i], "status").Some?;
    }
    if i, status :| (
      && 0 <= i < |List(result, "variants")| && Text(List(result, "variants")[i], "status") == Some(status)
      && status in {"failed", "error", "cancelled"}) {
      assert TextOr(List(result, "variants")[i], "status", "") == status;
    }
  }

  /** A console entry's level is its "level" or, where there is none, its "type": "warn"
      is a warning, any other text is kept, and what is no text counts as "info". A
      finding is critical exactly if its severity is "error". */
  lemma LevelsDecode(fields: Fields)
    ensures var level := LevelOf(Object(fields));
            && ("level" in fields && fields["level"] == String("warn") ==> level == "warning")
            && (forall t | "level" in fields && fields["level"] == String(t) && t != "warn" :: level == t)
            && ("level" in fields && !fields["level"].String? ==> level == "info")
            && ("level" !in fields && "type" in fields && fields["type"] == String("warn") ==> level == "warning")
            && (forall t | "level" !in fields && "type" in fields && fields["type"] == String(t) && t != "warn" ::
                  level == t)
            && ("level" !in fields && "type" in fields && !fields["type"].String? ==> level == "info")
            && ("level" !in fields && "type" !in fields ==> level == "info")
    ensures var severity := SeverityOf(Object(fields));
            && (severity == "critical" <==> "severity" in fields && fields["severity"] == String("error"))
            && (severity == "warning" <==> severity != "critical")
  {
  }

  /** What is kept of the console: its entries in order, and then an error for each
      error of the page; and of the audits, their findings in order. */
  lemma ConsoleDecodes(result: Json, console: Json)
    requires Field(result, "console") == Some(console)
    ensures var decoded, entries := DecodedConsole(result), List(console, "entries");
            var errors := List(result, "pageErrors");
            && |decoded| == |entries| + |errors|
            && (forall i | 0 <= i < |entries| :: decoded[i] == LevelOf(entries[i]))
            && (forall i | |entries| <= i < |decoded| :: decoded[i] == "error")
  {
  }

  /** What the storing of files and the comparisons contribute to an outcome. */
  datatype Files = Files(artifacts: seq<Artifact>, comparisons: seq<Comparison>)

  function OutcomeOf(result: Json, requirements: map<string, bool>, files: Files): Outcome {
    Outcome(DecodedAssertions(result, requirements), files.artifacts, files.comparisons, DecodedConsole(result),
            DecodedFindings(List(result, "accessibility")), |List(result, "timeline")|)
  }

  /** Everything of an outcome but its files and comparisons is as decoded. */
  ghost predicate Copied(o: Outcome, result: Json, requirements: map<string, bool>) {
    o == OutcomeOf(result, requirements, Files(o.artifacts, o.comparisons))
  }

  /** The author waives an item: an assertion, nested or a step, that says it is not required. */
  predicate Waived(item: Item) {
    Records(item) && !SaysRequired(item.fields)
  }

  /** A result is not required exactly when the last recorded item with its
      step's id is waived. */
  lemma NotRequiredIff(items: seq<Item>, plan: Plan, result: Json)
    requires Carries(items, plan)
    ensures !Required(result, plan.requirements)
       <==> Text(result, "stepId").Some?
            && exists i :: LastOfId(items, i, Text(result, "stepId").value) && Waived(items[i])
  {
    var id := Text(result, "stepId");
    if id.Some? {
      assert KnowsId(items, plan.requirements, id.value);
      forall i, j | LastOfId(items, i, id.value) && LastOfId(items, j, id.value) ensures i == j {
      }
    }
  }

  ghost predicate DistinctIds(items: seq<Item>) {
    forall i, j | 0 <= i < |items| && 0 <= j < |items| && i != j ::
      GetText(items[i].fields, "id").None? || GetText(items[i].fields, "id") != GetText(items[j].fields, "id")
  }

  /** With distinct ids, a result for an item's runner step is not required
      exactly when the author waived that very item. */
  lemma AuthorDecides(items: seq<Item>, plan: Plan, k: nat, result: Json)
    requires Carries(items, plan) && DistinctIds(items) && k < |items|
    requires Text(result, "stepId").Some? && Text(result, "stepId") == Text(plan.translated[k], "id")
    ensures Required(result, plan.requirements) <==> !Waived(items[k])
  {
    var item, id := items[k], Text(result, "stepId").value;
    if item.nested { AssertionTranslates(item.kind, item.fields, "id"); }
    else { StepTranslates(item.kind, item.fields, "id"); }
    assert GetText(item.fields, "id") == Some(id);
    NotRequiredIff(items, plan, result);
    if Waived(item) { assert LastOfId(items, k, id); }
  }

  /** Without distinct ids the author need not: the assertion that comes later
      decides for the one that comes first. */
  lemma SharedIdWaivesBoth() returns (items: seq<Item>, plan: Plan)
    ensures |items| == 2 && Carries(items, plan) && !Waived(items[0])
    ensures Text(plan.translated[0], "id") == Some("a") && plan.requirements == map["a" := false]
  {
    var fields := map["id" := String("a"), "expected" := String("x")];
    var first := Item("text", fields, true);
    var second := Item("text", fields["required" := Bool(false)], true);
    items := [first, second];
    AssertionTranslates("text", first.fields, "id");
    AssertionTranslates("text", second.fields, "id");
    plan := Plan([Object(Translated(first).value), Object(Translated(second).value)], map["a" := false]);
    RecordOneMore([], first, map[]);
    assert [] + [first] == [first] && Recorded(map[], first) == map["a" := true];
    RecordOneMore([first], second, map["a" := true]);
    assert [first] + [second] == items && Recorded(map["a" := true], second) == map["a" := false];
  }

  // Evidence.

  /** The last of the first `n` files at `path`. */
  ghost predicate LastAt(entries: seq<Json>, n: nat, path: string, i: int) {
    && 0 <= i < n <= |entries| && Text(entries[i], "path") == Some(path)
    && forall j | i < j < n :: Text(entries[j], "path") != Some(path)
  }

  ghost predicate HashOk(entries: seq<Json>, extracted: seq<Extracted>, n: nat,
                         hashes: map<string, Digest>, path: string)
    requires |extracted| == |entries|
  {
    if path in hashes
    then exists i :: LastAt(entries, n, path, i) && hashes[path] == Sha256(extracted[i].bytes)
    else forall j | 0 <= j < n <= |entries| :: Text(entries[j], "path") != Some(path)
  }

  /** `hashes` gives each path the digest of the last file extracted at it. */
  ghost predicate HashesOk(entries: seq<Json>, extracted: seq<Extracted>, n: nat, hashes: map<string, Digest>)
    requires |extracted| == |entries|
  {
    forall path :: HashOk(entries, extracted, n, hashes, path)
  }

  /** The first of the keys with a text is the path; later keys do not count. */
  function ComparedPath(comparison: Json): Option<string> {
    Or(Text(comparison, "currentPath"),
       Or(Text(comparison, "currentArtifactPath"), Text(comparison, "artifactPath")))
  }

  function DifferencePath(comparison: Json): Option<string> {
    Or(Text(comparison, "diffPath"),
       Or(Text(comparison, "differencePath"), Text(comparison, "differenceArtifactPath")))
  }

  function Hashed(hashes: map<string, Digest>, path: Option<string>): Option<Digest> {
    if path.Some? && path.value in hashes then Some(hashes[path.value]) else None
  }

  function ComparisonStatus(comparison: Json): string {
    match Text(comparison, "status")
    case None => "matched"
    case Some(status) =>
      if status == "passed" then "matched"
      else if status == "failed" then "different"
      else if status == "created" then "missing_baseline"
      else if status == "updated" then "approved"
      else status
  }

  function VariantOf(comparison: Json): string {
    var key := Or(Field(comparison, "variant"), Field(comparison, "variantKey"));
    if key.Some? && key.value.String? then key.value.text else "desktop"
  }

  /** The status of a comparison, its variant, and which of its keys gives the path of
      the picture and of the difference. */
  lemma ComparisonDecodes(source: Json)
    ensures var status := ComparisonStatus(source);
            && (Text(source, "status").None? || Text(source, "status") == Some("passed") ==> status == "matched")
            && (Text(source, "status") == Some("failed") ==> status == "different")
            && (Text(source, "status") == Some("created") ==> status == "missing_baseline")
            && (Text(source, "status") == Some("updated") ==> status == "approved")
            && (forall t | Text(source, "status") == Some(t) && t != "passed" && t != "failed" && t != "created"
                  && t != "updated" :: status == t)
    ensures var path := ComparedPath(source);
            && (Text(source, "currentPath").Some? ==> path == Text(source, "currentPath"))
            && (Text(source, "currentPath").None? && Text(source, "currentArtifactPath").Some? ==>
                  path == Text(source, "currentArtifactPath"))
            && (Text(source, "currentPath").None? && Text(source, "currentArtifactPath").None? ==>
                  path == Text(source, "artifactPath"))
    ensures var path := DifferencePath(source);
            && (Text(source, "diffPath").Some? ==> path == Text(source, "diffPath"))
            && (Text(source, "diffPath").None? && Text(source, "differencePath").Some? ==>
                  path == Text(source, "differencePath"))
            && (Text(source, "diffPath").None? && Text(source, "differencePath").None? ==>
                  path == Text(source, "differenceArtifactPath"))
    ensures forall v | Text(source, "variant") == Some(v) :: VariantOf(source) == v
    ensures forall v | Field(source, "variant").None? && Text(source, "variantKey") == Some(v) :: VariantOf(source) == v
    ensures Field(source, "variant").None? && Text(source, "variantKey").None? ==> VariantOf(source) == "desktop"
    ensures Field(source, "variant").Some? && Text(source, "variant").None? ==> VariantOf(source) == "desktop"
  {
  }

  /** The digest is of the file extracted at the path, the last if there are several. */
  ghost predicate Evidence(entries: seq<Json>, extracted: seq<Extracted>, path: Option<string>, digest: Digest)
    requires |extracted| == |entries|
  {
    path.Some? && exists i :: LastAt(entries, |entries|, path.value, i) && digest == Sha256(extracted[i].bytes)
  }

  ghost predicate HasFile(entries: seq<Json>, path: Option<string>) {
    path.Some? && exists i | 0 <= i < |entries| :: Text(entries[i], "path") == path
  }

  lemma HashedMeans(entries: seq<Json>, extracted: seq<Extracted>, hashes: map<string, Digest>, path: Option<string>)
    requires |extracted| == |entries| && HashesOk(entries, extracted, |entries|, hashes)
    ensures Hashed(hashes, path).Some? <==> HasFile(entries, path)
    ensures Hashed(hashes, path).Some? ==> Evidence(entries, extracted, path, Hashed(hashes, path).value)
  {
    if path.Some? { assert HashOk(entries, extracted, |entries|, hashes, path.value); }
  }

  /** One stored comparison, as its contract promises it. */
  ghost predicate Shows(entries: seq<Json>, extracted: seq<Extracted>, source: Json, c: Comparison)
    requires |extracted| == |entries|
  {
    && Evidence(entries, extracted, ComparedPath(source), c.current)
    && (c.difference.Some? <==> HasFile(entries, DifferencePath(source)))
    && (c.difference.Some? ==> Evidence(entries, extracted, DifferencePath(source), c.difference.value))
    && (c.status == "matched" <==> Text(source, "status") in {None, Some("passed"), Some("matched")})
    && c.status == ComparisonStatus(source)
    && c.variant == VariantOf(source)
  }

  /** Every artifact holds the bytes of its file, and the store can give them back. */
  ghost predicate Keeps(store: Artifacts, extracted: seq<Extracted>, artifacts: seq<Artifact>, n: nat) {
    && |artifacts| == n <= |extracted|
    && forall i | 0 <= i < n ::
         artifacts[i] == Artifact(extracted[i].kind, Sha256(extracted[i].bytes))
         && artifacts[i].digest in store
  }

  class ServiceRunner {
    var store: Artifacts

    constructor (store: Artifacts)
      ensures this.store == store
    {
      this.store := store;
    }

    /** Decoding succeeds exactly if there is a file to each entry, each entry has a path,
        and each comparison's picture is one of the files. Files are stored first,
        and stay stored when decoding fails later. */
    method DecodeOutcome(result: Json, extracted: seq<Extracted>, requirements: map<string, bool>)
      returns (decoded: Result<Outcome, Message>)
      modifies this
      ensures forall d | d in old(store) :: d in store && store[d] == old(store)[d]
      ensures forall d | d in store && d !in old(store) ::
        store[d] == d.content && exists i | 0 <= i < |extracted| :: extracted[i].bytes == d.content
      ensures decoded.Ok? <==>
        var entries, sources := List(result, "artifacts"), List(result, "visualComparisons");
        && |entries| == |extracted|
        && (forall i | 0 <= i < |entries| :: Text(entries[i], "path").Some?)
        && (forall i | 0 <= i < |sources| :: HasFile(entries, ComparedPath(sources[i])))
      ensures decoded.Ok? ==>
        var artifacts := decoded.value.artifacts;
        && |artifacts| == |extracted|
        && forall i | 0 <= i < |extracted| ::
             && artifacts[i] == Artifact(extracted[i].kind, Sha256(extracted[i].bytes))
             && artifacts[i].digest in store
      ensures decoded.Ok? ==>
        var entries, sources := List(result, "artifacts"), List(result, "visualComparisons");
        && Copied(decoded.value, result, requirements)
        && |decoded.value.comparisons| == |sources|
        && forall i | 0 <= i < |sources| :: Shows(entries, extracted, sources[i], decoded.value.comparisons[i])
    {
      var entries := List(result, "artifacts");
      if |entries| != |extracted| { return Err("artifact metadata did not match extracted files"); }
      var hashes: map<string, Digest> := map[];
      var artifacts: seq<Artifact> := [];
      for n := 0 to |entries|
        invariant forall i | 0 <= i < n :: Text(entries[i], "path").Some?
        invariant HashesOk(entries, extracted, n, hashes) && Keeps(store, extracted, artifacts, n)
        invariant forall d | d in old(store) :: d in store && store[d] == old(store)[d]
        invariant forall d | d in store && d !in old(store) ::
          store[d] == d.content && exists i | 0 <= i < |extracted| :: extracted[i].bytes == d.content
      {
        var path := Text(entries[n], "path");
        if path.None? { return Err("artifact omitted path"); }
        var digest := Sha256(extracted[n].bytes);
        store := StoredBytes(store, extracted[n].bytes);
        HashOneMore(entries, extracted, n, hashes);
        hashes := hashes[path.value := digest];
        artifacts := artifacts + [Artifact(extracted[n].kind, digest)];
      }
      var comparisons := DecodeComparisons(result, extracted, hashes);
      if comparisons.Err? { return Err(comparisons.error); }
      decoded := Ok(OutcomeOf(result, requirements, Files(artifacts, comparisons.value)));
    }
  }

  lemma HashOneMore(entries: seq<Json>, extracted: seq<Extracted>, n: nat, hashes: map<string, Digest>)
    requires |extracted| == |entries| && n < |entries| && Text(entries[n], "path").Some?
    requires HashesOk(entries, extracted, n, hashes)
    ensures HashesOk(entries, extracted, n + 1,
                     hashes[Text(entries[n], "path").value := Sha256(extracted[n].bytes)])
  {
    var here := Text(entries[n], "path").value;
    var after, m := hashes[here := Sha256(extracted[n].bytes)], n + 1;
    forall path ensures HashOk(entries, extracted, m, after, path) {
      assert HashOk(entries, extracted, n, hashes, path);
      if path == here {
        assert LastAt(entries, m, path, n);
      } else if path in hashes {
        var i :| LastAt(entries, n, path, i) && hashes[path] == Sha256(extracted[i].bytes);
        assert LastAt(entries, m, path, i);
      }
    }
  }

  function DecodedComparison(source: Json, hashes: map<string, Digest>): Option<Comparison> {
    match Hashed(hashes, ComparedPath(source))
    case None => None
    case Some(current) =>
      Some(Comparison(VariantOf(source), current, Hashed(hashes, DifferencePath(source)), ComparisonStatus(source)))
  }

  lemma DecodedShows(entries: seq<Json>, extracted: seq<Extracted>, hashes: map<string, Digest>, source: Json)
    requires |extracted| == |entries| && HashesOk(entries, extracted, |entries|, hashes)
    ensures DecodedComparison(source, hashes).Some? <==> HasFile(entries, ComparedPath(source))
    ensures DecodedComparison(source, hashes).Some? ==>
      Shows(entries, extracted, source, DecodedComparison(source, hashes).value)
  {
    HashedMeans(entries, extracted, hashes, ComparedPath(source));
    HashedMeans(entries, extracted, hashes, DifferencePath(source));
  }

  method DecodeComparisons(result: Json, extracted: seq<Extracted>, hashes: map<string, Digest>)
    returns (decoded: Result<seq<Comparison>, Message>)
    requires |extracted| == |List(result, "artifacts")|
    requires HashesOk(List(result, "artifacts"), extracted, |extracted|, hashes)
    ensures var entries, sources := List(result, "artifacts"), List(result, "visualComparisons");
            && (decoded.Ok? <==> forall i | 0 <= i < |sources| :: HasFile(entries, ComparedPath(sources[i])))
            && (decoded.Ok? ==>
                  (&& |decoded.value| == |sources|
                   && forall i | 0 <= i < |sources| :: Shows(entries, extracted, sources[i], decoded.value[i])))
  {
    var entries, sources := List(result, "artifacts"), List(result, "visualComparisons");
    var comparisons: seq<Comparison> := [];
    for k := 0 to |sources|
      invariant |comparisons| == k
      invariant forall i | 0 <= i < k :: HasFile(entries, ComparedPath(sources[i]))
      invariant forall i | 0 <= i < k :: Shows(entries, extracted, sources[i], comparisons[i])
    {
      var comparison := DecodedComparison(sources[k], hashes);
      DecodedShows(entries, extracted, hashes, sources[k]);
      if comparison.None? { return Err("visual comparison current artifact was not extracted"); }
      comparisons := comparisons + [comparison.value];
    }
    decoded := Ok(comparisons);
  }
}
