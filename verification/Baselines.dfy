/** Approved visual baselines are put where the runner looks for them, and the
    runner, told never to update, compares against those bytes or reports none. */
module Baselines {
  import opened Common
  import opened ArtifactStore
  import opened JsonValue
  import opened VerificationSteps

  /** A baseline file of one definition: a variant's directory and a step's name. */
  datatype Key = Key(variant: string, name: string)

  type Files = map<Key, Bytes>

  datatype Baseline = Baseline(variant: string, digest: Digest)

  predicate IsComparingScreenshot(step: Json) {
    && step.Object? && Enabled(step.fields)
    && GetText(step.fields, "kind") == Some("screenshot") && Compares(step.fields)
  }

  /** A step is compared unless it, or the comparison, is switched off by a plain
      `false`; any other value, or none, leaves it on. */
  lemma ComparingIff(step: Json)
    ensures IsComparingScreenshot(step) <==>
      && step.Object? && "kind" in step.fields && step.fields["kind"] == String("screenshot")
      && ("enabled" in step.fields ==> step.fields["enabled"] != Bool(false))
      && ("compare" in step.fields ==> step.fields["compare"] != Bool(false))
  {
  }

  /** The first step that would be compared, if there is one. */
  function FirstComparing(steps: seq<Json>): (r: Option<Json>)
    ensures r.Some? <==> exists i | 0 <= i < |steps| :: IsComparingScreenshot(steps[i])
    ensures r.Some? ==> exists i | 0 <= i < |steps| ::
      steps[i] == r.value && IsComparingScreenshot(steps[i])
      && forall j | 0 <= j < i :: !IsComparingScreenshot(steps[j])
  {
    if steps == [] then None
    else if IsComparingScreenshot(steps[0]) then Some(steps[0])
    else
      var r := FirstComparing(steps[1..]);
      assert forall i | 1 <= i < |steps| :: steps[i] == steps[1..][i - 1];
      r
  }

  /** The id of that step, when it has one. */
  function ComparedStep(steps: Json): Option<string> {
    if !steps.Array? || FirstComparing(steps.items).None? then None
    else GetText(FirstComparing(steps.items).value.fields, "id")
  }

  /** The runner compares that step under the same name: its id. */
  lemma PreparedNameIsRunnerName(steps: Json)
    requires ComparedStep(steps).Some?
    ensures var fields := FirstComparing(steps.items).value.fields;
            var id := ComparedStep(steps).value;
            && KindOf(fields) == Some("screenshot") && TranslateStep("screenshot", fields).Ok?
            && Get(TranslateStep("screenshot", fields).value, "name") == Some(String(id))
            && Get(TranslateStep("screenshot", fields).value, "id") == Some(String(id))
            && Get(TranslateStep("screenshot", fields).value, "compare") == Some(Bool(true))
  {
    var fields := FirstComparing(steps.items).value.fields;
    StepTranslates("screenshot", fields, "name");
    StepTranslates("screenshot", fields, "id");
    StepTranslates("screenshot", fields, "compare");
  }

  /** The active baseline of a variant: the first one listed for it. */
  function Approved(baselines: seq<Baseline>, variant: string): Option<Digest> {
    if baselines == [] then None
    else if baselines[0].variant == variant then Some(baselines[0].digest)
    else Approved(baselines[1..], variant)
  }

  /** `baselines[i]` is the first one listed for a variant. */
  ghost predicate FirstListed(baselines: seq<Baseline>, variant: string, i: int) {
    && 0 <= i < |baselines| && baselines[i].variant == variant
    && forall j | 0 <= j < i :: baselines[j].variant != variant
  }

  lemma {:induction false} ApprovedIsFirst(baselines: seq<Baseline>, variant: string)
    ensures (forall i | 0 <= i < |baselines| :: baselines[i].variant != variant)
            ==> Approved(baselines, variant) == None
    ensures forall i | FirstListed(baselines, variant, i) ::
              Approved(baselines, variant) == Some(baselines[i].digest)
    ensures Approved(baselines, variant).Some? ==> exists i :: FirstListed(baselines, variant, i)
  {
    if baselines != [] {
      var rest := baselines[1..];
      assert forall i | 0 <= i < |rest| :: rest[i] == baselines[i + 1];
      if baselines[0].variant == variant {
        assert FirstListed(baselines, variant, 0);
      } else {
        ApprovedIsFirst(rest, variant);
        forall i ensures FirstListed(rest, variant, i - 1) <==> FirstListed(baselines, variant, i) {
          assert FirstListed(rest, variant, i - 1) ==> forall j | 1 <= j < i :: rest[j - 1] == baselines[j];
        }
        if i :| FirstListed(rest, variant, i) {
          assert FirstListed(baselines, variant, i + 1);
        }
      }
    }
  }

  /** The file exists exactly when a baseline is approved, and holds its bytes. */
  predicate Prepared(files: Files, baselines: seq<Baseline>, key: Key) {
    match Approved(baselines, key.variant)
    case None => key !in files
    case Some(digest) => key in files && files[key] == digest.content
  }

  predicate Intact(store: Artifacts, digest: Digest) {
    digest in store && store[digest] == digest.content
  }

  predicate Available(store: Artifacts, baselines: seq<Baseline>, variant: string) {
    Approved(baselines, variant).Some? ==> Intact(store, Approved(baselines, variant).value)
  }

  datatype Policy = Never | Missing | Always

  /** One screenshot step carried out by the runner. */
  datatype Capture = Capture(key: Key, compare: bool, current: Bytes)

  datatype Verdict = NotCompared | Created | Updated | ComparedWith(baseline: Bytes)

  function VerdictOf(files: Files, policy: Policy, c: Capture): Verdict {
    if !c.compare then NotCompared
    else if c.key !in files then Created
    else if policy == Always then Updated
    else ComparedWith(files[c.key])
  }

  function FilesAfter(files: Files, policy: Policy, c: Capture): Files {
    match VerdictOf(files, policy, c)
    case Created => if policy == Never then files else files[c.key := c.current]
    case Updated => files[c.key := c.current]
    case _ => files
  }

  /** A capture leaves the baselines alone under "never", and otherwise only if
      it replaces nothing or replaces bytes by the same bytes. */
  lemma CaptureKeepsFilesIff(files: Files, policy: Policy, c: Capture)
    ensures FilesAfter(files, policy, c) == files
       <==> !c.compare || policy == Never || (c.key in files && (policy == Missing || files[c.key] == c.current))
  {
  }

  /** The baselines and, per baseline, the bytes kept when it was replaced. */
  class BaselineDirectory {
    var files: Files
    var history: map<Key, set<Bytes>>

    constructor (files: Files)
      ensures this.files == files && history == map[]
    {
      this.files, history := files, map[];
    }

    /** Before a run: every variant's file for the compared step is made to agree
        with the approved baselines, and no other file is touched. A baseline
        that the artifact store cannot give back ends the preparation there. */
    method Prepare(steps: Json, variants: seq<string>, baselines: seq<Baseline>, store: Artifacts)
      returns (error: Option<Message>)
      modifies this
      ensures history == old(history)
      ensures ComparedStep(steps).None? ==> error.None? && files == old(files)
      ensures ComparedStep(steps).Some? ==>
        var id := ComparedStep(steps).value;
        && (error.None? <==> forall i | 0 <= i < |variants| :: Available(store, baselines, variants[i]))
        && (error.None? ==> forall i | 0 <= i < |variants| :: Prepared(files, baselines, Key(variants[i], id)))
        && (forall key: Key | key.name != id || key.variant !in variants :: SameFile(old(files), files, key))
        && (forall key: Key :: SameFile(old(files), files, key) || Prepared(files, baselines, key))
        && (forall key: Key | key.name != id || key.variant !in variants ::
              (key in files <==> key in old(files)) && (key in files ==> files[key] == old(files)[key]))
      // In terms of the list: the file of a variant holds the content of the first
      // baseline listed for it, and is absent if there is none.
      ensures ComparedStep(steps).Some? && error.None? ==>
        forall v | v in variants :: var key := Key(v, ComparedStep(steps).value);
          && ((forall i | 0 <= i < |baselines| :: baselines[i].variant != v) ==> key !in files)
          && (forall i | FirstListed(baselines, v, i) :: key in files && files[key] == baselines[i].digest.content)
      ensures ComparedStep(steps).Some? ==>
        (error.Some? <==>
          (exists v, i :: v in variants && FirstListed(baselines, v, i)
            && !(baselines[i].digest in store && store[baselines[i].digest] == baselines[i].digest.content)))
    {
      var id := ComparedStep(steps);
      if id.None? { return None; }
      for k := 0 to |variants|
        invariant history == old(history)
        invariant forall i | 0 <= i < k :: Available(store, baselines, variants[i])
        invariant forall i | 0 <= i < k :: Prepared(files, baselines, Key(variants[i], id.value))
        invariant forall key: Key | key.name != id.value || key.variant !in variants :: SameFile(old(files), files, key)
        invariant forall key: Key :: SameFile(old(files), files, key) || Prepared(files, baselines, key)
      {
        ghost var before := files;
        var target := Key(variants[k], id.value);
        var approved := Approved(baselines, variants[k]);
        if approved.Some? {
          ApprovedIsFirst(baselines, variants[k]);
          if !Intact(store, approved.value) { return Some("artifact is missing or damaged"); }
          var staged := store[approved.value];
          files := files - {target};
          files := files[target := staged];
        } else {
          files := files - {target};
        }
        assert Prepared(files, baselines, target);
        forall key: Key | key != target
          ensures SameFile(old(files), before, key) ==> SameFile(old(files), files, key)
          ensures Prepared(before, baselines, key) ==> Prepared(files, baselines, key)
        {
          assert SameFile(before, files, key);
        }
      }
      error := None;
      forall v | v in variants
        ensures Prepared(files, baselines, Key(v, id.value)) && Available(store, baselines, v)
        ensures (forall i | 0 <= i < |baselines| :: baselines[i].variant != v) ==> Approved(baselines, v) == None
        ensures forall i | FirstListed(baselines, v, i) :: Approved(baselines, v) == Some(baselines[i].digest)
      {
        var i :| 0 <= i < |variants| && variants[i] == v;
        ApprovedIsFirst(baselines, v);
      }
    }

    method CaptureVisual(policy: Policy, c: Capture) returns (verdict: Verdict)
      modifies this
      ensures verdict == VerdictOf(old(files), policy, c)
      ensures files == FilesAfter(old(files), policy, c)
      // Case by case: no comparison asked for, no baseline there, one to be replaced, one
      // to compare with.
      ensures !c.compare ==> verdict == NotCompared && files == old(files)
      ensures c.compare && c.key !in old(files) ==>
        verdict == Created && files == if policy == Never then old(files) else old(files)[c.key := c.current]
      ensures c.compare && c.key in old(files) && policy == Always ==>
        verdict == Updated && files == old(files)[c.key := c.current]
      ensures c.compare && c.key in old(files) && policy != Always ==>
        verdict == ComparedWith(old(files)[c.key]) && files == old(files)
      ensures forall key | key in old(files) && (key !in files || files[key] != old(files)[key]) ::
        key in history && old(files)[key] in history[key]
      ensures forall key | key in old(history) :: key in history && old(history)[key] <= history[key]
    {
      if !c.compare { return NotCompared; }
      var present := c.key in files;
      if !present && policy == Never { return Created; }
      if !present || policy == Always {
        if present {
          var kept := if c.key in history then history[c.key] else {};
          history := history[c.key := kept + {files[c.key]}];
        }
        files := files[c.key := c.current];
        return if present then Updated else Created;
      }
      verdict := ComparedWith(files[c.key]);
    }

    /** All captures of a run, in whatever order and however often retried. */
    method RunCaptures(captures: seq<Capture>) returns (verdicts: seq<Verdict>)
      modifies this
      ensures files == old(files) && |verdicts| == |captures|
      ensures forall i | 0 <= i < |captures| :: verdicts[i] == VerdictOf(files, Never, captures[i])
    {
      verdicts := [];
      for k := 0 to |captures|
        invariant files == old(files) && |verdicts| == k
        invariant forall i | 0 <= i < k :: verdicts[i] == VerdictOf(files, Never, captures[i])
      {
        var verdict := CaptureVisual(Never, captures[k]);
        CaptureKeepsFilesIff(files, Never, captures[k]);
        verdicts := verdicts + [verdict];
      }
    }

    /** A whole run: every comparison of the prepared step is with the approved
        bytes, or is reported as created exactly when nothing is approved. A
        comparison of any other step is with whatever file was there before. */
    method PrepareAndRun(steps: Json, variants: seq<string>, baselines: seq<Baseline>, store: Artifacts,
                         captures: seq<Capture>) returns (error: Option<Message>, verdicts: seq<Verdict>)
      requires ComparedStep(steps).Some?
      modifies this
      ensures error.None? ==> |verdicts| == |captures| && forall i | 0 <= i < |captures| && captures[i].compare ::
        var key := captures[i].key;
        verdicts[i] ==
          if key.name == ComparedStep(steps).value && key.variant in variants then
            match Approved(baselines, key.variant)
            case None => Created
            case Some(digest) => ComparedWith(digest.content)
          else if key in old(files) then ComparedWith(old(files)[key]) else Created
      // In terms of the list of baselines.
      ensures error.None? ==> |verdicts| == |captures| && forall i | 0 <= i < |captures| && captures[i].compare
        && captures[i].key.name == ComparedStep(steps).value && captures[i].key.variant in variants ::
          var v := captures[i].key.variant;
          && ((forall j | 0 <= j < |baselines| :: baselines[j].variant != v) ==> verdicts[i] == Created)
          && (forall j | FirstListed(baselines, v, j) :: verdicts[i] == ComparedWith(baselines[j].digest.content))
    {
      verdicts := [];
      error := Prepare(steps, variants, baselines, store);
      if error.Some? { return; }
      verdicts := RunCaptures(captures);
      forall i | 0 <= i < |captures| && captures[i].key.variant in variants
        && captures[i].key.name == ComparedStep(steps).value
        ensures Prepared(files, baselines, captures[i].key)
        ensures var v := captures[i].key.variant;
          && ((forall j | 0 <= j < |baselines| :: baselines[j].variant != v) ==> Approved(baselines, v) == None)
          && (forall j | FirstListed(baselines, v, j) :: Approved(baselines, v) == Some(baselines[j].digest))
      {
        ApprovedIsFirst(baselines, captures[i].key.variant);
        var j :| 0 <= j < |variants| && variants[j] == captures[i].key.variant;
        assert captures[i].key == Key(variants[j], ComparedStep(steps).value);
      }
    }
  }

  predicate SameFile(before: Files, after: Files, key: Key) {
    if key in before then key in after && after[key] == before[key] else key !in after
  }
}
