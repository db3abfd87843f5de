/** A browser verification run as it is stored: which results complete it, what they
    make of it, and what reviews can still change. */
module VerificationCompletion {
  import opened Common
  import opened JsonValue
  import opened VerificationOutcome

  const MAX_COLLECTION: nat := 1000
  const MAX_STORED_ARTIFACTS: nat := 64
  const MAX_STORED_COMPARISONS: nat := 128

  const ASSERTION_STATUSES: set<string> := {"passed", "failed", "error", "approved"}
  const COMPARISON_STATUSES: set<string> := {"matched", "different", "missing_baseline", "approved"}
  const CONSOLE_LEVELS: set<string> := {"debug", "info", "warning", "error", "critical"}
  const SEVERITIES: set<string> := {"warning", "critical"}

  // What a result says.

  /** Results the storage takes, as far as the outcome is modelled. */
  predicate Acceptable(o: Outcome) {
    && o.events <= MAX_COLLECTION && |o.assertions| <= MAX_COLLECTION && |o.artifacts| <= MAX_STORED_ARTIFACTS
    && |o.comparisons| <= MAX_STORED_COMPARISONS && |o.console| <= MAX_COLLECTION && |o.findings| <= MAX_COLLECTION
    && (forall r | r in o.assertions :: r.status in ASSERTION_STATUSES)
    && (forall c | c in o.comparisons :: c.status in COMPARISON_STATUSES)
    && (forall level | level in o.console :: level in CONSOLE_LEVELS)
    && (forall severity | severity in o.findings :: severity in SEVERITIES)
  }

  predicate Unmet(r: AssertionResult) {
    r.required && r.status !in {"passed", "approved"}
  }

  /** What no review can approve. Findings count where the definition says so (`strict`). */
  predicate Blocked(o: Outcome, strict: bool) {
    || (exists r | r in o.assertions :: Unmet(r))
    || (strict && "critical" in o.findings)
  }

  /** What somebody has to look at before the run goes through. */
  predicate Doubtful(o: Outcome, strict: bool) {
    || (exists c | c in o.comparisons :: c.status in {"different", "missing_baseline"})
    || "warning" in o.findings || (!strict && "critical" in o.findings)
    || "warning" in o.console
  }

  predicate Demands(result: Json, requirements: map<string, bool>) {
    Required(result, requirements) && TextOr(result, "status", "failed") !in {"passed", "approved"}
  }

  predicate HasGrave(audit: Json) {
    exists j | 0 <= j < |List(audit, "findings")| ::
      Text(List(audit, "findings")[j], "severity") == Some("error")
  }

  lemma GraveIffCritical(audit: Json)
    ensures HasGrave(audit) <==> "critical" in SeveritiesOf(audit)
  {
    var findings := List(audit, "findings");
    if j :| 0 <= j < |findings| && Text(findings[j], "severity") == Some("error") {
      assert SeveritiesOf(audit)[j] == "critical";
    }
    if "critical" in SeveritiesOf(audit) {
      var j :| 0 <= j < |findings| && SeveritiesOf(audit)[j] == "critical";
      assert SeverityOf(findings[j]) == "critical";
    }
  }

  lemma {:induction false} CriticalIff(audits: seq<Json>)
    ensures "critical" in DecodedFindings(audits) <==> exists i | 0 <= i < |audits| :: HasGrave(audits[i])
  {
    if audits != [] {
      GraveIffCritical(audits[0]);
      CriticalIff(audits[1..]);
      assert forall i | 0 < i < |audits| :: audits[i] == audits[1..][i - 1];
      assert (exists i | 0 <= i < |audits| :: HasGrave(audits[i]))
        <==> HasGrave(audits[0]) || exists i | 0 <= i < |audits[1..]| :: HasGrave(audits[1..][i]);
    }
  }

  lemma UnmetIff(result: Json, requirements: map<string, bool>)
    ensures (exists r | r in DecodedAssertions(result, requirements) :: Unmet(r))
       <==> RunnerFailed(result)
            || exists i | 0 <= i < |List(result, "assertions")| :: Demands(List(result, "assertions")[i], requirements)
  {
    var results, decoded := List(result, "assertions"), DecodedAssertions(result, requirements);
    if RunnerFailed(result) {
      assert decoded[|results|] == RUNNER_STATUS && Unmet(RUNNER_STATUS);
    }
    forall i | 0 <= i < |results| ensures Unmet(decoded[i]) <==> Demands(results[i], requirements) {
    }
    if i :| 0 <= i < |results| && Demands(results[i], requirements) {
      assert decoded[i] in decoded;
    }
  }

  /** A result blocks exactly when the run or a variant did not go through, an
      assertion whose author did not waive it is neither passed nor approved, or,
      where findings count, some audit of any attempt has a grave one. */
  lemma BlockedIff(o: Outcome, result: Json, requirements: map<string, bool>, strict: bool)
    requires Copied(o, result, requirements)
    ensures Blocked(o, strict)
       <==> || RunnerFailed(result)
            || (exists i | 0 <= i < |List(result, "assertions")| ::
                  Demands(List(result, "assertions")[i], requirements))
            || (strict && exists i | 0 <= i < |List(result, "accessibility")| ::
                  HasGrave(List(result, "accessibility")[i]))
  {
    UnmetIff(result, requirements);
    CriticalIff(List(result, "accessibility"));
  }

  // The stored run.

  datatype Stage = Queued | Running | Cancelled | Errored | Interrupted | Failed | NeedsReview | Passed | Approved

  /** `blocked` is what the completion counted, and decides about reviews. */
  datatype Record = Record(stage: Stage, blocked: bool)

  const FRESH: Record := Record(Queued, false)

  /** `sound` is whether the parts of a result that are not modelled are accepted. */
  datatype Step =
    | Start
    | Complete(outcome: Outcome, strict: bool, sound: bool)
    | Fail
    | Cancel
    | Restart
    | Review(approve: bool)

  function StageOf(o: Outcome, strict: bool): Stage {
    if Blocked(o, strict) then Failed else if Doubtful(o, strict) then NeedsReview else Passed
  }

  /** A step that is refused changes nothing. */
  function Next(r: Record, step: Step): Record {
    var open := r.stage in {Queued, Running};
    match step
    case Start => if r.stage == Queued then r.(stage := Running) else r
    case Complete(outcome, strict, sound) =>
      if r.stage == Running && sound && Acceptable(outcome)
      then Record(StageOf(outcome, strict), Blocked(outcome, strict)) else r
    case Fail => if open then r.(stage := Errored) else r
    case Cancel => if open then r.(stage := Cancelled) else r
    case Restart => if open then r.(stage := Interrupted) else r
    case Review(approve) =>
      if r.stage !in {NeedsReview, Failed} || (approve && r.blocked) then r
      else r.(stage := if approve then Approved else Failed)
  }

  /** In the storage's own terms: what a result makes of the run it completes. */
  lemma CompletionDecides(r: Record, o: Outcome, strict: bool)
    requires r.stage == Running && Acceptable(o)
    ensures var t := Next(r, Complete(o, strict, true));
            var unmet := exists a :: a in o.assertions && a.required && a.status != "passed" && a.status != "approved";
            var visual := exists c :: c in o.comparisons && (c.status == "different" || c.status == "missing_baseline");
            && (t.stage == Failed <==> (unmet || (strict && "critical" in o.findings)))
            && (t.stage == NeedsReview <==>
                  (t.stage != Failed
                   && (visual || "warning" in o.findings || "critical" in o.findings || "warning" in o.console)))
            && (t.stage == Passed <==> t.stage != Failed && t.stage != NeedsReview)
            && (t.blocked <==> t.stage == Failed)
  {
  }

  /** Which results are taken: within the limits on their parts, and with statuses,
      levels and severities that the storage knows. */
  lemma AcceptedIff(o: Outcome)
    ensures Acceptable(o) <==>
      && o.events <= 1000 && |o.assertions| <= 1000 && |o.console| <= 1000 && |o.findings| <= 1000
      && |o.artifacts| <= 64 && |o.comparisons| <= 128
      && (forall a | a in o.assertions ::
            a.status == "passed" || a.status == "failed" || a.status == "error" || a.status == "approved")
      && (forall c | c in o.comparisons ::
            || c.status == "matched" || c.status == "different"
            || c.status == "missing_baseline" || c.status == "approved")
      && (forall level | level in o.console ::
            level == "debug" || level == "info" || level == "warning" || level == "error" || level == "critical")
      && (forall severity | severity in o.findings :: severity == "warning" || severity == "critical")
  {
  }

  lemma RefusedChangesNothing(r: Record, o: Outcome, strict: bool, sound: bool)
    requires !Acceptable(o)
    ensures Next(r, Complete(o, strict, sound)) == r
  {
  }

  function After(r: Record, steps: seq<Step>): Record
    decreases |steps|
  {
    if steps == [] then r else After(Next(r, steps[0]), steps[1..])
  }

  predicate Through(r: Record) { r.stage in {Passed, Approved} }

  /** Step `k` completes the run. */
  predicate Completes(r: Record, steps: seq<Step>, k: nat)
    requires k < |steps|
  {
    After(r, steps[..k]).stage == Running && steps[k].Complete? && steps[k].sound && Acceptable(steps[k].outcome)
  }

  /** Step `k` completes the run with a result that is not blocked, and that nobody
      need look at or somebody approves after that. */
  predicate CompletesWell(r: Record, steps: seq<Step>, k: nat)
    requires k < |steps|
  {
    && Completes(r, steps, k) && !Blocked(steps[k].outcome, steps[k].strict)
    && (Doubtful(steps[k].outcome, steps[k].strict) ==> Review(true) in steps[k + 1..])
  }

  /** A decided run goes through exactly when it has, or is not blocked and approved. */
  lemma {:induction false} DecidedGoesThroughIff(r: Record, steps: seq<Step>)
    requires r.stage !in {Queued, Running}
    ensures After(r, steps).stage !in {Queued, Running}
    ensures Through(After(r, steps))
       <==> Through(r) || (r.stage in {NeedsReview, Failed} && !r.blocked && Review(true) in steps)
    decreases |steps|
  {
    if steps != [] {
      DecidedGoesThroughIff(Next(r, steps[0]), steps[1..]);
      assert Review(true) in steps <==> steps[0] == Review(true) || Review(true) in steps[1..];
    }
  }

  lemma AfterShift(r: Record, steps: seq<Step>, k: nat)
    requires 0 < k < |steps|
    ensures After(r, steps[..k]) == After(Next(r, steps[0]), steps[1..][..k - 1])
  {
    assert steps[..k][1..] == steps[1..][..k - 1];
  }

  lemma WellShift(r: Record, steps: seq<Step>, k: nat)
    requires 0 < k < |steps|
    ensures CompletesWell(r, steps, k) <==> CompletesWell(Next(r, steps[0]), steps[1..], k - 1)
  {
    AfterShift(r, steps, k);
    assert steps[1..][k - 1] == steps[k] && steps[1..][k - 1 + 1..] == steps[k + 1..];
  }

  lemma {:induction false} DecidedCompletesNever(r: Record, steps: seq<Step>, k: nat)
    requires r.stage !in {Queued, Running} && k < |steps|
    ensures !Completes(r, steps, k)
  {
    DecidedGoesThroughIff(r, steps[..k]);
  }

  lemma FirstOrLater(r: Record, steps: seq<Step>)
    requires steps != []
    ensures (exists k | 0 <= k < |steps| :: CompletesWell(r, steps, k))
       <==> || CompletesWell(r, steps, 0)
            || exists k | 0 <= k < |steps[1..]| :: CompletesWell(Next(r, steps[0]), steps[1..], k)
  {
    var t, rest := Next(r, steps[0]), steps[1..];
    if k :| 0 <= k < |steps| && CompletesWell(r, steps, k) {
      if k > 0 { WellShift(r, steps, k); }
    }
    if k :| 0 <= k < |rest| && CompletesWell(t, rest, k) { WellShift(r, steps, k + 1); }
  }

  /** In every run from the queue, whatever is asked of it in whatever order: it ends
      as passed or approved exactly when some accepted result was not blocked and
      was fine, or was approved later. */
  lemma {:induction false} GoesThroughIff(r: Record, steps: seq<Step>)
    requires r.stage in {Queued, Running}
    ensures Through(After(r, steps)) <==> exists k | 0 <= k < |steps| :: CompletesWell(r, steps, k)
    decreases |steps|
  {
    if steps != [] {
      var t, rest := Next(r, steps[0]), steps[1..];
      FirstOrLater(r, steps);
      assert steps[..0] == [];
      if t.stage in {Queued, Running} {
        GoesThroughIff(t, rest);
      } else {
        DecidedGoesThroughIff(t, rest);
        forall k | 0 <= k < |rest| ensures !CompletesWell(t, rest, k) { DecidedCompletesNever(t, rest, k); }
      }
    }
  }

  /** So once a run is completed as blocked no review lets it through. */
  lemma BlockedStaysBlocked(o: Outcome, strict: bool, reviews: seq<Step>)
    requires Acceptable(o) && Blocked(o, strict)
    ensures !Through(After(Record(Running, false), [Complete(o, strict, true)] + reviews))
  {
    var steps := [Complete(o, strict, true)] + reviews;
    assert steps[1..] == reviews;
    DecidedGoesThroughIff(Next(Record(Running, false), steps[0]), reviews);
  }

  // The row itself.

  method CountUnmet(results: seq<AssertionResult>) returns (count: nat)
    ensures count > 0 <==> exists r | r in results :: Unmet(r)
  {
    count := 0;
    for i := 0 to |results|
      invariant count > 0 <==> exists j | 0 <= j < i :: Unmet(results[j])
    {
      if results[i].required && results[i].status != "passed" && results[i].status != "approved" {
        count := count + 1;
      }
    }
    if count > 0 {
      var j :| 0 <= j < |results| && Unmet(results[j]);
      assert results[j] in results;
    }
  }

  method CountCritical(findings: seq<string>) returns (count: nat)
    ensures count > 0 <==> "critical" in findings
  {
    count := 0;
    for i := 0 to |findings|
      invariant count > 0 <==> "critical" in findings[..i]
    {
      assert findings[..i + 1] == findings[..i] + [findings[i]];
      if findings[i] == "critical" { count := count + 1; }
    }
    assert findings[..|findings|] == findings;
  }

  class RunRow {
    var stage: Stage
    var blocking: nat
    var critical: nat

    ghost function Now(): Record
      reads this
    {
      Record(stage, blocking > 0 || critical > 0)
    }

    constructor ()
      ensures Now() == FRESH
    {
      stage, blocking, critical := Queued, 0, 0;
    }

    /** Counts what blocks and stores the status that follows. */
    method Complete(o: Outcome, strict: bool, sound: bool) returns (accepted: bool)
      modifies this
      ensures Now() == Next(old(Now()), Step.Complete(o, strict, sound))
      ensures accepted <==> old(stage) == Running && sound && Acceptable(o)
    {
      accepted := stage == Running && sound && Acceptable(o);
      if !accepted { return; }
      blocking := CountUnmet(o.assertions);
      critical := 0;
      if strict { critical := CountCritical(o.findings); }
      stage := if blocking > 0 || critical > 0 then Failed
               else if Doubtful(o, strict) then NeedsReview else Passed;
    }

    method Review(approve: bool) returns (accepted: bool)
      modifies this
      ensures Now() == Next(old(Now()), Step.Review(approve))
      ensures accepted <==> old(stage) in {NeedsReview, Failed} && !(approve && old(Now().blocked))
    {
      accepted := (stage == NeedsReview || stage == Failed) && !(approve && (blocking > 0 || critical > 0));
      if accepted { stage := if approve then Approved else Failed; }
    }
  }
}
