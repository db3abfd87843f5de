/** From a run to its verdict: what the runner reports of a run, decoded, when that
    can be stored, and when it blocks. */
module VerificationVerdict {
  import opened Common
  import opened JsonValue
  import opened VerificationOutcome
  import opened VerificationCompletion
  import Run = VerificationRun

  // The runner's report.

  function StatusText(status: Run.Status): string {
    match status
    case Passed => "passed"
    case Failed => "failed"
    case Cancelled => "cancelled"
  }

  function PassedText(passed: bool): string {
    if passed then "passed" else "failed"
  }

  function VariantReport(end: Run.VariantEnd): Json {
    Object(map["status" := String(PassedText(end.Finished? && end.passed))])
  }

  function CheckReport(check: Run.Check, ids: nat -> string): Json {
    Object(map["stepId" := String(ids(check.step)), "status" := String(PassedText(check.passed))])
  }

  function FindingReport(severity: Run.Severity): Json {
    Object(map["severity" := String(if severity.Severe? then "error" else "warning")])
  }

  function FindingReports(findings: Run.Findings): seq<Json> {
    seq(|findings|, i requires 0 <= i < |findings| => FindingReport(findings[i]))
  }

  function AuditReport(findings: Run.Findings): Json {
    Object(map["findings" := Array(FindingReports(findings))])
  }

  function EntryReport(printed: Run.Printed): Json {
    Object(map["type" := String(printed.kind), "text" := String(printed.text)])
  }

  function VariantReports(results: seq<Run.VariantEnd>): seq<Json> {
    seq(|results|, i requires 0 <= i < |results| => VariantReport(results[i]))
  }

  function CheckReports(checks: seq<Run.Check>, ids: nat -> string): seq<Json> {
    seq(|checks|, i requires 0 <= i < |checks| => CheckReport(checks[i], ids))
  }

  function AuditReports(audits: seq<Run.Findings>): seq<Json> {
    seq(|audits|, i requires 0 <= i < |audits| => AuditReport(audits[i]))
  }

  function EntryReports(printed: seq<Run.Printed>): seq<Json> {
    seq(|printed|, i requires 0 <= i < |printed| => EntryReport(printed[i]))
  }

  /** What the runner sends back of what it has kept; `ids` gives the ids of its
      steps. Only the number of timeline entries and page errors matters here. */
  function Reported(end: Run.RunEnd, kept: Run.Trace, ids: nat -> string): Json {
    Object(map["status" := String(StatusText(end.status)),
               "variants" := Array(VariantReports(end.results)),
               "assertions" := Array(CheckReports(kept.checks, ids)),
               "accessibility" := Array(AuditReports(kept.audits)),
               "console" := Object(map["entries" := Array(EntryReports(kept.console))]),
               "pageErrors" := Array(seq(|kept.pageErrors|, _ => Null)),
               "timeline" := Array(seq(|kept.events|, _ => Null))])
  }

  function Report(variants: seq<Run.Variant>, aborted: bool, foa: bool, ids: nat -> string): Json {
    Reported(Run.EndOfRun(variants, aborted, foa), Run.Kept(Run.TraceOfRun(variants, aborted, foa)), ids)
  }

  /** What is decoded of a run's report, with the files that came with it. */
  function Left(variants: seq<Run.Variant>, aborted: bool, foa: bool, ids: nat -> string,
                requirements: map<string, bool>, files: Files): Outcome {
    OutcomeOf(Report(variants, aborted, foa, ids), requirements, files)
  }

  /** In terms of the report's texts: the run's status by its name, and each variant and
      each assertion as "passed" exactly if it passed and otherwise as "failed". */
  lemma ReportsTexts(end: Run.RunEnd, kept: Run.Trace, ids: nat -> string)
    ensures var r := Reported(end, kept, ids);
            && (end.status == Run.Passed ==> Text(r, "status") == Some("passed"))
            && (end.status == Run.Failed ==> Text(r, "status") == Some("failed"))
            && (end.status == Run.Cancelled ==> Text(r, "status") == Some("cancelled"))
    ensures var variants := List(Reported(end, kept, ids), "variants");
            && |variants| == |end.results|
            && forall i | 0 <= i < |variants| ::
                 Text(variants[i], "status") == Some(if IsPass(end.results[i]) then "passed" else "failed")
    ensures var checks := List(Reported(end, kept, ids), "assertions");
            && |checks| == |kept.checks|
            && forall i | 0 <= i < |checks| ::
                 && Text(checks[i], "stepId") == Some(ids(kept.checks[i].step))
                 && Text(checks[i], "status") == Some(if kept.checks[i].passed then "passed" else "failed")
  {
    ReportedParts(end, kept, ids);
    var r := Reported(end, kept, ids);
    forall i | 0 <= i < |end.results|
      ensures Text(List(r, "variants")[i], "status") == Some(if IsPass(end.results[i]) then "passed" else "failed")
    {
      assert List(r, "variants")[i] == VariantReport(end.results[i]);
    }
    forall i | 0 <= i < |kept.checks|
      ensures Text(List(r, "assertions")[i], "stepId") == Some(ids(kept.checks[i].step))
      ensures Text(List(r, "assertions")[i], "status") == Some(if kept.checks[i].passed then "passed" else "failed")
    {
      assert List(r, "assertions")[i] == CheckReport(kept.checks[i], ids);
    }
  }

  ghost predicate IsPass(end: Run.VariantEnd) { end.Finished? && end.passed }

  lemma ReportedParts(end: Run.RunEnd, kept: Run.Trace, ids: nat -> string)
    ensures var r := Reported(end, kept, ids);
            && TextOr(r, "status", "failed") == StatusText(end.status)
            && List(r, "variants") == VariantReports(end.results)
            && List(r, "assertions") == CheckReports(kept.checks, ids)
  {
  }

  lemma ReportedEvidence(end: Run.RunEnd, kept: Run.Trace, ids: nat -> string)
    ensures var r := Reported(end, kept, ids);
            && List(r, "accessibility") == AuditReports(kept.audits)
            && ConsoleEntries(r) == EntryReports(kept.console)
            && |List(r, "pageErrors")| == |kept.pageErrors| && |List(r, "timeline")| == |kept.events|
  {
  }

  // What it blocks.

  /** A failed assertion whose author does not waive it. */
  ghost predicate FailsRequired(checks: seq<Run.Check>, ids: nat -> string, requirements: map<string, bool>) {
    exists i | 0 <= i < |checks| :: !checks[i].passed && Demanded(ids(checks[i].step), requirements)
  }

  predicate Demanded(id: string, requirements: map<string, bool>) {
    id in requirements ==> requirements[id]
  }

  predicate FindsSevere(audits: seq<Run.Findings>) {
    exists i | 0 <= i < |audits| :: Run.Severe in audits[i]
  }

  predicate AllPassed(results: seq<Run.VariantEnd>) {
    forall i | 0 <= i < |results| :: results[i].Finished? && results[i].passed
  }

  lemma RunnerFailedIff(end: Run.RunEnd, kept: Run.Trace, ids: nat -> string)
    requires end.status == Run.Passed ==> AllPassed(end.results)
    ensures RunnerFailed(Reported(end, kept, ids)) <==> end.status != Run.Passed
  {
    var r := Reported(end, kept, ids);
    ReportedParts(end, kept, ids);
    if end.status == Run.Passed {
      forall i | 0 <= i < |List(r, "variants")|
        ensures TextOr(List(r, "variants")[i], "status", "") == "passed"
      {
        assert List(r, "variants")[i] == VariantReport(end.results[i]);
      }
    }
  }

  lemma CheckReportMeans(check: Run.Check, ids: nat -> string, requirements: map<string, bool>)
    ensures var r := CheckReport(check, ids);
            && (Required(r, requirements) <==> Demanded(ids(check.step), requirements))
            && TextOr(r, "status", "failed") == PassedText(check.passed)
            && (Demands(r, requirements) <==> !check.passed && Demanded(ids(check.step), requirements))
  {
  }

  lemma AuditReportMeans(findings: Run.Findings)
    ensures HasGrave(AuditReport(findings)) <==> Run.Severe in findings
  {
    var reports := List(AuditReport(findings), "findings");
    assert reports == FindingReports(findings);
    forall j | 0 <= j < |findings|
      ensures Text(reports[j], "severity") == Some("error") <==> findings[j] == Run.Severe
    {
      assert reports[j] == FindingReport(findings[j]);
    }
  }

  lemma ReportBlocksIff(end: Run.RunEnd, kept: Run.Trace, ids: nat -> string, requirements: map<string, bool>,
                        o: Outcome, strict: bool)
    requires end.status == Run.Passed ==> AllPassed(end.results)
    requires Copied(o, Reported(end, kept, ids), requirements)
    ensures Blocked(o, strict)
       <==> || end.status != Run.Passed || FailsRequired(kept.checks, ids, requirements)
            || (strict && FindsSevere(kept.audits))
  {
    var r := Reported(end, kept, ids);
    BlockedIff(o, r, requirements, strict);
    RunnerFailedIff(end, kept, ids);
    ReportedParts(end, kept, ids);
    ReportedEvidence(end, kept, ids);
    var checks, audits := List(r, "assertions"), List(r, "accessibility");
    forall i | 0 <= i < |kept.checks|
      ensures Demands(checks[i], requirements)
         <==> !kept.checks[i].passed && Demanded(ids(kept.checks[i].step), requirements)
    {
      CheckReportMeans(kept.checks[i], ids, requirements);
    }
    forall i | 0 <= i < |kept.audits| ensures HasGrave(audits[i]) <==> Run.Severe in kept.audits[i] {
      AuditReportMeans(kept.audits[i]);
    }
  }

  lemma PassedResultsPassed(variants: seq<Run.Variant>, aborted: bool, foa: bool)
    requires Run.EndOfRun(variants, aborted, foa).status == Run.Passed
    ensures AllPassed(Run.EndOfRun(variants, aborted, foa).results)
  {
    Run.ResultsFollowVariants(variants, 0, foa);
    var end := Run.EndOfRun(variants, aborted, foa);
    assert !Run.HasFailed(end.results);
  }

  /** A whole run is blocked exactly when it is not reported as passed, one of the
      first 512 assertions of any attempt, also one that was retried, failed and is
      required, or, where findings count, one of the first 64 audits of any attempt
      found something severe. */
  lemma RunBlocksIff(variants: seq<Run.Variant>, aborted: bool, foa: bool, ids: nat -> string,
                     requirements: map<string, bool>, files: Files, strict: bool)
    ensures var kept := Run.Kept(Run.TraceOfRun(variants, aborted, foa));
            Blocked(Left(variants, aborted, foa, ids, requirements, files), strict)
            <==> || Run.EndOfRun(variants, aborted, foa).status != Run.Passed
                 || FailsRequired(kept.checks, ids, requirements)
                 || (strict && FindsSevere(kept.audits))
  {
    var end := Run.EndOfRun(variants, aborted, foa);
    if end.status == Run.Passed { PassedResultsPassed(variants, aborted, foa); }
    ReportBlocksIff(end, Run.Kept(Run.TraceOfRun(variants, aborted, foa)), ids, requirements,
                    Left(variants, aborted, foa, ids, requirements, files), strict);
  }

  /** So "not blocked means that every variant passed" holds of a run exactly when no
      exception is hidden in it, or something else blocks it anyway. */
  lemma UnblockedIsHonestIff(variants: seq<Run.Variant>, aborted: bool, foa: bool, ids: nat -> string,
                             requirements: map<string, bool>, files: Files, strict: bool)
    ensures var kept := Run.Kept(Run.TraceOfRun(variants, aborted, foa));
            (!Blocked(Left(variants, aborted, foa, ids, requirements, files), strict) ==>
               forall i | 0 <= i < |variants| :: Run.VariantPasses(variants[i], foa))
            <==> || FailsRequired(kept.checks, ids, requirements) || (strict && FindsSevere(kept.audits))
                 || !exists k | 0 <= k < |variants| :: Run.HiddenEscape(variants, aborted, foa, k)
  {
    RunBlocksIff(variants, aborted, foa, ids, requirements, files, strict);
    Run.PassedIff(variants, aborted, foa);
    if k :| 0 <= k < |variants| && Run.HiddenEscape(variants, aborted, foa, k) {
      assert !Run.VariantPasses(variants[k], foa);
    }
  }

  /** A variant that passes on its second attempt. */
  function Retried(first: Run.Attempt): Run.Variant { Run.Variant(false, [first, Run.QUIET]) }

  lemma PassesOnRetry(first: Run.Attempt, foa: bool, error: Run.Error)
    requires Run.EndOf(first, foa) == Run.Fails(error)
    ensures Run.VariantPasses(Retried(first), foa)
    ensures Run.EndOfRun([Retried(first)], false, foa).status == Run.Passed
  {
    var v := Retried(first);
    assert Run.EndOf(Run.QUIET, foa).Succeeds?;
    Run.VariantEndFromIs(v.attempts, 0, "", foa, 1);
    assert Run.VariantPasses(v, foa);
    Run.PassedIff([v], false, foa);
  }

  lemma RetriedTrace(first: Run.Attempt, foa: bool, error: Run.Error)
    requires Run.EndOf(first, foa) == Run.Fails(error)
    ensures var trace := Run.TraceOfVariant(Retried(first), foa);
            trace.checks == Run.BodyTrace(first).checks && trace.audits == Run.BodyTrace(first).audits + [[]]
  {
    var v := Retried(first);
    assert Run.VariantTraceFrom(v.attempts, 0, foa)
        == Run.Plus(Run.AttemptTrace(first, 1, foa), Run.VariantTraceFrom(v.attempts, 1, foa));
    var last := Run.AttemptTrace(Run.QUIET, 2, foa);
    assert Run.VariantTraceFrom(v.attempts, 1, foa) == last;
    assert last.checks == [] && last.audits == [[]];
  }

  lemma TraceOfOne(v: Run.Variant, foa: bool)
    requires Run.EndOfVariant(v, foa).Finished?
    ensures var all, one := Run.TraceOfRun([v], false, foa), Run.TraceOfVariant(v, foa);
            all.checks == one.checks && all.audits == one.audits && all.console == one.console
  {
    var one := Run.TraceOfVariant(v, foa);
    assert Run.VariantsTraceFrom([v], 0, foa) == Run.Plus(one, Run.VariantsTraceFrom([v], 1, foa));
    Run.PlusNothing(one);
  }

  const FAILING_CHECK: Run.Attempt := Run.QUIET.(steps := [Run.Effect(false, None, None, Some(false), None)])

  /** A run that passes on a retry can still be blocked, by the assertion that
      failed the first time. */
  lemma RetriedPassCanBlock(ids: nat -> string, requirements: map<string, bool>, files: Files, strict: bool)
    requires Demanded(ids(0), requirements)
    ensures var variants := [Retried(FAILING_CHECK)];
            && Run.EndOfRun(variants, false, false).status == Run.Passed && Run.VariantPasses(variants[0], false)
            && Blocked(Left(variants, false, false, ids, requirements, files), strict)
  {
    var variants := [Retried(FAILING_CHECK)];
    PassesOnRetry(FAILING_CHECK, false, "assertion failed");
    RetriedTrace(FAILING_CHECK, false, "assertion failed");
    TraceOfOne(Retried(FAILING_CHECK), false);
    assert Run.BodyTrace(FAILING_CHECK).checks == [Run.Check(0, false)];
    var kept := Run.Kept(Run.TraceOfRun(variants, false, false));
    assert FailsRequired(kept.checks, ids, requirements) by { assert !kept.checks[0].passed; }
    RunBlocksIff(variants, false, false, ids, requirements, files, strict);
  }

  const SEVERE_AUDIT: Run.Attempt := Run.QUIET.(findings := [Run.Severe])

  /** Or by what an audit found then, although nothing is asserted; and by that alone. */
  lemma RetriedAuditCanBlock(ids: nat -> string, requirements: map<string, bool>, files: Files, strict: bool)
    ensures var variants := [Retried(SEVERE_AUDIT)];
            && Run.EndOfRun(variants, false, true).status == Run.Passed && Run.VariantPasses(variants[0], true)
            && (Blocked(Left(variants, false, true, ids, requirements, files), strict) <==> strict)
  {
    var variants := [Retried(SEVERE_AUDIT)];
    PassesOnRetry(SEVERE_AUDIT, true, "accessibility audit failed");
    RetriedTrace(SEVERE_AUDIT, true, "accessibility audit failed");
    TraceOfOne(Retried(SEVERE_AUDIT), true);
    assert Run.BodyTrace(SEVERE_AUDIT).audits == [[Run.Severe]];
    var kept := Run.Kept(Run.TraceOfRun(variants, false, true));
    assert kept.checks == [] && kept.audits[0] == [Run.Severe];
    RunBlocksIff(variants, false, true, ids, requirements, files, strict);
  }

  // Whether it is stored at all.

  /** The number of findings of all audits together. */
  function Total(audits: seq<Run.Findings>): nat {
    if audits == [] then 0 else |audits[0]| + Total(audits[1..])
  }

  lemma {:induction false} FindingsOfAudits(audits: seq<Run.Findings>)
    ensures |DecodedFindings(AuditReports(audits))| == Total(audits)
    ensures forall s | s in DecodedFindings(AuditReports(audits)) :: s in SEVERITIES
  {
    if audits != [] {
      assert AuditReports(audits)[0] == AuditReport(audits[0]);
      assert AuditReports(audits)[1..] == AuditReports(audits[1..]);
      assert List(AuditReport(audits[0]), "findings") == FindingReports(audits[0]);
      FindingsOfAudits(audits[1..]);
    }
  }

  /** Kinds of printing that the storage knows as levels; "log" is not among them. */
  predicate KnownKind(kind: string) { kind == "warn" || kind in CONSOLE_LEVELS }

  lemma LevelOfEntry(printed: Run.Printed)
    ensures LevelOf(EntryReport(printed)) in CONSOLE_LEVELS <==> KnownKind(printed.kind)
  {
    var fields := EntryReport(printed).fields;
    assert "level" !in fields && fields["type"] == String(printed.kind);
  }

  lemma LevelsKnownIff(printed: seq<Run.Printed>, levels: seq<string>, entries: seq<Json>, errors: nat)
    requires entries == EntryReports(printed)
    requires levels == seq(|entries|, i requires 0 <= i < |entries| => LevelOf(entries[i])) + seq(errors, _ => "error")
    ensures (forall level | level in levels :: level in CONSOLE_LEVELS)
       <==> forall p | p in printed :: KnownKind(p.kind)
  {
    forall i | 0 <= i < |printed| ensures levels[i] in CONSOLE_LEVELS <==> KnownKind(printed[i].kind) {
      assert entries[i] == EntryReport(printed[i]);
      LevelOfEntry(printed[i]);
    }
    if forall p | p in printed :: KnownKind(p.kind) {
      forall i | 0 <= i < |levels| ensures levels[i] in CONSOLE_LEVELS {
        if i < |printed| { assert printed[i] in printed; }
      }
    } else {
      var i :| 0 <= i < |printed| && !KnownKind(printed[i].kind);
      assert levels[i] in levels;
    }
  }

  lemma StatusesKnown(end: Run.RunEnd, kept: Run.Trace, ids: nat -> string, requirements: map<string, bool>)
    ensures var assertions := DecodedAssertions(Reported(end, kept, ids), requirements);
            && |assertions| <= |kept.checks| + 1
            && forall r | r in assertions :: r.status in ASSERTION_STATUSES
  {
    ReportedParts(end, kept, ids);
    var assertions := DecodedAssertions(Reported(end, kept, ids), requirements);
    forall i | 0 <= i < |assertions| ensures assertions[i].status in ASSERTION_STATUSES {
      if i < |kept.checks| { CheckReportMeans(kept.checks[i], ids, requirements); }
    }
  }

  /** The files and comparisons of an outcome are ones the storage takes. */
  predicate FilesFit(files: Files) {
    && |files.artifacts| <= MAX_STORED_ARTIFACTS && |files.comparisons| <= MAX_STORED_COMPARISONS
    && forall c | c in files.comparisons :: c.status in COMPARISON_STATUSES
  }

  /** What a run leaves is stored exactly when its files and comparisons fit, its
      timeline and its findings are at most 1000 each, and the pages printed nothing,
      among the last 200 entries, by a call the storage has no level for. */
  lemma AcceptableIff(variants: seq<Run.Variant>, aborted: bool, foa: bool, ids: nat -> string,
                      requirements: map<string, bool>, files: Files)
    ensures var kept := Run.Kept(Run.TraceOfRun(variants, aborted, foa));
            Acceptable(Left(variants, aborted, foa, ids, requirements, files))
            <==> && FilesFit(files) && |kept.events| <= MAX_COLLECTION && Total(kept.audits) <= MAX_COLLECTION
                 && forall p | p in kept.console :: KnownKind(p.kind)
  {
    var end, kept := Run.EndOfRun(variants, aborted, foa), Run.Kept(Run.TraceOfRun(variants, aborted, foa));
    var o := Left(variants, aborted, foa, ids, requirements, files);
    ReportedEvidence(end, kept, ids);
    StatusesKnown(end, kept, ids, requirements);
    FindingsOfAudits(kept.audits);
    LevelsKnownIff(kept.console, o.console, EntryReports(kept.console), |kept.pageErrors|);
  }

  /** So what a run leaves is refused, whatever its files, if a call that has no level
      printed one of the last entries of its console. */
  lemma UnknownKindIsNeverStored(variants: seq<Run.Variant>, aborted: bool, foa: bool, ids: nat -> string,
                                 requirements: map<string, bool>, files: Files, p: Run.Printed)
    requires p in Run.Kept(Run.TraceOfRun(variants, aborted, foa)).console && !KnownKind(p.kind)
    ensures !Acceptable(Left(variants, aborted, foa, ids, requirements, files))
  {
    AcceptableIff(variants, aborted, foa, ids, requirements, files);
  }

  function Printing(text: string): Run.Variant {
    Run.Variant(false, [Run.QUIET.(console := [Run.Printed("log", text)])])
  }

  lemma PrintingPasses(text: string)
    ensures Run.EndOfRun([Printing(text)], false, false).status == Run.Passed
    ensures Run.Kept(Run.TraceOfRun([Printing(text)], false, false)).console == [Run.Printed("log", text)]
  {
    var v := Printing(text);
    assert Run.EndOf(v.attempts[0], false).Succeeds?;
    assert Run.VariantPasses(v, false);
    Run.PassedIff([v], false, false);
    TraceOfOne(v, false);
  }

  /** A page that prints by `console.log` is enough: its run passes and is never
      completed. */
  lemma PrintedLogIsNeverStored(text: string, ids: nat -> string, requirements: map<string, bool>,
                                files: Files, r: Record, strict: bool, sound: bool)
    ensures Run.EndOfRun([Printing(text)], false, false).status == Run.Passed
    ensures Next(r, Complete(Left([Printing(text)], false, false, ids, requirements, files), strict, sound)) == r
  {
    PrintingPasses(text);
    UnknownKindIsNeverStored([Printing(text)], false, false, ids, requirements, files, Run.Printed("log", text));
    RefusedChangesNothing(r, Left([Printing(text)], false, false, ids, requirements, files), strict, sound);
  }
}
