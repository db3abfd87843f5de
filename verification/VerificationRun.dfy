/** A browser verification run: variants, retries, what an exception does to the
    result, and the bounded logs that survive every retry. */
module VerificationRun {
  import opened Common

  const MAX_CAPTURE_ENTRIES: nat := 200
  const MAX_TIMELINE_ENTRIES: nat := 2048
  const MAX_ASSERTIONS: nat := 512
  const MAX_ACCESSIBILITY_AUDITS: nat := 64

  type Error = string

  // What the browser does in one attempt. Everything here is the outside world's choice.

  /** How grave a finding of an accessibility audit is: an error or a warning. */
  datatype Severity = Severe | Mild

  type Findings = seq<Severity>

  /** What a page prints, with the kind of call that printed it. */
  datatype Printed = Printed(kind: string, text: string)

  /** A step is not begun when the signal is set by then (`abortedBefore`). It may
      throw before anything is recorded, record an accessibility audit, assert, and
      throw after that. */
  datatype Effect = Effect(
    abortedBefore: bool, before: Option<Error>, found: Option<Findings>, check: Option<bool>, after: Option<Error>)

  /** `launch` is an error up to the first navigation, `audit` one from the last
      accessibility audit and `findings` what it finds. `aborted` says whether the
      signal is set when the catch block ends; `catching` and `cleanup` are errors
      thrown inside the catch and the finally block. */
  datatype Attempt = Attempt(
    launch: Option<Error>, steps: seq<Effect>, audit: Option<Error>, findings: Findings,
    aborted: bool, catching: Option<Error>, cleanup: Option<Error>,
    console: seq<Printed>, network: seq<string>, pageErrors: seq<string>)

  /** `attempts` holds one attempt for each try the definition allows. */
  datatype Variant = Variant(abortedBefore: bool, attempts: seq<Attempt>)

  datatype Event =
    | RunStarted
    | RunError(error: Error)
    | RunFinished(status: Status)
    | VariantStarted(attempt: nat)
    | NavigationCompleted
    | StepStarted(step: nat)
    | StepFinished(step: nat)
    | AccessibilityCompleted(failed: bool)
    | AttemptFailed(attempt: nat, error: Error)
    | VariantFinished(attempt: nat, passed: bool)

  datatype Check = Check(step: nat, passed: bool)

  datatype Status = Passed | Failed | Cancelled

  datatype Numbered<T> = Numbered(sequence: nat, value: T)

  function NumberFrom1<T>(values: seq<T>): seq<Numbered<T>> {
    seq(|values|, i requires 0 <= i < |values| => Numbered(i + 1, values[i]))
  }

  /** Everything emitted, in order and without bounds. */
  datatype Trace = Trace(events: seq<Event>, checks: seq<Check>, audits: seq<Findings>,
                         console: seq<Printed>, network: seq<string>, pageErrors: seq<string>)

  const NOTHING: Trace := Trace([], [], [], [], [], [])

  function Plus(t: Trace, u: Trace): Trace {
    Trace(t.events + u.events, t.checks + u.checks, t.audits + u.audits, t.console + u.console,
          t.network + u.network, t.pageErrors + u.pageErrors)
  }

  function Said(event: Event): Trace { NOTHING.(events := [event]) }

  lemma PlusIsAssociative(t: Trace, u: Trace, v: Trace)
    ensures Plus(Plus(t, u), v) == Plus(t, Plus(u, v))
  {
    assert (t.events + u.events) + v.events == t.events + (u.events + v.events);
    assert (t.checks + u.checks) + v.checks == t.checks + (u.checks + v.checks);
    assert (t.audits + u.audits) + v.audits == t.audits + (u.audits + v.audits);
    assert (t.console + u.console) + v.console == t.console + (u.console + v.console);
    assert (t.network + u.network) + v.network == t.network + (u.network + v.network);
    assert (t.pageErrors + u.pageErrors) + v.pageErrors == t.pageErrors + (u.pageErrors + v.pageErrors);
  }

  lemma PlusNothing(t: Trace)
    ensures Plus(t, NOTHING) == t && Plus(NOTHING, t) == t
  {
  }

  // The meaning of a run, as functions.

  function StepError(effect: Effect): Option<Error> {
    if effect.abortedBefore then Some("operation cancelled")
    else if effect.before.Some? then effect.before
    else if effect.check == Some(false) then Some("assertion failed")
    else effect.after
  }

  /** What a step records, an audit before its assertion. */
  function Recorded(k: nat, effect: Effect): Trace {
    NOTHING.(checks := if effect.check.Some? then [Check(k, effect.check.value)] else [],
             audits := if effect.found.Some? then [effect.found.value] else [])
  }

  function StepTrace(k: nat, effect: Effect): Trace {
    if effect.abortedBefore then NOTHING else
    (if effect.before.None? then Recorded(k, effect) else NOTHING).(
      events := [StepStarted(k)] + if StepError(effect).None? then [StepFinished(k)] else [])
  }

  /** From step `k` to the end or the first error. */
  function StepsError(steps: seq<Effect>, k: nat): Option<Error>
    requires k <= |steps|
    decreases |steps| - k
  {
    if k == |steps| then None
    else if StepError(steps[k]).Some? then StepError(steps[k])
    else StepsError(steps, k + 1)
  }

  function StepsTrace(steps: seq<Effect>, k: nat): Trace
    requires k <= |steps|
    decreases |steps| - k
  {
    if k == |steps| then NOTHING
    else if StepError(steps[k]).Some? then StepTrace(k, steps[k])
    else Plus(StepTrace(k, steps[k]), StepsTrace(steps, k + 1))
  }

  /** The first error of the try block. */
  function BodyError(a: Attempt, failOnAccessibility: bool): Option<Error> {
    if a.launch.Some? then a.launch
    else if StepsError(a.steps, 0).Some? then StepsError(a.steps, 0)
    else if a.audit.Some? then a.audit
    else if failOnAccessibility && Severe in a.findings then Some("accessibility audit failed")
    else None
  }

  /** The audit that ends an attempt is recorded before its event. */
  function Audited(findings: Findings): Trace {
    Said(AccessibilityCompleted(Severe in findings)).(audits := [findings])
  }

  function BodyTrace(a: Attempt): Trace {
    if a.launch.Some? then NOTHING
    else if StepsError(a.steps, 0).Some? then Plus(Said(NavigationCompleted), StepsTrace(a.steps, 0))
    else if a.audit.Some? then Plus(Said(NavigationCompleted), StepsTrace(a.steps, 0))
    else Plus(Plus(Said(NavigationCompleted), StepsTrace(a.steps, 0)), Audited(a.findings))
  }

  /** `Escapes` leaves the retry loop with an exception. */
  datatype AttemptEnd = Succeeds | Fails(error: Error) | Escapes(error: Error)

  function EndOf(a: Attempt, failOnAccessibility: bool): AttemptEnd {
    if a.cleanup.Some? then Escapes(a.cleanup.value) else
    match BodyError(a, failOnAccessibility)
    case None => Succeeds
    case Some(error) =>
      if a.catching.Some? then Escapes(a.catching.value)
      else if a.aborted then Escapes(error) else Fails(error)
  }

  /** One attempt's output, whether or not it reaches the run's logs. */
  function Output(a: Attempt): Trace { Trace([], [], [], a.console, a.network, a.pageErrors) }

  /** The logs of an attempt are merged only if its clean-up does not throw. */
  function AttemptTrace(a: Attempt, n: nat, failOnAccessibility: bool): Trace {
    var ending := match BodyError(a, failOnAccessibility)
      case None => VariantFinished(n, true)
      case Some(error) => AttemptFailed(n, error);
    var talk := Plus(Plus(Said(VariantStarted(n)), BodyTrace(a)), Said(ending));
    if a.cleanup.Some? then talk
    else Plus(talk, Output(a))
  }

  datatype VariantEnd = Finished(passed: bool, attempts: nat, error: Error) | Threw(error: Error)

  /** From attempt `k`, counted from 0, on; `lastError` is the one before it. */
  function VariantEndFrom(attempts: seq<Attempt>, k: nat, lastError: Error, foa: bool): VariantEnd
    requires k <= |attempts|
    decreases |attempts| - k
  {
    if k == |attempts| then Finished(false, |attempts|, lastError) else
    match EndOf(attempts[k], foa)
    case Succeeds => Finished(true, k + 1, "")
    case Escapes(error) => Threw(error)
    case Fails(error) => VariantEndFrom(attempts, k + 1, error, foa)
  }

  function VariantTraceFrom(attempts: seq<Attempt>, k: nat, foa: bool): Trace
    requires k <= |attempts|
    decreases |attempts| - k
  {
    if k == |attempts| then Said(VariantFinished(|attempts|, false))
    else if EndOf(attempts[k], foa).Fails?
    then Plus(AttemptTrace(attempts[k], k + 1, foa), VariantTraceFrom(attempts, k + 1, foa))
    else AttemptTrace(attempts[k], k + 1, foa)
  }

  function EndOfVariant(v: Variant, foa: bool): VariantEnd {
    if v.abortedBefore then Threw("operation cancelled") else VariantEndFrom(v.attempts, 0, "", foa)
  }

  function TraceOfVariant(v: Variant, foa: bool): Trace {
    if v.abortedBefore then NOTHING else VariantTraceFrom(v.attempts, 0, foa)
  }

  /** The exception that ends the loop over the variants from `k` on, if one does. */
  function EscapedFrom(variants: seq<Variant>, k: nat, foa: bool): Option<Error>
    requires k <= |variants|
    decreases |variants| - k
  {
    if k == |variants| then None else
    match EndOfVariant(variants[k], foa)
    case Threw(error) => Some(error)
    case Finished(_, _, _) => EscapedFrom(variants, k + 1, foa)
  }

  function ResultsFrom(variants: seq<Variant>, k: nat, foa: bool): seq<VariantEnd>
    requires k <= |variants|
    decreases |variants| - k
  {
    if k == |variants| || EndOfVariant(variants[k], foa).Threw? then []
    else [EndOfVariant(variants[k], foa)] + ResultsFrom(variants, k + 1, foa)
  }

  function VariantsTraceFrom(variants: seq<Variant>, k: nat, foa: bool): Trace
    requires k <= |variants|
    decreases |variants| - k
  {
    if k == |variants| then NOTHING
    else if EndOfVariant(variants[k], foa).Threw? then TraceOfVariant(variants[k], foa)
    else Plus(TraceOfVariant(variants[k], foa), VariantsTraceFrom(variants, k + 1, foa))
  }

  predicate CancelledAt(error: Error, i: nat) {
    i + 9 <= |error| && error[i..i + 9] == "cancelled"
  }

  /** An error counts as a cancellation when the signal is set or its text says so. */
  predicate IsCancellation(error: Error, aborted: bool) {
    aborted || exists i | 0 <= i < |error| :: CancelledAt(error, i)
  }

  predicate HasFailed(results: seq<VariantEnd>) {
    exists k | 0 <= k < |results| :: results[k].Finished? && !results[k].passed
  }

  datatype RunEnd = RunEnd(status: Status, results: seq<VariantEnd>)

  function EndOfRun(variants: seq<Variant>, aborted: bool, foa: bool): RunEnd {
    var results := ResultsFrom(variants, 0, foa);
    match EscapedFrom(variants, 0, foa)
    case None => RunEnd(if HasFailed(results) then Failed else Passed, results)
    case Some(error) =>
      if IsCancellation(error, aborted) then RunEnd(Cancelled, results)
      else
        var shown := if results == [] then [Finished(false, 1, error)] else results;
        RunEnd(if HasFailed(shown) then Failed else Passed, shown)
  }

  function TraceOfRun(variants: seq<Variant>, aborted: bool, foa: bool): Trace {
    var body := Plus(Said(RunStarted), VariantsTraceFrom(variants, 0, foa));
    var escaped := EscapedFrom(variants, 0, foa);
    Plus(if escaped.Some? && !IsCancellation(escaped.value, aborted)
         then Plus(body, Said(RunError(escaped.value))) else body,
         Said(RunFinished(EndOfRun(variants, aborted, foa).status)))
  }

  // What that means.

  /** Every attempt before number `n`, counted from 0, fails without escaping. */
  predicate AllFail(attempts: seq<Attempt>, n: nat, foa: bool)
    requires n <= |attempts|
  {
    forall k | 0 <= k < n :: EndOf(attempts[k], foa).Fails?
  }

  /** The first attempt that does not fail is `k`, and it escapes. */
  predicate FirstEscape(attempts: seq<Attempt>, k: int, foa: bool) {
    0 <= k < |attempts| && AllFail(attempts, k, foa) && EndOf(attempts[k], foa).Escapes?
  }

  lemma {:induction false} VariantEndFromIs(attempts: seq<Attempt>, k: nat, lastError: Error, foa: bool, n: nat)
    requires k <= n <= |attempts| && (forall i | k <= i < n :: EndOf(attempts[i], foa).Fails?)
    requires n < |attempts| ==> !EndOf(attempts[n], foa).Fails?
    ensures VariantEndFrom(attempts, k, lastError, foa) ==
      if n == |attempts| then Finished(false, n, if n == k then lastError else EndOf(attempts[n - 1], foa).error)
      else match EndOf(attempts[n], foa)
           case Succeeds => Finished(true, n + 1, "")
           case Escapes(error) => Threw(error)
    decreases n - k
  {
    if k < n { VariantEndFromIs(attempts, k + 1, EndOf(attempts[k], foa).error, foa, n); }
  }

  lemma {:induction false} FirstUnfailing(attempts: seq<Attempt>, k: nat, foa: bool) returns (n: nat)
    requires k <= |attempts| && AllFail(attempts, k, foa)
    ensures k <= n <= |attempts| && AllFail(attempts, n, foa)
    ensures n < |attempts| ==> !EndOf(attempts[n], foa).Fails?
    decreases |attempts| - k
  {
    if k < |attempts| && EndOf(attempts[k], foa).Fails? { n := FirstUnfailing(attempts, k + 1, foa); }
    else { n := k; }
  }

  /** A variant passes on attempt `n` exactly when that attempt succeeds and each
      one before it fails; it fails exactly when every attempt does; and it
      throws exactly when it is not begun, because of the signal, or the first
      attempt that does not fail escapes. */
  lemma VariantOutcome(v: Variant, foa: bool, n: nat)
    ensures (exists e :: EndOfVariant(v, foa) == Finished(true, n, e))
       <==> !v.abortedBefore && 1 <= n <= |v.attempts| && AllFail(v.attempts, n - 1, foa)
            && EndOf(v.attempts[n - 1], foa).Succeeds?
    ensures (exists e :: EndOfVariant(v, foa) == Finished(false, n, e))
       <==> !v.abortedBefore && n == |v.attempts| && AllFail(v.attempts, n, foa)
    ensures (exists e :: EndOfVariant(v, foa) == Threw(e))
       <==> v.abortedBefore || exists k :: FirstEscape(v.attempts, k, foa)
  {
    if !v.abortedBefore {
      var first := FirstUnfailing(v.attempts, 0, foa);
      VariantEndFromIs(v.attempts, 0, "", foa, first);
      var end := EndOfVariant(v, foa);
      if end.Finished? { assert end == Finished(end.passed, end.attempts, end.error); }
      if end.Threw? { assert FirstEscape(v.attempts, first, foa) && end == Threw(end.error); }
      if k :| FirstEscape(v.attempts, k, foa) { assert k == first; }
    } else {
      assert EndOfVariant(v, foa) == Threw("operation cancelled");
    }
  }

  lemma {:induction false} StepsChecks(steps: seq<Effect>, k: nat)
    requires k <= |steps|
    ensures StepsError(steps, k).None? ==>
      forall c | c in StepsTrace(steps, k).checks :: c.passed
    decreases |steps| - k
  {
    if k < |steps| && StepError(steps[k]).None? { StepsChecks(steps, k + 1); }
  }

  /** An attempt that succeeds made no failing assertion. */
  lemma SuccessMeansNoFailedCheck(a: Attempt, n: nat, foa: bool)
    requires EndOf(a, foa).Succeeds?
    ensures forall c | c in AttemptTrace(a, n, foa).checks :: c.passed
  {
    StepsChecks(a.steps, 0);
  }

  /** The steps from `k` on that end without an error, before the first that does not. */
  function Finishing(steps: seq<Effect>, k: nat): nat
    requires k <= |steps|
    decreases |steps| - k
  {
    if k == |steps| || StepError(steps[k]).Some? then 0 else 1 + Finishing(steps, k + 1)
  }

  /** `n` steps from `k` on, each started and finished before the next. */
  function OneByOne(k: nat, n: nat): seq<Event>
    decreases n
  {
    if n == 0 then [] else [StepStarted(k), StepFinished(k)] + OneByOne(k + 1, n - 1)
  }

  /** The step that has the first error, left unfinished if it was started. */
  function Unfinished(steps: seq<Effect>, k: nat): seq<Event>
    requires k <= |steps|
    decreases |steps| - k
  {
    if k == |steps| then []
    else if StepError(steps[k]).None? then Unfinished(steps, k + 1)
    else if steps[k].abortedBefore then [] else [StepStarted(k)]
  }

  lemma {:induction false} ErrorEndsSteps(steps: seq<Effect>, k: nat)
    requires k <= |steps|
    ensures var first := k + Finishing(steps, k);
            first <= |steps| && StepsError(steps, k) == if first < |steps| then StepError(steps[first]) else None
    decreases |steps| - k
  {
    if k < |steps| && StepError(steps[k]).None? { ErrorEndsSteps(steps, k + 1); }
  }

  lemma EventsOfStep(k: nat, effect: Effect)
    ensures StepTrace(k, effect).events
         == if effect.abortedBefore then []
            else if StepError(effect).Some? then [StepStarted(k)] else [StepStarted(k), StepFinished(k)]
  {
  }

  /** The events of the steps from `k` on. */
  function StepsEvents(steps: seq<Effect>, k: nat): seq<Event>
    requires k <= |steps|
  {
    StepsTrace(steps, k).events
  }

  lemma NextStepsEvents(steps: seq<Effect>, k: nat)
    requires k < |steps|
    ensures StepsEvents(steps, k)
         == if StepError(steps[k]).None? then [StepStarted(k), StepFinished(k)] + StepsEvents(steps, k + 1)
            else if steps[k].abortedBefore then [] else [StepStarted(k)]
  {
    EventsOfStep(k, steps[k]);
  }

  lemma PairThenRest(pair: seq<Event>, middle: seq<Event>, rest: seq<Event>)
    ensures pair + (middle + rest) == pair + middle + rest
  {
  }

  lemma PairInFront(pair: seq<Event>, n: nat, k: nat, tail: seq<Event>)
    requires pair == [StepStarted(k), StepFinished(k)]
    ensures pair + (OneByOne(k + 1, n) + tail) == OneByOne(k, n + 1) + tail
  {
    assert OneByOne(k, n + 1) == pair + OneByOne(k + 1, n);
    PairThenRest(pair, OneByOne(k + 1, n), tail);
  }

  /** Steps start and finish one after another, in order; the first one with an
      error starts, unless the signal comes first, does not finish, and is the last. */
  lemma {:induction false} StepsRunInOrder(steps: seq<Effect>, k: nat)
    requires k <= |steps|
    ensures StepsEvents(steps, k) == OneByOne(k, Finishing(steps, k)) + Unfinished(steps, k)
    decreases |steps| - k
  {
    if k < |steps| {
      NextStepsEvents(steps, k);
      if StepError(steps[k]).None? {
        StepsRunInOrder(steps, k + 1);
        PairInFront([StepStarted(k), StepFinished(k)], Finishing(steps, k + 1), k, Unfinished(steps, k + 1));
      }
    }
  }

  lemma {:induction false} ResultsFollowVariants(variants: seq<Variant>, k: nat, foa: bool)
    requires k <= |variants|
    ensures var results := ResultsFrom(variants, k, foa);
            && k + |results| <= |variants|
            && (k + |results| == |variants| <==> EscapedFrom(variants, k, foa).None?)
            && (forall i | 0 <= i < |results| ::
                  results[i] == EndOfVariant(variants[k + i], foa) && results[i].Finished?)
            && (k + |results| < |variants| ==>
                  EndOfVariant(variants[k + |results|], foa) == Threw(EscapedFrom(variants, k, foa).value))
    decreases |variants| - k
  {
    if k < |variants| && EndOfVariant(variants[k], foa).Finished? {
      ResultsFollowVariants(variants, k + 1, foa);
    }
  }

  predicate VariantPasses(v: Variant, foa: bool) {
    EndOfVariant(v, foa).Finished? && EndOfVariant(v, foa).passed
  }

  /** An exception, not a cancellation, out of variant `k`, not the first, after
      each variant before it has passed. */
  predicate HiddenEscape(variants: seq<Variant>, aborted: bool, foa: bool, k: nat) {
    && 0 < k < |variants|
    && EndOfVariant(variants[k], foa).Threw? && !IsCancellation(EndOfVariant(variants[k], foa).error, aborted)
    && forall i | 0 <= i < k :: VariantPasses(variants[i], foa)
  }

  lemma RecordedAllPassIff(variants: seq<Variant>, foa: bool)
    ensures var results := ResultsFrom(variants, 0, foa);
            && |results| <= |variants|
            && (!HasFailed(results) <==> forall i | 0 <= i < |results| :: VariantPasses(variants[i], foa))
  {
    ResultsFollowVariants(variants, 0, foa);
    var results := ResultsFrom(variants, 0, foa);
    if HasFailed(results) {
      var j :| 0 <= j < |results| && results[j].Finished? && !results[j].passed;
      assert !VariantPasses(variants[j], foa);
    } else {
      forall i | 0 <= i < |results| ensures VariantPasses(variants[i], foa) {
        assert results[i] == EndOfVariant(variants[i], foa);
      }
    }
  }

  lemma EscapedRun(variants: seq<Variant>, aborted: bool, foa: bool, n: nat)
    requires n == |ResultsFrom(variants, 0, foa)| < |variants|
    ensures EndOfRun(variants, aborted, foa).status == Passed <==> HiddenEscape(variants, aborted, foa, n)
    ensures forall k | 0 <= k < |variants| :: HiddenEscape(variants, aborted, foa, k) ==> k == n
    ensures !VariantPasses(variants[n], foa)
  {
    ResultsFollowVariants(variants, 0, foa);
    RecordedAllPassIff(variants, foa);
    var results := ResultsFrom(variants, 0, foa);
    if n == 0 {
      assert [Finished(false, 1, EscapedFrom(variants, 0, foa).value)][0].Finished?;
    }
    forall k | 0 <= k < n ensures EndOfVariant(variants[k], foa).Finished? {
      assert results[k].Finished?;
    }
  }

  /** A run is reported as passed when every variant passes, and otherwise only
      when an exception escapes a later variant and nothing records it. */
  lemma PassedIff(variants: seq<Variant>, aborted: bool, foa: bool)
    ensures EndOfRun(variants, aborted, foa).status == Passed
       <==> (forall i | 0 <= i < |variants| :: VariantPasses(variants[i], foa))
            || exists k | 0 <= k < |variants| :: HiddenEscape(variants, aborted, foa, k)
  {
    ResultsFollowVariants(variants, 0, foa);
    RecordedAllPassIff(variants, foa);
    var n := |ResultsFrom(variants, 0, foa)|;
    if n < |variants| {
      EscapedRun(variants, aborted, foa, n);
    } else {
      assert forall i | 0 <= i < n :: ResultsFrom(variants, 0, foa)[i] == EndOfVariant(variants[i], foa);
    }
  }

  /** So "passed means that every variant passed" holds of a run exactly when no
      exception is hidden in it. */
  lemma PassedIsHonestIff(variants: seq<Variant>, aborted: bool, foa: bool)
    ensures (EndOfRun(variants, aborted, foa).status == Passed ==>
               forall i | 0 <= i < |variants| :: VariantPasses(variants[i], foa))
       <==> !exists k | 0 <= k < |variants| :: HiddenEscape(variants, aborted, foa, k)
  {
    PassedIff(variants, aborted, foa);
    if k :| 0 <= k < |variants| && HiddenEscape(variants, aborted, foa, k) {
      assert !VariantPasses(variants[k], foa);
    }
  }

  const QUIET: Attempt := Attempt(None, [], None, [], false, None, None, [], [], [])

  /** One that is: the first variant passes, and removing the second one's
      browser profile fails. */
  lemma PassedCanHideAnEscape()
    ensures var variants := [Variant(false, [QUIET]), Variant(false, [QUIET.(cleanup := Some("busy"))])];
            EndOfRun(variants, false, false).status == Passed && !VariantPasses(variants[1], false)
  {
    var variants := [Variant(false, [QUIET]), Variant(false, [QUIET.(cleanup := Some("busy"))])];
    assert VariantPasses(variants[0], false);
    assert EndOfVariant(variants[1], false) == Threw("busy");
    assert HiddenEscape(variants, false, false, 1);
    PassedIff(variants, false, false);
  }

  // What the logs hold.

  /** The output of every attempt of a variant that takes place. */
  function VariantOutput(attempts: seq<Attempt>, k: nat, foa: bool): Trace
    requires k <= |attempts|
    decreases |attempts| - k
  {
    if k == |attempts| then NOTHING
    else if EndOf(attempts[k], foa).Fails? then Plus(Output(attempts[k]), VariantOutput(attempts, k + 1, foa))
    else Output(attempts[k])
  }

  function RunOutput(variants: seq<Variant>, k: nat, foa: bool): Trace
    requires k <= |variants|
    decreases |variants| - k
  {
    if k == |variants| then NOTHING else
    var v := variants[k];
    var output := if v.abortedBefore then NOTHING else VariantOutput(v.attempts, 0, foa);
    if EndOfVariant(v, foa).Threw? then output else Plus(output, RunOutput(variants, k + 1, foa))
  }

  /** The output of the attempt whose clean-up throws, if one does. */
  function LostInVariant(attempts: seq<Attempt>, k: nat, foa: bool): Trace
    requires k <= |attempts|
    decreases |attempts| - k
  {
    if k == |attempts| then NOTHING
    else if EndOf(attempts[k], foa).Fails? then LostInVariant(attempts, k + 1, foa)
    else if attempts[k].cleanup.Some? then Output(attempts[k]) else NOTHING
  }

  function LostInRun(variants: seq<Variant>, k: nat, foa: bool): Trace
    requires k <= |variants|
    decreases |variants| - k
  {
    if k == |variants| then NOTHING
    else if EndOfVariant(variants[k], foa).Finished? then LostInRun(variants, k + 1, foa)
    else if variants[k].abortedBefore then NOTHING else LostInVariant(variants[k].attempts, 0, foa)
  }

  function Logs(t: Trace): Trace { t.(events := [], checks := [], audits := []) }

  lemma LogsOfPlus(t: Trace, u: Trace)
    ensures Logs(Plus(t, u)) == Plus(Logs(t), Logs(u))
  {
  }

  lemma BodyHasNoLogs(a: Attempt)
    ensures Logs(BodyTrace(a)) == NOTHING
  {
    StepsHaveNoLogs(a.steps, 0);
  }

  lemma AttemptLogs(a: Attempt, n: nat, foa: bool)
    ensures Logs(AttemptTrace(a, n, foa)) == if a.cleanup.Some? then NOTHING else Output(a)
  {
    BodyHasNoLogs(a);
  }

  lemma {:induction false} StepsHaveNoLogs(steps: seq<Effect>, k: nat)
    requires k <= |steps|
    ensures Logs(StepsTrace(steps, k)) == NOTHING
    decreases |steps| - k
  {
    if k < |steps| && StepError(steps[k]).None? { StepsHaveNoLogs(steps, k + 1); }
  }

  lemma {:induction false} VariantLogs(attempts: seq<Attempt>, k: nat, foa: bool)
    requires k <= |attempts|
    ensures Plus(Logs(VariantTraceFrom(attempts, k, foa)), LostInVariant(attempts, k, foa))
         == VariantOutput(attempts, k, foa)
    ensures VariantEndFrom(attempts, k, "", foa).Finished? ==> LostInVariant(attempts, k, foa) == NOTHING
    decreases |attempts| - k
  {
    if k < |attempts| {
      AttemptLogs(attempts[k], k + 1, foa);
      if EndOf(attempts[k], foa).Fails? {
        VariantLogs(attempts, k + 1, foa);
        EndIgnoresLastError(attempts, k + 1, "", EndOf(attempts[k], foa).error, foa);
        LogsOfPlus(AttemptTrace(attempts[k], k + 1, foa), VariantTraceFrom(attempts, k + 1, foa));
        PlusIsAssociative(Output(attempts[k]), Logs(VariantTraceFrom(attempts, k + 1, foa)),
                          LostInVariant(attempts, k + 1, foa));
      }
    }
  }

  lemma {:induction false} EndIgnoresLastError(attempts: seq<Attempt>, k: nat, e: Error, f: Error, foa: bool)
    requires k <= |attempts|
    ensures VariantEndFrom(attempts, k, e, foa).Finished? == VariantEndFrom(attempts, k, f, foa).Finished?
  {
  }

  /** What a run's attempts print is what reaches its logs followed by what one
      attempt loses: the last one, if removing its browser profile throws. */
  lemma {:induction false} OnlyLastAttemptIsLost(variants: seq<Variant>, k: nat, foa: bool)
    requires k <= |variants|
    ensures Plus(Logs(VariantsTraceFrom(variants, k, foa)), LostInRun(variants, k, foa))
         == RunOutput(variants, k, foa)
    ensures EscapedFrom(variants, k, foa).None? ==> LostInRun(variants, k, foa) == NOTHING
    decreases |variants| - k
  {
    if k < |variants| {
      var v := variants[k];
      if !v.abortedBefore { VariantLogs(v.attempts, 0, foa); }
      if EndOfVariant(v, foa).Finished? {
        OnlyLastAttemptIsLost(variants, k + 1, foa);
        LogsOfPlus(TraceOfVariant(v, foa), VariantsTraceFrom(variants, k + 1, foa));
        PlusNothing(Logs(TraceOfVariant(v, foa)));
        PlusIsAssociative(Logs(TraceOfVariant(v, foa)), Logs(VariantsTraceFrom(variants, k + 1, foa)),
                          LostInRun(variants, k + 1, foa));
      }
    }
  }

  lemma LastOfAppend<T>(a: seq<T>, b: seq<T>, n: nat)
    ensures LastOf(LastOf(a, n) + b, n) == LastOf(a + b, n)
  {
  }

  lemma LastOfAppendLast<T>(a: seq<T>, b: seq<T>, n: nat)
    ensures LastOf(LastOf(a, n) + LastOf(b, n), n) == LastOf(a + b, n)
  {
    LastOfAppend(a, b, n);
    var x := LastOf(a, n);
    assert LastOf(x + b, n) == LastOf(x + LastOf(b, n), n);
  }

  lemma NumberOneMore<T>(values: seq<T>, value: T, n: nat)
    ensures NumberFrom1(FirstOf(values + [value], n)) ==
      if |values| < n then NumberFrom1(FirstOf(values, n)) + [Numbered(|values| + 1, value)]
      else NumberFrom1(FirstOf(values, n))
  {
    if |values| < n {
      assert FirstOf(values + [value], n) == values + [value];
    } else {
      assert (values + [value])[..n] == values[..n];
    }
  }

  function RecentPush<T>(values: seq<T>, value: T, maximum: nat): (r: seq<T>)
    ensures r == LastOf(values + [value], maximum)
  {
    var grown := values + [value];
    if |grown| > maximum then grown[|grown| - maximum..] else grown
  }

  /** A page's listeners keep its recent entries while an attempt is under way. */
  method Capture<T>(entries: seq<T>) returns (captured: seq<T>)
    ensures captured == LastOf(entries, MAX_CAPTURE_ENTRIES)
  {
    captured := [];
    for i := 0 to |entries|
      invariant captured == LastOf(entries[..i], MAX_CAPTURE_ENTRIES)
    {
      LastOfAppend(entries[..i], [entries[i]], MAX_CAPTURE_ENTRIES);
      captured := RecentPush(captured, entries[i], MAX_CAPTURE_ENTRIES);
      assert entries[..i] + [entries[i]] == entries[..i + 1];
    }
    assert entries[..|entries|] == entries;
  }

  method Merge<T>(log: seq<T>, captured: seq<T>) returns (merged: seq<T>)
    requires |log| <= MAX_CAPTURE_ENTRIES
    ensures merged == LastOf(log + captured, MAX_CAPTURE_ENTRIES)
  {
    merged := log;
    assert log + captured[..0] == log;
    for i := 0 to |captured|
      invariant merged == LastOf(log + captured[..i], MAX_CAPTURE_ENTRIES)
    {
      LastOfAppend(log + captured[..i], [captured[i]], MAX_CAPTURE_ENTRIES);
      merged := RecentPush(merged, captured[i], MAX_CAPTURE_ENTRIES);
      assert log + captured[..i] + [captured[i]] == log + captured[..i + 1];
    }
    assert captured[..|captured|] == captured;
  }

  /** After `k` attempts, with the trace grown from `t0` to `t`. */
  ghost predicate VariantSoFar(t0: Trace, t: Trace, attempts: seq<Attempt>, k: nat, lastError: Error, foa: bool) {
    && k <= |attempts|
    && Plus(t, VariantTraceFrom(attempts, k, foa)) == Plus(t0, VariantTraceFrom(attempts, 0, foa))
    && VariantEndFrom(attempts, k, lastError, foa) == VariantEndFrom(attempts, 0, "", foa)
  }

  /** How an attempt that does not fail ends its variant. */
  function Leaving(end: AttemptEnd, attempts: nat): VariantEnd
    requires !end.Fails?
  {
    if end.Succeeds? then Finished(true, attempts, "") else Threw(end.error)
  }

  lemma NextAttempt(t0: Trace, t: Trace, u: Trace, attempts: seq<Attempt>, k: nat, lastError: Error, foa: bool)
    requires k < |attempts| && VariantSoFar(t0, t, attempts, k, lastError, foa)
    requires u == Plus(t, AttemptTrace(attempts[k], k + 1, foa))
    ensures if EndOf(attempts[k], foa).Fails?
            then VariantSoFar(t0, u, attempts, k + 1, EndOf(attempts[k], foa).error, foa)
            else && u == Plus(t0, VariantTraceFrom(attempts, 0, foa))
                 && VariantEndFrom(attempts, 0, "", foa) == Leaving(EndOf(attempts[k], foa), k + 1)
  {
    PlusIsAssociative(t, AttemptTrace(attempts[k], k + 1, foa),
                      if EndOf(attempts[k], foa).Fails? then VariantTraceFrom(attempts, k + 1, foa) else NOTHING);
  }

  lemma AllAttemptsFailed(t0: Trace, t: Trace, attempts: seq<Attempt>, lastError: Error, foa: bool)
    requires VariantSoFar(t0, t, attempts, |attempts|, lastError, foa)
    ensures Plus(t, Said(VariantFinished(|attempts|, false))) == Plus(t0, VariantTraceFrom(attempts, 0, foa))
    ensures VariantEndFrom(attempts, 0, "", foa) == Finished(false, |attempts|, lastError)
  {
  }

  /** After `k` variants that returned, with `results` recorded. */
  ghost predicate RunSoFar(t0: Trace, t: Trace, variants: seq<Variant>, k: nat, results: seq<VariantEnd>, foa: bool) {
    && k <= |variants|
    && Plus(t, VariantsTraceFrom(variants, k, foa)) == Plus(t0, VariantsTraceFrom(variants, 0, foa))
    && results + ResultsFrom(variants, k, foa) == ResultsFrom(variants, 0, foa)
    && EscapedFrom(variants, k, foa) == EscapedFrom(variants, 0, foa)
  }

  lemma VariantReturns(t0: Trace, t: Trace, variants: seq<Variant>, k: nat, results: seq<VariantEnd>, foa: bool)
    requires k < |variants| && RunSoFar(t0, t, variants, k, results, foa)
    requires EndOfVariant(variants[k], foa).Finished?
    ensures RunSoFar(t0, Plus(t, TraceOfVariant(variants[k], foa)), variants, k + 1,
                     results + [EndOfVariant(variants[k], foa)], foa)
  {
    var end := EndOfVariant(variants[k], foa);
    PlusIsAssociative(t, TraceOfVariant(variants[k], foa), VariantsTraceFrom(variants, k + 1, foa));
    assert results + [end] + ResultsFrom(variants, k + 1, foa) == results + ([end] + ResultsFrom(variants, k + 1, foa));
  }

  lemma VariantThrows(t0: Trace, t: Trace, variants: seq<Variant>, k: nat, results: seq<VariantEnd>, foa: bool)
    requires k < |variants| && RunSoFar(t0, t, variants, k, results, foa)
    requires EndOfVariant(variants[k], foa).Threw?
    ensures Plus(t, TraceOfVariant(variants[k], foa)) == Plus(t0, VariantsTraceFrom(variants, 0, foa))
    ensures results == ResultsFrom(variants, 0, foa)
    ensures EscapedFrom(variants, 0, foa) == Some(EndOfVariant(variants[k], foa).error)
  {
  }

  /** What a run's state keeps of everything emitted. */
  function Kept(t: Trace): Trace {
    Trace(FirstOf(t.events, MAX_TIMELINE_ENTRIES), FirstOf(t.checks, MAX_ASSERTIONS),
          FirstOf(t.audits, MAX_ACCESSIBILITY_AUDITS), LastOf(t.console, MAX_CAPTURE_ENTRIES),
          LastOf(t.network, MAX_CAPTURE_ENTRIES), LastOf(t.pageErrors, MAX_CAPTURE_ENTRIES))
  }

  /** The contents of a run's state. Stored entries are numbered from 1 and are the
      first, or for logs the last, of what was emitted. */
  datatype Store = Store(
    timeline: seq<Numbered<Event>>, assertions: seq<Numbered<Check>>, accessibility: seq<Findings>,
    console: seq<Printed>, network: seq<string>, pageErrors: seq<string>)

  function Stored(t: Trace): Store {
    var kept := Kept(t);
    Store(NumberFrom1(kept.events), NumberFrom1(kept.checks), kept.audits, kept.console, kept.network, kept.pageErrors)
  }

  /** In numbers: the first 2048 events and 512 assertions, each with its place counted
      from 1, the first 64 audits, and the last 200 entries of each log. */
  lemma StoredMeans(t: Trace)
    ensures var s := Stored(t);
            && |s.timeline| == Min(|t.events|, 2048) && |s.assertions| == Min(|t.checks|, 512)
            && (forall i | 0 <= i < |s.timeline| ::
                  s.timeline[i].sequence == i + 1 && s.timeline[i].value == t.events[i])
            && (forall i | 0 <= i < |s.assertions| ::
                  s.assertions[i].sequence == i + 1 && s.assertions[i].value == t.checks[i])
            && s.accessibility == t.audits[..Min(|t.audits|, 64)]
            && s.console == t.console[|t.console| - Min(|t.console|, 200)..]
            && s.network == t.network[|t.network| - Min(|t.network|, 200)..]
            && s.pageErrors == t.pageErrors[|t.pageErrors| - Min(|t.pageErrors|, 200)..]
  {
  }

  /** The state a run accumulates; `trace` is everything emitted so far. */
  class RunState {
    var timeline: seq<Numbered<Event>>
    var assertions: seq<Numbered<Check>>
    var accessibility: seq<Findings>
    var console: seq<Printed>
    var network: seq<string>
    var pageErrors: seq<string>
    ghost var trace: Trace

    ghost predicate Valid()
      reads this
    {
      Store(timeline, assertions, accessibility, console, network, pageErrors) == Stored(trace)
    }

    constructor ()
      ensures Valid() && trace == NOTHING
    {
      timeline, assertions, accessibility, console, network, pageErrors := [], [], [], [], [], [];
      trace := NOTHING;
    }

    method Emit(event: Event)
      requires Valid()
      modifies this
      ensures Valid() && trace == Plus(old(trace), Said(event))
    {
      NumberOneMore(trace.events, event, MAX_TIMELINE_ENTRIES);
      trace := Plus(trace, Said(event));
      if |timeline| >= MAX_TIMELINE_ENTRIES { return; }
      timeline := timeline + [Numbered(|timeline| + 1, event)];
    }

    /** Records an assertion; a failing one throws. */
    method Assert(step: nat, passed: bool) returns (error: Option<Error>)
      requires Valid()
      modifies this
      ensures Valid() && trace == Plus(old(trace), NOTHING.(checks := [Check(step, passed)]))
      ensures error == if passed then None else Some("assertion failed")
    {
      NumberOneMore(trace.checks, Check(step, passed), MAX_ASSERTIONS);
      trace := Plus(trace, NOTHING.(checks := [Check(step, passed)]));
      if |assertions| < MAX_ASSERTIONS {
        assertions := assertions + [Numbered(|assertions| + 1, Check(step, passed))];
      }
      error := if passed then None else Some("assertion failed");
    }

    /** Records what an accessibility audit finds. */
    method Audit(findings: Findings)
      requires Valid()
      modifies this
      ensures Valid() && trace == Plus(old(trace), NOTHING.(audits := [findings]))
    {
      trace := Plus(trace, NOTHING.(audits := [findings]));
      if |accessibility| < MAX_ACCESSIBILITY_AUDITS { accessibility := accessibility + [findings]; }
    }

    method Record(k: nat, effect: Effect) returns (error: Option<Error>)
      requires Valid()
      modifies this
      ensures Valid() && trace == Plus(old(trace), Recorded(k, effect))
      ensures error == if effect.check == Some(false) then Some("assertion failed") else None
    {
      error := None;
      if effect.found.Some? { Audit(effect.found.value); }
      if effect.check.Some? { error := Assert(k, effect.check.value); }
    }

    method ExecuteStep(k: nat, effect: Effect) returns (error: Option<Error>)
      requires Valid()
      modifies this
      ensures Valid() && trace == Plus(old(trace), StepTrace(k, effect)) && error == StepError(effect)
    {
      if effect.abortedBefore {
        PlusNothing(trace);
        return Some("operation cancelled");
      }
      Emit(StepStarted(k));
      if effect.before.Some? { return effect.before; }
      error := Record(k, effect);
      if error.Some? { return; }
      if effect.after.Some? { return effect.after; }
      Emit(StepFinished(k));
      error := None;
    }

    method ExecuteSteps(steps: seq<Effect>) returns (error: Option<Error>)
      requires Valid()
      modifies this
      ensures Valid() && trace == Plus(old(trace), StepsTrace(steps, 0)) && error == StepsError(steps, 0)
    {
      for k := 0 to |steps|
        invariant Valid() && Plus(trace, StepsTrace(steps, k)) == Plus(old(trace), StepsTrace(steps, 0))
        invariant StepsError(steps, k) == StepsError(steps, 0)
      {
        ghost var before := trace;
        error := ExecuteStep(k, steps[k]);
        if error.Some? { return; }
        PlusIsAssociative(before, StepTrace(k, steps[k]), StepsTrace(steps, k + 1));
      }
      PlusNothing(trace);
      error := None;
    }

    /** The try block of an attempt. */
    method RunBody(a: Attempt, failOnAccessibility: bool) returns (error: Option<Error>)
      requires Valid()
      modifies this
      ensures Valid() && trace == Plus(old(trace), BodyTrace(a)) && error == BodyError(a, failOnAccessibility)
    {
      if a.launch.Some? {
        PlusNothing(trace);
        return a.launch;
      }
      ghost var before := trace;
      Emit(NavigationCompleted);
      error := ExecuteSteps(a.steps);
      PlusIsAssociative(before, Said(NavigationCompleted), StepsTrace(a.steps, 0));
      if error.Some? { return; }
      if a.audit.Some? { return a.audit; }
      Audit(a.findings);
      Emit(AccessibilityCompleted(Severe in a.findings));
      PlusIsAssociative(before, Plus(Said(NavigationCompleted), StepsTrace(a.steps, 0)), Audited(a.findings));
      if failOnAccessibility && Severe in a.findings { return Some("accessibility audit failed"); }
      error := None;
    }

    /** The end of the finally block. */
    method MergeLogs(a: Attempt)
      requires Valid()
      modifies this
      ensures Valid() && trace == Plus(old(trace), Output(a))
    {
      var captured := Capture(a.console);
      LastOfAppendLast(trace.console, a.console, MAX_CAPTURE_ENTRIES);
      console := Merge(console, captured);
      var requests := Capture(a.network);
      LastOfAppendLast(trace.network, a.network, MAX_CAPTURE_ENTRIES);
      network := Merge(network, requests);
      var thrown := Capture(a.pageErrors);
      LastOfAppendLast(trace.pageErrors, a.pageErrors, MAX_CAPTURE_ENTRIES);
      pageErrors := Merge(pageErrors, thrown);
      trace := Plus(trace, Output(a));
    }

    method RunAttempt(a: Attempt, n: nat, failOnAccessibility: bool) returns (end: AttemptEnd)
      requires Valid()
      modifies this
      ensures Valid() && trace == Plus(old(trace), AttemptTrace(a, n, failOnAccessibility))
      ensures end == EndOf(a, failOnAccessibility)
    {
      ghost var t0 := trace;
      Emit(VariantStarted(n));
      var error := RunBody(a, failOnAccessibility);
      PlusIsAssociative(t0, Said(VariantStarted(n)), BodyTrace(a));
      ghost var talk := Plus(Said(VariantStarted(n)), BodyTrace(a));
      match error {
        case None =>
          Emit(VariantFinished(n, true));
          PlusIsAssociative(t0, talk, Said(VariantFinished(n, true)));
          talk := Plus(talk, Said(VariantFinished(n, true)));
          end := Succeeds;
        case Some(message) =>
          Emit(AttemptFailed(n, message));
          PlusIsAssociative(t0, talk, Said(AttemptFailed(n, message)));
          talk := Plus(talk, Said(AttemptFailed(n, message)));
          end := if a.catching.Some? then Escapes(a.catching.value)
                 else if a.aborted then Escapes(message) else Fails(message);
      }
      if a.cleanup.Some? { return Escapes(a.cleanup.value); }
      MergeLogs(a);
      PlusIsAssociative(t0, talk, Output(a));
    }

    method RunVariant(v: Variant, failOnAccessibility: bool) returns (end: VariantEnd)
      requires Valid()
      modifies this
      ensures Valid() && trace == Plus(old(trace), VariantTraceFrom(v.attempts, 0, failOnAccessibility))
      ensures end == VariantEndFrom(v.attempts, 0, "", failOnAccessibility)
    {
      var lastError := "";
      var k: nat := 0;
      ghost var t0 := trace;
      while k < |v.attempts|
        invariant k <= |v.attempts| && Valid()
        invariant VariantSoFar(t0, trace, v.attempts, k, lastError, failOnAccessibility)
      {
        ghost var t := trace;
        var attempt := RunAttempt(v.attempts[k], k + 1, failOnAccessibility);
        NextAttempt(t0, t, trace, v.attempts, k, lastError, failOnAccessibility);
        if !attempt.Fails? { return Leaving(attempt, k + 1); }
        lastError := attempt.error;
        k := k + 1;
      }
      AllAttemptsFailed(t0, trace, v.attempts, lastError, failOnAccessibility);
      Emit(VariantFinished(|v.attempts|, false));
      end := Finished(false, |v.attempts|, lastError);
    }

    /** The loop over the variants; what throws leaves it. */
    method RunVariants(variants: seq<Variant>, failOnAccessibility: bool)
      returns (results: seq<VariantEnd>, escaped: Option<Error>)
      requires Valid()
      modifies this
      ensures Valid() && trace == Plus(old(trace), VariantsTraceFrom(variants, 0, failOnAccessibility))
      ensures results == ResultsFrom(variants, 0, failOnAccessibility)
      ensures escaped == EscapedFrom(variants, 0, failOnAccessibility)
    {
      results, escaped := [], None;
      for k := 0 to |variants|
        invariant Valid() && escaped.None?
        invariant RunSoFar(old(trace), trace, variants, k, results, failOnAccessibility)
      {
        if EndOfVariant(variants[k], failOnAccessibility).Finished? {
          VariantReturns(old(trace), trace, variants, k, results, failOnAccessibility);
        } else {
          VariantThrows(old(trace), trace, variants, k, results, failOnAccessibility);
        }
        if variants[k].abortedBefore {
          PlusNothing(trace);
          escaped := Some("operation cancelled");
          return;
        }
        var end := RunVariant(variants[k], failOnAccessibility);
        if end.Threw? {
          escaped := Some(end.error);
          return;
        }
        results := results + [end];
      }
      PlusNothing(trace);
    }

    /** A whole run: its status and results, the numbered prefixes of the timeline
        and of the assertions, and the last entries of each log. */
    method Run(variants: seq<Variant>, aborted: bool, failOnAccessibility: bool) returns (end: RunEnd)
      requires Valid() && trace == NOTHING
      modifies this
      ensures end == EndOfRun(variants, aborted, failOnAccessibility)
      ensures Valid() && trace == TraceOfRun(variants, aborted, failOnAccessibility)
      ensures LostInRun(variants, 0, failOnAccessibility) == NOTHING ==>
        var output := RunOutput(variants, 0, failOnAccessibility);
        && console == LastOf(output.console, MAX_CAPTURE_ENTRIES)
        && network == LastOf(output.network, MAX_CAPTURE_ENTRIES)
        && pageErrors == LastOf(output.pageErrors, MAX_CAPTURE_ENTRIES)
    {
      Emit(RunStarted);
      PlusNothing(Said(RunStarted));
      var results, escaped := RunVariants(variants, failOnAccessibility);
      var cancelled := false;
      if escaped.Some? {
        cancelled := IsCancellation(escaped.value, aborted);
        if !cancelled {
          Emit(RunError(escaped.value));
          if results == [] { results := [Finished(false, 1, escaped.value)]; }
        }
      }
      var status := if cancelled then Cancelled else if HasFailed(results) then Failed else Passed;
      Emit(RunFinished(status));
      end := RunEnd(status, results);
      OnlyLastAttemptIsLost(variants, 0, failOnAccessibility);
      PlusNothing(Logs(VariantsTraceFrom(variants, 0, failOnAccessibility)));
      RunLogs(variants, aborted, failOnAccessibility);
    }
  }

  lemma RunLogs(variants: seq<Variant>, aborted: bool, foa: bool)
    ensures Logs(TraceOfRun(variants, aborted, foa)) == Logs(VariantsTraceFrom(variants, 0, foa))
  {
  }
}
