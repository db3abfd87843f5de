/** What a verification run tells: its timeline, checks, audits and logs, attempt by
    attempt and from what the browser did, and the result it ends with. */
module VerificationTimeline {
  import opened Common
  import opened VerificationRun

  // An attempt.

  ghost predicate Good(effect: Effect) {
    !effect.abortedBefore && effect.before.None? && effect.check != Some(false) && effect.after.None?
  }

  /** Step `b` is the first that does not go well; all do if it is their number. */
  ghost predicate FirstBad(steps: seq<Effect>, b: int) {
    && 0 <= b <= |steps| && (forall k | 0 <= k < b :: Good(steps[k]))
    && (b < |steps| ==> !Good(steps[b]))
  }

  lemma {:induction false} SomeFirstBad(steps: seq<Effect>, k: nat) returns (b: nat)
    requires k <= |steps| && forall i | 0 <= i < k :: Good(steps[i])
    ensures k <= b && FirstBad(steps, b)
    decreases |steps| - k
  {
    if k < |steps| && Good(steps[k]) { b := SomeFirstBad(steps, k + 1); } else { b := k; }
  }

  /** What a step that does not go well throws: a set signal comes before all, and what it
      throws early before a failed assertion and that before what it throws late. */
  ghost predicate Throws(effect: Effect, error: Error) {
    if effect.abortedBefore then error == "operation cancelled"
    else if effect.before.Some? then effect.before == Some(error)
    else if effect.check == Some(false) then error == "assertion failed"
    else effect.after == Some(error)
  }

  /** The steps that get as far as recording something, if the first bad one is `b`. */
  ghost function Recording(steps: seq<Effect>, b: nat): nat
    requires b <= |steps|
  {
    if b < |steps| && !steps[b].abortedBefore && steps[b].before.None? then b + 1 else b
  }

  /** The assertions of the first `m` steps, and what audits in them found. */
  ghost function Asserted(steps: seq<Effect>, m: nat): seq<Check>
    requires m <= |steps|
  {
    if m == 0 then []
    else Asserted(steps, m - 1) + if steps[m - 1].check.Some? then [Check(m - 1, steps[m - 1].check.value)] else []
  }

  ghost function FoundIn(steps: seq<Effect>, m: nat): seq<Findings>
    requires m <= |steps|
  {
    if m == 0 then []
    else FoundIn(steps, m - 1) + if steps[m - 1].found.Some? then [steps[m - 1].found.value] else []
  }

  lemma StepThrowsIff(effect: Effect)
    ensures StepError(effect).None? <==> Good(effect)
    ensures forall error | !Good(effect) :: Throws(effect, error) <==> StepError(effect) == Some(error)
  {
  }

  /** The rest of the steps, from `k` on, tells what comes after the first `k`. */
  lemma {:induction false} StepsTell(steps: seq<Effect>, k: nat, b: nat)
    requires FirstBad(steps, b) && k <= b
    ensures k + Finishing(steps, k) == b
    ensures Unfinished(steps, k) == if b < |steps| && !steps[b].abortedBefore then [StepStarted(b)] else []
    ensures b == |steps| ==> StepsError(steps, k).None?
    ensures b < |steps| ==> StepsError(steps, k).Some? && Throws(steps[b], StepsError(steps, k).value)
    ensures Asserted(steps, k) + StepsTrace(steps, k).checks == Asserted(steps, Recording(steps, b))
    ensures FoundIn(steps, k) + StepsTrace(steps, k).audits == FoundIn(steps, Recording(steps, b))
    decreases b - k
  {
    if k < |steps| { StepThrowsIff(steps[k]); }
    if k < b {
      StepsTell(steps, k + 1, b);
      NextRecorded(steps, k);
    } else if k < |steps| {
      LastRecorded(steps, k);
    }
  }

  lemma NextRecorded(steps: seq<Effect>, k: nat)
    requires k < |steps| && StepError(steps[k]).None?
    ensures Asserted(steps, k) + StepsTrace(steps, k).checks
         == Asserted(steps, k + 1) + StepsTrace(steps, k + 1).checks
    ensures FoundIn(steps, k) + StepsTrace(steps, k).audits == FoundIn(steps, k + 1) + StepsTrace(steps, k + 1).audits
  {
  }

  lemma LastRecorded(steps: seq<Effect>, k: nat)
    requires k < |steps| && StepError(steps[k]).Some?
    ensures Asserted(steps, k) + StepsTrace(steps, k).checks == Asserted(steps, Recording(steps, k))
    ensures FoundIn(steps, k) + StepsTrace(steps, k).audits == FoundIn(steps, Recording(steps, k))
  {
  }

  /** How an attempt ends, from what the browser did. */
  lemma AttemptEnds(a: Attempt, foa: bool, b: nat)
    requires FirstBad(a.steps, b)
    ensures var end := EndOf(a, foa);
            var fine := a.launch.None? && b == |a.steps| && a.audit.None? && !(foa && Severe in a.findings);
            && (end.Succeeds? <==> fine && a.cleanup.None?)
            && (end.Fails? <==> !fine && a.cleanup.None? && a.catching.None? && !a.aborted)
            && (a.cleanup.Some? ==> end == Escapes(a.cleanup.value))
            && (!fine && a.cleanup.None? && a.catching.Some? ==> end == Escapes(a.catching.value))
            && (!fine && a.cleanup.None? && a.catching.None? ==>
                  if a.launch.Some? then end.error == a.launch.value
                  else if b < |a.steps| then Throws(a.steps[b], end.error)
                  else if a.audit.Some? then end.error == a.audit.value
                  else end.error == "accessibility audit failed")
  {
    StepsTell(a.steps, 0, b);
  }

  /** The events of an attempt: it starts, and unless the launch fails it navigates, takes
      its steps one by one up to the first bad one, audits the page and says how it went. */
  lemma AttemptTimeline(a: Attempt, n: nat, foa: bool, b: nat)
    requires FirstBad(a.steps, b)
    ensures var events := AttemptTrace(a, n, foa).events;
            var steps := [VariantStarted(n), NavigationCompleted] + OneByOne(0, b);
            if a.launch.Some? then events == [VariantStarted(n), AttemptFailed(n, a.launch.value)]
            else if b < |a.steps| then
              exists error :: Throws(a.steps[b], error) && events ==
                steps + (if a.steps[b].abortedBefore then [] else [StepStarted(b)]) + [AttemptFailed(n, error)]
            else if a.audit.Some? then events == steps + [AttemptFailed(n, a.audit.value)]
            else if foa && Severe in a.findings then
              events == steps + [AccessibilityCompleted(true), AttemptFailed(n, "accessibility audit failed")]
            else events == steps + [AccessibilityCompleted(Severe in a.findings), VariantFinished(n, true)]
  {
    AttemptIsBody(a, n, foa);
    BodyTimeline(a, b);
    StepsTell(a.steps, 0, b);
    if a.launch.None? {
      Assemble(n, OneByOne(0, b), TailOf(a, b), BodyTrace(a).events,
               if BodyError(a, foa).None? then VariantFinished(n, true) else AttemptFailed(n, BodyError(a, foa).value));
    }
  }

  /** What comes of an attempt's body after its good steps. */
  ghost function TailOf(a: Attempt, b: nat): seq<Event>
    requires b <= |a.steps|
  {
    if b < |a.steps| then (if a.steps[b].abortedBefore then [] else [StepStarted(b)])
    else if a.audit.Some? then [] else [AccessibilityCompleted(Severe in a.findings)]
  }

  lemma Assemble(n: nat, way: seq<Event>, tail: seq<Event>, body: seq<Event>, last: Event)
    requires body != [] && body[0] == NavigationCompleted && body[1..] == way + tail
    ensures [VariantStarted(n)] + body + [last] == [VariantStarted(n), NavigationCompleted] + way + tail + [last]
    ensures tail == [] ==>
      [VariantStarted(n)] + body + [last] == [VariantStarted(n), NavigationCompleted] + way + [last]
    ensures |tail| == 1 ==>
      [VariantStarted(n)] + body + [last] == [VariantStarted(n), NavigationCompleted] + way + [tail[0], last]
  {
  }

  lemma AttemptIsBody(a: Attempt, n: nat, foa: bool)
    ensures AttemptTrace(a, n, foa).events == [VariantStarted(n)] + BodyTrace(a).events +
      [if BodyError(a, foa).None? then VariantFinished(n, true) else AttemptFailed(n, BodyError(a, foa).value)]
  {
  }

  lemma BodyTimeline(a: Attempt, b: nat)
    requires FirstBad(a.steps, b)
    ensures var body := BodyTrace(a).events;
            if a.launch.Some? then body == []
            else
              && body != [] && body[0] == NavigationCompleted
              && body[1..] == OneByOne(0, b) + TailOf(a, b)
  {
    StepsTell(a.steps, 0, b);
    StepsRunInOrder(a.steps, 0);
    assert StepsEvents(a.steps, 0) == StepsTrace(a.steps, 0).events;
  }

  /** The assertions and audits of an attempt, those of a failing step among them, and
      the audit at its end if it gets there. */
  lemma AttemptRecords(a: Attempt, n: nat, foa: bool, b: nat)
    requires FirstBad(a.steps, b)
    ensures var t, m := AttemptTrace(a, n, foa), Recording(a.steps, b);
            && t.checks == (if a.launch.Some? then [] else Asserted(a.steps, m))
            && t.audits == (if a.launch.Some? then []
                            else if b == |a.steps| && a.audit.None? then FoundIn(a.steps, m) + [a.findings]
                            else FoundIn(a.steps, m))
            && t.console == (if a.cleanup.Some? then [] else a.console)
            && t.network == (if a.cleanup.Some? then [] else a.network)
            && t.pageErrors == (if a.cleanup.Some? then [] else a.pageErrors)
  {
    StepsTell(a.steps, 0, b);
    AttemptLogs(a, n, foa);
    var logs := Logs(AttemptTrace(a, n, foa));
    assert logs.console == AttemptTrace(a, n, foa).console;
    assert Asserted(a.steps, 0) + StepsTrace(a.steps, 0).checks == StepsTrace(a.steps, 0).checks;
    assert FoundIn(a.steps, 0) + StepsTrace(a.steps, 0).audits == StepsTrace(a.steps, 0).audits;
  }

  // A variant, and a run.

  /** `whole` is made of `parts`, each kind of entry in their order. */
  ghost predicate MadeOf(whole: Trace, parts: seq<Trace>)
    decreases |parts|
  {
    if parts == [] then whole == Trace([], [], [], [], [], [])
    else exists rest :: MadeOf(rest, parts[1..]) && IsFollowedBy(parts[0], rest, whole)
  }

  ghost predicate IsFollowedBy(first: Trace, rest: Trace, whole: Trace) {
    && whole.events == first.events + rest.events
    && whole.checks == first.checks + rest.checks
    && whole.audits == first.audits + rest.audits
    && whole.console == first.console + rest.console
    && whole.network == first.network + rest.network
    && whole.pageErrors == first.pageErrors + rest.pageErrors
  }

  lemma MadeOfMore(first: Trace, rest: Trace, whole: Trace, parts: seq<Trace>, all: seq<Trace>)
    requires MadeOf(rest, parts) && whole == Plus(first, rest) && all == [first] + parts
    ensures MadeOf(whole, all)
  {
    assert all[1..] == parts;
    assert IsFollowedBy(first, rest, whole);
  }

  lemma MadeOfOne(t: Trace)
    ensures MadeOf(t, [t])
  {
    var nothing := Trace([], [], [], [], [], []);
    assert MadeOf(nothing, []);
    assert IsFollowedBy(t, nothing, t);
    assert [t][1..] == [];
  }

  /** The attempts of a variant from `k` to before `m`, numbered from 1. */
  ghost function AttemptsTell(attempts: seq<Attempt>, k: nat, m: nat, foa: bool): seq<Trace>
    requires k <= m <= |attempts|
  {
    seq(m - k, i requires 0 <= i < m - k => AttemptTrace(attempts[k + i], k + i + 1, foa))
  }

  /** And, if every attempt fails, the event that says so. */
  ghost function VariantParts(attempts: seq<Attempt>, k: nat, n: nat, foa: bool): seq<Trace>
    requires k <= n <= |attempts|
  {
    if n == |attempts| then AttemptsTell(attempts, k, n, foa) + [OneEvent(VariantFinished(n, false))]
    else AttemptsTell(attempts, k, n + 1, foa)
  }

  lemma NextPart(attempts: seq<Attempt>, k: nat, n: nat, foa: bool)
    requires k < n <= |attempts|
    ensures VariantParts(attempts, k, n, foa)
         == [AttemptTrace(attempts[k], k + 1, foa)] + VariantParts(attempts, k + 1, n, foa)
  {
  }

  lemma LastPart(attempts: seq<Attempt>, n: nat, foa: bool)
    requires n <= |attempts|
    ensures VariantParts(attempts, n, n, foa)
         == [if n == |attempts| then OneEvent(VariantFinished(n, false)) else AttemptTrace(attempts[n], n + 1, foa)]
  {
  }

  lemma {:induction false} AttemptsTellAll(attempts: seq<Attempt>, k: nat, n: nat, foa: bool)
    requires k <= n <= |attempts| && (forall i | k <= i < n :: EndOf(attempts[i], foa).Fails?)
    requires n < |attempts| ==> !EndOf(attempts[n], foa).Fails?
    ensures MadeOf(VariantTraceFrom(attempts, k, foa), VariantParts(attempts, k, n, foa))
    decreases n - k
  {
    TraceOfNext(attempts, k, foa);
    if k == n {
      LastAttemptTells(attempts, n, foa);
    } else {
      AttemptsTellAll(attempts, k + 1, n, foa);
      NextPart(attempts, k, n, foa);
      MadeOfMore(AttemptTrace(attempts[k], k + 1, foa), VariantTraceFrom(attempts, k + 1, foa),
                 VariantTraceFrom(attempts, k, foa), VariantParts(attempts, k + 1, n, foa),
                 VariantParts(attempts, k, n, foa));
    }
  }

  lemma LastAttemptTells(attempts: seq<Attempt>, n: nat, foa: bool)
    requires n <= |attempts| && (n < |attempts| ==> !EndOf(attempts[n], foa).Fails?)
    ensures MadeOf(VariantTraceFrom(attempts, n, foa), VariantParts(attempts, n, n, foa))
  {
    LastPart(attempts, n, foa);
    TraceOfNext(attempts, n, foa);
    MadeOfOne(VariantTraceFrom(attempts, n, foa));
  }

  lemma TraceOfNext(attempts: seq<Attempt>, k: nat, foa: bool)
    requires k <= |attempts|
    ensures VariantTraceFrom(attempts, k, foa) ==
      if k == |attempts| then OneEvent(VariantFinished(k, false))
      else if EndOf(attempts[k], foa).Fails?
      then Plus(AttemptTrace(attempts[k], k + 1, foa), VariantTraceFrom(attempts, k + 1, foa))
      else AttemptTrace(attempts[k], k + 1, foa)
  {
  }

  ghost function OneEvent(event: Event): Trace { Trace([event], [], [], [], [], []) }

  /** A variant tells of its attempts up to the first that does not fail, and, if all do,
      that it has failed; one that is not begun tells nothing. */
  lemma VariantTells(v: Variant, foa: bool, n: nat)
    requires n <= |v.attempts| && (forall i | 0 <= i < n :: EndOf(v.attempts[i], foa).Fails?)
    requires n < |v.attempts| ==> !EndOf(v.attempts[n], foa).Fails?
    ensures MadeOf(TraceOfVariant(v, foa),
                   if v.abortedBefore then [] else VariantParts(v.attempts, 0, n, foa))
    ensures EndOfVariant(v, foa) ==
      if v.abortedBefore then Threw("operation cancelled")
      else if n == |v.attempts| then Finished(false, n, if n == 0 then "" else EndOf(v.attempts[n - 1], foa).error)
      else if EndOf(v.attempts[n], foa).Succeeds? then Finished(true, n + 1, "")
      else Threw(EndOf(v.attempts[n], foa).error)
  {
    if !v.abortedBefore {
      AttemptsTellAll(v.attempts, 0, n, foa);
      VariantEndFromIs(v.attempts, 0, "", foa, n);
    }
  }

  ghost function VariantsTell(variants: seq<Variant>, k: nat, m: nat, foa: bool): seq<Trace>
    requires k <= m <= |variants|
  {
    seq(m - k, i requires 0 <= i < m - k => TraceOfVariant(variants[k + i], foa))
  }

  /** The first `n` variants return, and the next one, if there is one, throws. */
  ghost predicate Returning(variants: seq<Variant>, foa: bool, n: int) {
    && 0 <= n <= |variants| && (forall i | 0 <= i < n :: EndOfVariant(variants[i], foa).Finished?)
    && (n < |variants| ==> EndOfVariant(variants[n], foa).Threw?)
  }

  lemma NextVariant(variants: seq<Variant>, k: nat, m: nat, foa: bool)
    requires k < m <= |variants|
    ensures VariantsTell(variants, k, m, foa)
         == [TraceOfVariant(variants[k], foa)] + VariantsTell(variants, k + 1, m, foa)
  {
  }

  lemma {:induction false} VariantsTellAll(variants: seq<Variant>, k: nat, n: nat, foa: bool)
    requires Returning(variants, foa, n) && k <= n
    ensures MadeOf(VariantsTraceFrom(variants, k, foa),
                   VariantsTell(variants, k, if n < |variants| then n + 1 else n, foa))
    decreases n - k
  {
    TraceOfVariantsFrom(variants, k, foa);
    if k < n {
      var m := if n < |variants| then n + 1 else n;
      VariantsTellAll(variants, k + 1, n, foa);
      NextVariant(variants, k, m, foa);
      MadeOfMore(TraceOfVariant(variants[k], foa), VariantsTraceFrom(variants, k + 1, foa),
                 VariantsTraceFrom(variants, k, foa), VariantsTell(variants, k + 1, m, foa),
                 VariantsTell(variants, k, m, foa));
    } else {
      LastVariantTells(variants, n, foa);
    }
  }

  lemma LastVariantTells(variants: seq<Variant>, n: nat, foa: bool)
    requires Returning(variants, foa, n)
    ensures MadeOf(VariantsTraceFrom(variants, n, foa),
                   VariantsTell(variants, n, if n < |variants| then n + 1 else n, foa))
  {
    if n < |variants| {
      MadeOfOne(TraceOfVariant(variants[n], foa));
      assert VariantsTell(variants, n, n + 1, foa) == [TraceOfVariant(variants[n], foa)];
    } else {
      assert VariantsTell(variants, n, n, foa) == [];
    }
  }

  lemma TraceOfVariantsFrom(variants: seq<Variant>, k: nat, foa: bool)
    requires k <= |variants|
    ensures VariantsTraceFrom(variants, k, foa) ==
      if k == |variants| then Trace([], [], [], [], [], [])
      else if EndOfVariant(variants[k], foa).Threw? then TraceOfVariant(variants[k], foa)
      else Plus(TraceOfVariant(variants[k], foa), VariantsTraceFrom(variants, k + 1, foa))
  {
  }

  lemma VariantsReturn(variants: seq<Variant>, n: nat, foa: bool)
    requires Returning(variants, foa, n)
    ensures ResultsFrom(variants, 0, foa) == seq(n, i requires 0 <= i < n => EndOfVariant(variants[i], foa))
    ensures EscapedFrom(variants, 0, foa)
         == if n < |variants| then Some(EndOfVariant(variants[n], foa).error) else None
  {
    ResultsFollowVariants(variants, 0, foa);
    var results := ResultsFrom(variants, 0, foa);
    ReturnedIsFinished(variants, n, foa);
  }

  lemma ReturnedIsFinished(variants: seq<Variant>, i: nat, foa: bool)
    ensures |ResultsFrom(variants, 0, foa)| <= |variants|
    ensures i < |ResultsFrom(variants, 0, foa)| ==> EndOfVariant(variants[i], foa).Finished?
  {
    ResultsFollowVariants(variants, 0, foa);
    assert i < |ResultsFrom(variants, 0, foa)| ==> ResultsFrom(variants, 0, foa)[i].Finished?;
  }

  ghost predicate Contains(text: string, part: string) {
    exists before, after :: text == before + part + after
  }

  lemma CancellationIff(error: Error, aborted: bool)
    ensures IsCancellation(error, aborted) <==> aborted || Contains(error, "cancelled")
  {
    if i :| 0 <= i < |error| && CancelledAt(error, i) { assert error == error[..i] + "cancelled" + error[i + 9..]; }
    if before, after :| error == before + "cancelled" + after { assert CancelledAt(error, |before|); }
  }

  /** How a run ends: cancelled if what escapes came with the signal set or says so; and
      otherwise failed exactly if a variant is recorded as failed. Recorded are those
      that returned, and of an error before any of them that error. */
  lemma RunEnds(variants: seq<Variant>, aborted: bool, foa: bool, n: nat)
    requires Returning(variants, foa, n)
    ensures var end := EndOfRun(variants, aborted, foa);
            var returned := seq(n, i requires 0 <= i < n => EndOfVariant(variants[i], foa));
            var cancelled := n < |variants|
              && (aborted || Contains(EndOfVariant(variants[n], foa).error, "cancelled"));
            && (end.status == Cancelled <==> cancelled)
            && end.results == (if n == 0 < |variants| && !cancelled
                               then [Finished(false, 1, EndOfVariant(variants[0], foa).error)] else returned)
            && (!cancelled ==>
                  (end.status == Failed <==>
                     ((n == 0 < |variants|)
                      || exists i :: 0 <= i < n && !EndOfVariant(variants[i], foa).passed)))
  {
    VariantsReturn(variants, n, foa);
    var returned := ResultsFrom(variants, 0, foa);
    if n < |variants| { CancellationIff(EndOfVariant(variants[n], foa).error, aborted); }
    if i :| 0 <= i < n && !EndOfVariant(variants[i], foa).passed {
      assert returned[i] == EndOfVariant(variants[i], foa);
    }
    if n == 0 < |variants| { assert [Finished(false, 1, EndOfVariant(variants[0], foa).error)][0].Finished?; }
  }

  /** A run tells that it starts, then of its variants up to the one that throws, then of
      what that threw unless it is a cancellation, and then of its status. */
  lemma RunTells(variants: seq<Variant>, aborted: bool, foa: bool, n: nat) returns (body: Trace)
    requires Returning(variants, foa, n)
    ensures MadeOf(body, VariantsTell(variants, 0, if n < |variants| then n + 1 else n, foa))
    ensures var t, end := TraceOfRun(variants, aborted, foa), EndOfRun(variants, aborted, foa);
            && t.events == [RunStarted] + body.events
                 + (if n < |variants| && end.status != Cancelled
                    then [RunError(EndOfVariant(variants[n], foa).error)] else [])
                 + [RunFinished(end.status)]
            && t.checks == body.checks && t.audits == body.audits
            && t.console == body.console && t.network == body.network && t.pageErrors == body.pageErrors
  {
    VariantsTellAll(variants, 0, n, foa);
    VariantsReturn(variants, n, foa);
    body := VariantsTraceFrom(variants, 0, foa);
    RunAround(variants, aborted, foa);
  }

  lemma RunAround(variants: seq<Variant>, aborted: bool, foa: bool)
    ensures var t, body, escaped := TraceOfRun(variants, aborted, foa), VariantsTraceFrom(variants, 0, foa),
                                    EscapedFrom(variants, 0, foa);
            var status := EndOfRun(variants, aborted, foa).status;
            && t.events == [RunStarted] + body.events
                 + (if escaped.Some? && status != Cancelled then [RunError(escaped.value)] else [])
                 + [RunFinished(status)]
            && t.checks == body.checks && t.audits == body.audits
            && t.console == body.console && t.network == body.network && t.pageErrors == body.pageErrors
  {
    var escaped := EscapedFrom(variants, 0, foa);
    Wrapped(VariantsTraceFrom(variants, 0, foa),
            if escaped.Some? && !IsCancellation(escaped.value, aborted) then escaped else None,
            EndOfRun(variants, aborted, foa).status);
  }

  lemma Wrapped(body: Trace, error: Option<Error>, status: Status)
    ensures var started := Plus(Said(RunStarted), body);
            var t := Plus(if error.Some? then Plus(started, Said(RunError(error.value))) else started,
                          Said(RunFinished(status)));
            && t.events == [RunStarted] + body.events + (if error.Some? then [RunError(error.value)] else [])
                           + [RunFinished(status)]
            && t.checks == body.checks && t.audits == body.audits
            && t.console == body.console && t.network == body.network && t.pageErrors == body.pageErrors
  {
  }
}
