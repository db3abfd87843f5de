/** What becomes of one emitted event: it gets a number, is replayed while the log
    retains it, and comes back after a restart. The statements are about the steps
    of the run alone. */
module EventDelivery {
  import opened Common
  import opened EventIds
  import opened EventBus

  /** How many events a run emits, and how many of them durably. */
  ghost function Emissions(steps: seq<Step>): nat {
    if steps == [] then 0 else (if steps[0].Assign? then 1 else 0) + Emissions(steps[1..])
  }

  ghost function DurableEmissions(steps: seq<Step>): nat {
    if steps == [] then 0
    else (if steps[0].Assign? && steps[0].durable then 1 else 0) + DurableEmissions(steps[1..])
  }

  /** The number that the event of step `i` gets. */
  ghost function NumberOf(first: nat, steps: seq<Step>, i: nat): nat
    requires i <= |steps|
  {
    first + Emissions(steps[..i])
  }

  lemma {:induction false} EmissionsAdd(a: seq<Step>, b: seq<Step>)
    ensures Emissions(a + b) == Emissions(a) + Emissions(b)
  {
    if a == [] {
      assert a + b == b;
    } else {
      assert (a + b)[1..] == a[1..] + b;
      EmissionsAdd(a[1..], b);
    }
  }

  /** Numbers are given in the order of the steps, to each event its own. */
  lemma NumbersFollowSteps(first: nat, steps: seq<Step>, i: nat, j: nat)
    requires i < j < |steps| && steps[i].Assign?
    ensures NumberOf(first, steps, i) < NumberOf(first, steps, j)
  {
    assert steps[..j] == steps[..i] + steps[i..j] && steps[i..j] == [steps[i]] + steps[i + 1..j];
    EmissionsAdd(steps[..i], steps[i..j]);
    EmissionsAdd([steps[i]], steps[i + 1..j]);
  }

  // A run in two parts.

  lemma {:induction false} RunParts(s: State, steps: seq<Step>, i: nat)
    requires i <= |steps| && Run(s, steps)
    ensures Run(s, steps[..i]) && Run(After(s, steps[..i]), steps[i..])
    ensures After(After(s, steps[..i]), steps[i..]) == After(s, steps)
    decreases i
  {
    if i == 0 {
      assert steps[0..] == steps;
    } else {
      RunParts(Next(s, steps[0]), steps[1..], i - 1);
      assert steps[..i][1..] == steps[1..][..i - 1];
      assert steps[1..][i - 1..] == steps[i..];
    }
  }

  lemma {:induction false} NumbersAdvance(s: State, steps: seq<Step>)
    requires Run(s, steps)
    ensures After(s, steps).nextSequence == s.nextSequence + Emissions(steps)
    decreases |steps|
  {
    if steps != [] {
      NumbersAdvance(Next(s, steps[0]), steps[1..]);
    }
  }

  // The log.

  /** `e` is the last event but `m`, or has been dropped with all before it. */
  ghost predicate Since(events: seq<Event>, e: Event, m: nat) {
    if m < MAX_EVENTS
    then m < |events| && events[|events| - 1 - m] == e
    else forall x | x in events :: e.sequence < x.sequence
  }

  lemma StepKeepsSince(s: State, step: Step, e: Event, m: nat)
    requires LogInv(s) && Enabled(s, step) && Since(s.events, e, m) && e.sequence < s.nextSequence
    ensures Since(Next(s, step).events, e, if step.Assign? then m + 1 else m)
  {
    if step.Assign? {
      var grown := s.events + [NewEvent(s, step)];
      var kept := Next(s, step).events;
      if m < MAX_EVENTS {
        assert grown[|grown| - 1 - (m + 1)] == e;
        if m + 1 < MAX_EVENTS {
          assert kept[|kept| - 1 - (m + 1)] == e;
        } else {
          assert s.events[0] == e && kept == grown[1..];
        }
      }
    }
  }

  lemma {:induction false} RunKeepsSince(s: State, steps: seq<Step>, written: Table, e: Event, m: nat)
    requires Run(s, steps) && Safe(s, written) && Since(s.events, e, m) && e.sequence < s.nextSequence
    ensures Since(After(s, steps).events, e, m + Emissions(steps)) && LogInv(After(s, steps))
    decreases |steps|
  {
    if steps != [] {
      var step := steps[0];
      var t := Next(s, step);
      assert Since(t.events, e, if step.Assign? then m + 1 else m) by { StepKeepsSince(s, step, e, m); }
      assert Safe(t, NextWritten(s, step, written)) by { StepKeepsSafe(s, step, written); }
      assert e.sequence < t.nextSequence;
      RunKeepsSince(t, steps[1..], NextWritten(s, step, written), e, if step.Assign? then m + 1 else m);
    }
  }

  lemma SinceMeansReplayed(events: seq<Event>, e: Event, m: nat)
    requires Ordered(events) && Since(events, e, m) && e.sequence > 0
    ensures (exists x :: x in events && x.sequence == e.sequence) <==> m < MAX_EVENTS
    ensures forall x | x in events && x.sequence == e.sequence :: x == e && Page(events, e.sequence - 1, 1) == [e]
  {
    if m < MAX_EVENTS {
      assert e in events;
      PageAtEvent(events, e);
    }
  }

  lemma EmissionStays(s: State, step: Step, rest: seq<Step>, written: Table)
    requires Safe(s, written) && step.Assign? && Run(Next(s, step), rest)
    ensures var t := After(Next(s, step), rest);
            Since(t.events, NewEvent(s, step), Emissions(rest)) && Ordered(t.events)
  {
    AssignKeepsSafe(s, step, written);
    RunKeepsSince(Next(s, step), rest, written, NewEvent(s, step), 0);
  }

  lemma NumbersArePositive(table: Table, cutoff: int, steps: seq<Step>)
    requires Run(Reopened(table, cutoff), steps)
    ensures After(Reopened(table, cutoff), steps).nextSequence > 0
  {
    NumbersAdvance(Reopened(table, cutoff), steps);
  }

  /** The state before step `i`, and what is left of the run. */
  lemma AtStep(s: State, steps: seq<Step>, i: nat)
    requires Run(s, steps) && i < |steps|
    ensures Run(s, steps[..i]) && Enabled(After(s, steps[..i]), steps[i])
    ensures var before := After(s, steps[..i]);
            && before.nextSequence == NumberOf(s.nextSequence, steps, i)
            && Run(Next(before, steps[i]), steps[i + 1..])
            && After(Next(before, steps[i]), steps[i + 1..]) == After(s, steps)
  {
    RunParts(s, steps, i);
    NumbersAdvance(s, steps[..i]);
    assert steps[i..][0] == steps[i] && steps[i..][1..] == steps[i + 1..];
  }

  /** In every run of a bus opened over any table, faults included, each event that is
      emitted, volatile or not, gets the next number; and as long as fewer than 10,000
      have been emitted after it, and no longer, replay returns it as it was emitted. */
  lemma EmittedEventIsReplayed(table: Table, cutoff: int, steps: seq<Step>, i: nat)
    requires Run(Reopened(table, cutoff), steps) && i < |steps| && steps[i].Assign?
    ensures var n := NumberOf(Reopened(table, cutoff).nextSequence, steps, i);
            var events := After(Reopened(table, cutoff), steps).events;
            && n > 0
            && ((exists e :: e in events && e.sequence == n) <==> Emissions(steps[i + 1..]) < 10_000)
            && (forall e | e in events && e.sequence == n ::
                 && Page(events, n - 1, 1) == [e]
                 && e.id == steps[i].id && e.timestamp == steps[i].timestamp
                 && e.kind == steps[i].kind && e.payload == steps[i].payload && Names(steps[i].kind, e.category))
  {
    var start := Reopened(table, cutoff);
    OpenIsSafe(table, cutoff);
    AtStep(start, steps, i);
    var before := After(start, steps[..i]);
    var written := EveryRunIsSafe(start, steps[..i], Prune(table, cutoff));
    NumbersArePositive(table, cutoff, steps[..i]);
    EmissionStays(before, steps[i], steps[i + 1..], written);
    SinceMeansReplayed(After(start, steps).events, NewEvent(before, steps[i]), Emissions(steps[i + 1..]));
    KindNamesCategory(steps[i].kind);
  }

  // The durable rows.

  lemma {:induction false} LaterKeepRow(s: State, steps: seq<Step>, rows: Table, n: nat)
    requires Run(s, steps) && n in rows && n < s.nextSequence
    ensures n in Emitted(s, steps, rows) && Emitted(s, steps, rows)[n] == rows[n]
    decreases |steps|
  {
    if steps != [] {
      var step := steps[0];
      LaterKeepRow(Next(s, step), steps[1..], NextEmitted(s, step, rows), n);
    }
  }

  lemma {:induction false} EmittedParts(s: State, steps: seq<Step>, rows: Table, i: nat)
    requires i <= |steps| && Run(s, steps)
    ensures Run(s, steps[..i]) && Run(After(s, steps[..i]), steps[i..])
    ensures Emitted(After(s, steps[..i]), steps[i..], Emitted(s, steps[..i], rows)) == Emitted(s, steps, rows)
    decreases i
  {
    RunParts(s, steps, i);
    if i == 0 {
      assert steps[0..] == steps;
    } else {
      EmittedParts(Next(s, steps[0]), steps[1..], NextEmitted(s, steps[0], rows), i - 1);
      assert steps[..i][1..] == steps[1..][..i - 1];
      assert steps[1..][i - 1..] == steps[i..];
    }
  }

  lemma {:induction false} RowsBelowNext(s: State, steps: seq<Step>, rows: Table)
    requires Run(s, steps) && forall k | k in rows :: k < s.nextSequence
    ensures forall k | k in Emitted(s, steps, rows) :: k < After(s, steps).nextSequence
    decreases |steps|
  {
    if steps != [] {
      RowsBelowNext(Next(s, steps[0]), steps[1..], NextEmitted(s, steps[0], rows));
    }
  }

  /** Above a number given out already come just the durable events still to be emitted. */
  lemma {:induction false} RowsAbove(s: State, steps: seq<Step>, rows: Table, n: nat)
    requires Run(s, steps) && n < s.nextSequence && forall k | k in rows :: k < s.nextSequence
    ensures |Above(Emitted(s, steps, rows).Keys, n)| == |Above(rows.Keys, n)| + DurableEmissions(steps)
    decreases |steps|
  {
    if steps != [] {
      var step := steps[0];
      var more := NextEmitted(s, step, rows);
      if step.Assign? && step.durable {
        assert Above(more.Keys, n) == Above(rows.Keys, n) + {s.nextSequence};
      }
      RowsAbove(Next(s, step), steps[1..], more, n);
    }
  }

  lemma RowStays(s: State, step: Step, rest: seq<Step>, rows: Table)
    requires step.Assign? && step.durable && Run(Next(s, step), rest)
    requires forall k | k in rows :: k < s.nextSequence
    ensures var all := Emitted(Next(s, step), rest, NextEmitted(s, step, rows));
            var n := s.nextSequence;
            n in all && all[n] == ToRow(NewEvent(s, step)) && |Above(all.Keys, n)| == DurableEmissions(rest)
  {
    var more := NextEmitted(s, step, rows);
    LaterKeepRow(Next(s, step), rest, more, s.nextSequence);
    RowsAbove(Next(s, step), rest, more, s.nextSequence);
    assert Above(more.Keys, s.nextSequence) == {};
  }

  lemma RowOfEmission(table: Table, cutoff: int, steps: seq<Step>, i: nat)
    requires !Expires(table, cutoff) && Run(Reopened(table, cutoff), steps)
    requires i < |steps| && steps[i].Assign? && steps[i].durable
    ensures var start := Reopened(table, cutoff);
            var n, rows, step := NumberOf(start.nextSequence, steps, i), Emitted(start, steps, table), steps[i];
            && n in rows && |Above(rows.Keys, n)| == DurableEmissions(steps[i + 1..])
            && rows[n] == Row(Some(step.id), CategoryFor(step.kind), step.kind, step.payload,
                              step.timestamp / 1_000_000)
  {
    var start := Reopened(table, cutoff);
    OpenNumbersAbove(table, cutoff);
    AtStep(start, steps, i);
    EmittedParts(start, steps, table, i);
    RowsBelowNext(start, steps[..i], table);
    assert steps[i..][0] == steps[i] && steps[i..][1..] == steps[i + 1..];
    RowStays(After(start, steps[..i]), steps[i], steps[i + 1..], Emitted(start, steps[..i], table));
  }

  lemma NewestHolds(rows: Table, e: Event)
    ensures e in Newest(rows) <==> e.sequence in NewestIds(rows) && e == FromRow(e.sequence, rows[e.sequence])
  {
    var ids := Ascending(NewestIds(rows));
    if e.sequence in NewestIds(rows) && e == FromRow(e.sequence, rows[e.sequence]) {
      var i :| 0 <= i < |ids| && ids[i] == e.sequence;
      assert Newest(rows)[i] == e;
    }
  }

  lemma RowIsLoaded(rows: Table, n: nat, step: Step)
    requires step.Assign? && n in rows
    requires rows[n] == Row(Some(step.id), CategoryFor(step.kind), step.kind, step.payload, step.timestamp / 1_000_000)
    ensures (exists e :: e in Newest(rows) && e.sequence == n) <==> |Above(rows.Keys, n)| < MAX_EVENTS
    ensures forall e | e in Newest(rows) && e.sequence == n ::
              && e.id == step.id && e.kind == step.kind && e.payload == step.payload && Names(step.kind, e.category)
              && e.timestamp % 1_000_000 == 0 && e.timestamp <= step.timestamp < e.timestamp + 1_000_000
  {
    var loaded := FromRow(n, rows[n]);
    NewestHolds(rows, loaded);
    KindNamesCategory(step.kind);
    forall e | e in Newest(rows) && e.sequence == n ensures e == loaded && n in NewestIds(rows) {
      NewestHolds(rows, e);
    }
  }

  /** A durable event of a run without failed inserts or rows past their age is loaded
      by a restart, once the queue is drained, exactly if fewer than 10,000 durable
      events were emitted after it; and it comes back as it was emitted, its time cut
      to the millisecond. */
  lemma DurableEventComesBack(table: Table, cutoff: int, steps: seq<Step>, later: int, i: nat)
    requires !Expires(table, cutoff)
    requires Run(Reopened(table, cutoff), steps) && Clean(Reopened(table, cutoff), steps)
    requires After(Reopened(table, cutoff), steps).sending == {}
    requires i < |steps| && steps[i].Assign? && steps[i].durable
    ensures var start := Reopened(table, cutoff);
            var n, s := NumberOf(start.nextSequence, steps, i), After(start, steps);
            Run(s, Drain(s)) &&
            var drained := After(s, Drain(s));
            !Expires(drained.table, later) ==>
              var events := Reopened(drained.table, later).events;
              && ((exists e :: e in events && e.sequence == n) <==> DurableEmissions(steps[i + 1..]) < 10_000)
              && (forall e | e in events && e.sequence == n ::
                   && e.id == steps[i].id && e.kind == steps[i].kind && e.payload == steps[i].payload
                   && Names(steps[i].kind, e.category)
                   && e.timestamp % 1_000_000 == 0 && e.timestamp <= steps[i].timestamp < e.timestamp + 1_000_000)
  {
    var rows := Emitted(Reopened(table, cutoff), steps, table);
    DrainAndReopenLoadsNewest(table, cutoff, steps, later);
    RowOfEmission(table, cutoff, steps, i);
    RowIsLoaded(rows, NumberOf(Reopened(table, cutoff).nextSequence, steps, i), steps[i]);
  }

  lemma {:induction false} RowsAreEmitted(s: State, steps: seq<Step>, rows: Table, k: nat)
    returns (i: nat)
    requires Run(s, steps) && k in Emitted(s, steps, rows)
    ensures i <= |steps|
    ensures i == |steps| ==> k in rows && Emitted(s, steps, rows)[k] == rows[k]
    ensures i < |steps| ==> steps[i].Assign? && steps[i].durable && k == NumberOf(s.nextSequence, steps, i)
    decreases |steps|
  {
    if steps == [] {
      i := 0;
    } else {
      var step := steps[0];
      i := RowsAreEmitted(Next(s, step), steps[1..], NextEmitted(s, step, rows), k);
      i := i + 1;
      if i < |steps| {
        assert steps[..i] == [step] + steps[1..][..i - 1];
        EmissionsAdd([step], steps[1..][..i - 1]);
      } else if step.Assign? && step.durable && k == s.nextSequence {
        i := 0;
      }
    }
  }

  /** And a restart loads nothing else: every event it loads was emitted by such a step
      of the run or was in the table before. */
  lemma OnlyEmittedEventsComeBack(table: Table, cutoff: int, steps: seq<Step>, later: int, e: Event)
    requires !Expires(table, cutoff)
    requires Run(Reopened(table, cutoff), steps) && Clean(Reopened(table, cutoff), steps)
    requires After(Reopened(table, cutoff), steps).sending == {}
    ensures var start := Reopened(table, cutoff);
            var s := After(start, steps);
            Run(s, Drain(s)) &&
            var drained := After(s, Drain(s));
            !Expires(drained.table, later) && e in Reopened(drained.table, later).events ==>
              || (exists i :: 0 <= i < |steps| && steps[i].Assign? && steps[i].durable
                   && e.sequence == NumberOf(start.nextSequence, steps, i))
              || (e.sequence in table && var row := table[e.sequence];
                   row.eventId == Some(e.id) && e.kind == row.kind && e.payload == row.payload
                   && e.timestamp == row.createdAt * 1_000_000 && Names(row.kind, e.category))
  {
    var start := Reopened(table, cutoff);
    var rows := Emitted(start, steps, table);
    DrainAndReopenLoadsNewest(table, cutoff, steps, later);
    NewestHolds(rows, e);
    if e in Newest(rows) {
      var i := RowsAreEmitted(start, steps, table, e.sequence);
      KindNamesCategory(rows[e.sequence].kind);
    }
  }
}
