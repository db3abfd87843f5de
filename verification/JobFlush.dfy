/** Flushing one job's record: the snapshot is taken under the lock, and the row
    is written outside it, so that two flushes can land in either order, or fail. */
module JobFlush {
  import opened Common

  /** A flush is known by the position in the run at which it took its snapshot. */
  datatype Step = Change | Take | Land(flush: nat) | Lose(flush: nat)

  /** Snapshots are known by how many changes they hold; `flights` are the
      flushes that have taken theirs and not tried to write it. */
  datatype State = State(memory: nat, dirty: bool, flights: map<nat, nat>, row: Option<nat>)

  /** The record has just been created, and not been flushed yet. */
  const CREATED: State := State(0, true, map[], None)

  predicate Enabled(s: State, step: Step) {
    step.Land? || step.Lose? ==> step.flush in s.flights
  }

  /** `now` is the position of the step in the run. */
  function Next(s: State, step: Step, now: nat): State
    requires Enabled(s, step)
  {
    match step
    case Change => s.(memory := s.memory + 1, dirty := true)
    case Take => s.(dirty := false, flights := s.flights[now := s.memory])
    case Land(flush) => s.(flights := s.flights - {flush}, row := Some(s.flights[flush]))
    case Lose(flush) => s.(flights := s.flights - {flush})
  }

  ghost predicate Run(steps: seq<Step>)
    decreases |steps|, 0
  {
    steps == [] || (Run(steps[..|steps| - 1]) && Enabled(After(steps[..|steps| - 1]), steps[|steps| - 1]))
  }

  ghost function After(steps: seq<Step>): State
    requires Run(steps)
    decreases |steps|, 1
  {
    if steps == [] then CREATED
    else Next(After(steps[..|steps| - 1]), steps[|steps| - 1], |steps| - 1)
  }

  function Changes(steps: seq<Step>): nat {
    if steps == [] then 0
    else Changes(steps[..|steps| - 1]) + if steps[|steps| - 1].Change? then 1 else 0
  }

  predicate NoChangeSince(steps: seq<Step>, p: int) {
    forall k | 0 <= k < |steps| && p < k :: !steps[k].Change?
  }

  lemma {:induction false} ChangesSince(steps: seq<Step>, p: nat)
    requires p <= |steps|
    ensures Changes(steps[..p]) <= Changes(steps)
    ensures Changes(steps[..p]) == Changes(steps) <==> NoChangeSince(steps, p - 1)
    decreases |steps|
  {
    if p == |steps| {
      assert steps[..p] == steps;
    } else {
      var before := steps[..|steps| - 1];
      assert before[..p] == steps[..p];
      ChangesSince(before, p);
    }
  }

  /** The flush whose row was written last. */
  function LastLanded(steps: seq<Step>): Option<nat> {
    if steps == [] then None
    else if steps[|steps| - 1].Land? then Some(steps[|steps| - 1].flush)
    else LastLanded(steps[..|steps| - 1])
  }

  ghost predicate Counted(steps: seq<Step>)
    requires Run(steps)
  {
    var s := After(steps);
    && s.memory == Changes(steps)
    && (forall f | f in s.flights :: f < |steps| && s.flights[f] == Changes(steps[..f]) && steps[f].Take?)
    && match LastLanded(steps)
       case None => s.row == None
       case Some(f) => f < |steps| && s.row == Some(Changes(steps[..f])) && steps[f].Take?
  }

  lemma {:induction false} RunIsCounted(steps: seq<Step>)
    requires Run(steps)
    ensures Counted(steps)
    decreases |steps|
  {
    if steps != [] {
      var before := steps[..|steps| - 1];
      RunIsCounted(before);
      forall f: nat | f <= |before| ensures before[..f] == steps[..f] {
      }
    }
  }

  /** In every run the row holds the present record exactly when some flush has
      landed and nothing has changed since the one that landed last took its snapshot. */
  lemma RowIsCurrentIff(steps: seq<Step>)
    requires Run(steps)
    ensures After(steps).row == Some(After(steps).memory)
       <==> LastLanded(steps).Some? && NoChangeSince(steps, LastLanded(steps).value)
  {
    RunIsCounted(steps);
    match LastLanded(steps)
    case None =>
    case Some(f) => ChangesSince(steps, f);
  }

  /** So a record can be clean, with no flush under way, and its row still be an
      older one: two flushes crossed. */
  lemma FlushesCanCross()
    ensures var steps := [Change, Take, Change, Take, Land(3), Land(1)];
            Run(steps) && After(steps) == State(2, false, map[], Some(1))
  {
    var steps := [Change, Take, Change, Take, Land(3), Land(1)];
    assert steps[..5] == [Change, Take, Change, Take, Land(3)];
    assert steps[..5][..4] == [Change, Take, Change, Take];
    assert steps[..5][..4][..3] == [Change, Take, Change];
    assert steps[..5][..4][..3][..2] == [Change, Take];
    assert steps[..5][..4][..3][..2][..1] == [Change];
    var a, b, c, d, e := [Change], [Change, Take], [Change, Take, Change], [Change, Take, Change, Take], steps[..5];
    assert a[..0] == [] && Run(a) && After(a) == State(1, true, map[], None);
    assert Run(b) && After(b) == State(1, false, map[1 := 1], None);
    assert Run(c) && After(c) == State(2, true, map[1 := 1], None);
    assert Run(d) && After(d) == State(2, false, map[1 := 1, 3 := 2], None);
    assert Run(e) && After(e) == State(2, false, map[1 := 1], Some(2));
  }

  /** Or a write failed: nothing marks the record dirty again. */
  lemma LostFlushIsForgotten()
    ensures var steps := [Take, Land(0), Change, Take, Lose(3)];
            Run(steps) && After(steps) == State(1, false, map[], Some(0))
  {
    var steps := [Take, Land(0), Change, Take, Lose(3)];
    assert steps[..4] == [Take, Land(0), Change, Take];
    assert steps[..4][..3] == [Take, Land(0), Change];
    assert steps[..4][..3][..2] == [Take, Land(0)];
    assert steps[..4][..3][..2][..1] == [Take];
    var a, b, c, d := [Take], [Take, Land(0)], [Take, Land(0), Change], steps[..4];
    assert a[..0] == [] && Run(a) && After(a) == State(0, false, map[0 := 0], None);
    assert Run(b) && After(b) == State(0, false, map[], Some(0));
    assert Run(c) && After(c) == State(1, true, map[], Some(0));
    assert Run(d) && After(d) == State(1, false, map[3 := 1], Some(0));
  }
}
