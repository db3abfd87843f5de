/** The sequence-numbered event bus: a bounded in-memory log in front of a
    durable table that a writer thread fills behind the emitters' backs. */
module EventBus {
  import opened Common
  import opened EventIds

  const MAX_EVENTS: nat := 10_000
  const MAX_REPLAY: nat := 1000
  const NANOS_PER_MILLI := 1_000_000

  datatype Category =
    | Session | Terminal | Git | File | Browser | Approval | Task | Agent | Job | System

  /** `timestamp` counts nanoseconds; `payload` is the JSON text of the payload. */
  datatype Event = Event(
    id: nat, sequence: nat, timestamp: int, category: Category, kind: string, payload: string)

  /** A row of `agent_events`; its primary key is the sequence. Rows from before
      the `event_id` column have no id. */
  datatype Row = Row(
    eventId: Option<nat>, category: Category, kind: string, payload: string, createdAt: int)

  type Table = map<nat, Row>

  function FirstSegment(kind: string): string {
    if kind == "" || kind[0] == '.' then "" else [kind[0]] + FirstSegment(kind[1..])
  }

  function CategoryFor(kind: string): Category {
    match FirstSegment(kind)
    case "session" => Session
    case "terminal" => Terminal
    case "git" => Git
    case "file" => File
    case "browser" => Browser
    case "approval" => Approval
    case "task" => Task
    case "agent" => Agent
    case "job" => Job
    case _ => System
  }

  /** The name of a category, as the durable table spells it. */
  function CategoryName(category: Category): string {
    match category
    case Session => "session"
    case Terminal => "terminal"
    case Git => "git"
    case File => "file"
    case Browser => "browser"
    case Approval => "approval"
    case Task => "task"
    case Agent => "agent"
    case Job => "job"
    case System => "system"
  }

  /** The text before the first dot of `kind`, or all of it, names the category,
      which is System where it names none. */
  ghost predicate Names(kind: string, category: Category) {
    exists n ::
      && 0 <= n <= |kind| && (forall i | 0 <= i < n :: kind[i] != '.') && (n < |kind| ==> kind[n] == '.')
      && (kind[..n] == CategoryName(category) || (category.System? && forall c :: kind[..n] != CategoryName(c)))
  }

  lemma {:induction false} FirstSegmentEnds(kind: string) returns (n: nat)
    ensures n <= |kind| && FirstSegment(kind) == kind[..n]
    ensures (forall i | 0 <= i < n :: kind[i] != '.') && (n < |kind| ==> kind[n] == '.')
  {
    n := 0;
    if kind != "" && kind[0] != '.' {
      n := FirstSegmentEnds(kind[1..]);
      assert kind == [kind[0]] + kind[1..];
      assert kind[..n + 1] == [kind[0]] + kind[1..][..n];
      n := n + 1;
    }
  }

  lemma KindNamesCategory(kind: string)
    ensures Names(kind, CategoryFor(kind))
  {
    var n := FirstSegmentEnds(kind);
  }

  function ToRow(e: Event): Row {
    Row(Some(e.id), e.category, e.kind, e.payload, e.timestamp / NANOS_PER_MILLI)
  }

  function FromRow(sequence: nat, row: Row): Event
    requires row.eventId.Some?
  {
    Event(row.eventId.value, sequence, row.createdAt * NANOS_PER_MILLI,
          CategoryFor(row.kind), row.kind, row.payload)
  }

  /** A row as a restart reads it: the category stored is not looked at. */
  function Refiled(row: Row): Row { row.(category := CategoryFor(row.kind)) }

  /** What the database keeps of an event: its timestamp is cut to a millisecond. */
  function ToMillis(e: Event): Event {
    e.(timestamp := e.timestamp / NANOS_PER_MILLI * NANOS_PER_MILLI)
  }

  function Identified(table: Table): set<nat> {
    set i | i in table && table[i].eventId.Some?
  }

  /** `DELETE ... WHERE created_at < cutoff OR id NOT IN (the newest MAX_EVENTS)`. */
  function Prune(table: Table, cutoff: int): Table {
    var kept := Top(table.Keys, MAX_EVENTS);
    map i | i in kept && i in table && table[i].createdAt >= cutoff :: table[i]
  }

  function RowsInOrder(table: Table, wanted: set<nat>): seq<Event>
    requires wanted <= Identified(table)
  {
    var ids := Ascending(wanted);
    seq(|ids|, i requires 0 <= i < |ids| => FromRow(ids[i], table[ids[i]]))
  }

  function LoadRecent(table: Table): seq<Event> {
    RowsInOrder(table, Top(Identified(table), MAX_EVENTS))
  }

  /** `coalesce(max(id), 0) + 1`. */
  function NextSequence(table: Table): (n: nat)
    ensures forall i :: i in table ==> i < n
    ensures n == 1 || n - 1 in table
  {
    if table == map[] then
      1
    else
      assert table.Keys != {};
      var ids := Ascending(table.Keys);
      ids[|ids| - 1] + 1
  }

  // The bus as a machine of atomic steps. An emitter takes its sequence under
  // the log's lock, and only later hands the event to the writer's queue, so
  // the queue need not be in sequence order.

  /** `sending` holds durable events whose emitter has not reached the queue yet. */
  datatype State = State(
    events: seq<Event>, nextSequence: nat, sending: set<Event>, queue: seq<Event>, table: Table)

  datatype Step =
    | Assign(id: nat, timestamp: int, kind: string, payload: string, durable: bool)
    | Enqueue(event: Event)
    | Insert
    | InsertFails
    | PruneNow(cutoff: int)

  function Reopened(table: Table, cutoff: int): State {
    var kept := Prune(table, cutoff);
    State(LoadRecent(kept), NextSequence(kept), {}, [], kept)
  }

  function NewEvent(s: State, step: Step): Event
    requires step.Assign?
  {
    Event(step.id, s.nextSequence, step.timestamp, CategoryFor(step.kind), step.kind, step.payload)
  }

  ghost predicate Enabled(s: State, step: Step) {
    match step
    case Assign(_, _, _, _, _) => true
    case Enqueue(e) => e in s.sending
    case Insert => s.queue != []
    case InsertFails => s.queue != []
    case PruneNow(_) => true
  }

  function Next(s: State, step: Step): State
    requires Enabled(s, step)
  {
    match step
    case Assign(_, _, _, _, durable) =>
      var e := NewEvent(s, step);
      s.(events := LastOf(s.events + [e], MAX_EVENTS),
         nextSequence := s.nextSequence + 1,
         sending := if durable then s.sending + {e} else s.sending)
    case Enqueue(e) => s.(sending := s.sending - {e}, queue := s.queue + [e])
    case Insert =>
      var e := s.queue[0];
      s.(queue := s.queue[1..], table := s.table[e.sequence := ToRow(e)])
    case InsertFails => s.(queue := s.queue[1..])
    case PruneNow(cutoff) => s.(table := Prune(s.table, cutoff))
  }

  ghost predicate Run(s: State, steps: seq<Step>)
    decreases |steps|
  {
    steps == [] || (Enabled(s, steps[0]) && Run(Next(s, steps[0]), steps[1..]))
  }

  ghost function After(s: State, steps: seq<Step>): State
    requires Run(s, steps)
    decreases |steps|
  {
    if steps == [] then s else After(Next(s, steps[0]), steps[1..])
  }

  /** The rows that the durable events of a run, stored in full and never
      pruned, would add to `rows`. */
  ghost function Emitted(s: State, steps: seq<Step>, rows: Table): Table
    requires Run(s, steps)
    decreases |steps|
  {
    if steps == [] then rows
    else
      var step := steps[0];
      Emitted(Next(s, step), steps[1..],
              if step.Assign? && step.durable
              then rows[s.nextSequence := ToRow(NewEvent(s, step))] else rows)
  }

  // Invariants. `written` is every row ever stored, `emitted` every row ever meant to be.

  ghost predicate Ordered(events: seq<Event>) {
    forall i, j :: 0 <= i < j < |events| ==> events[i].sequence < events[j].sequence
  }

  ghost function Pending(s: State): set<Event> {
    s.sending + (set e | e in s.queue)
  }

  ghost predicate LogInv(s: State) {
    && Ordered(s.events)
    && |s.events| <= MAX_EVENTS
    && (forall e | e in s.events :: e.sequence < s.nextSequence)
    && (forall e | e in Pending(s) :: e.sequence < s.nextSequence)
    && (forall k | k in s.table :: k < s.nextSequence)
  }

  /** No two durable events, wherever they are, share a sequence, so no insert
      ever meets an existing primary key. */
  ghost predicate DistinctInv(s: State, written: Table) {
    && (forall d, e | d in Pending(s) && e in Pending(s) :: d.sequence == e.sequence ==> d == e)
    && (forall i, j :: 0 <= i < j < |s.queue| ==> s.queue[i] != s.queue[j])
    && (forall e | e in s.queue :: e !in s.sending)
    && (forall e | e in Pending(s) :: e.sequence !in written)
  }

  ghost predicate TableInv(s: State, written: Table) {
    && (forall k | k in s.table :: k in written && s.table[k] == written[k])
    && (forall k | k in written :: k < s.nextSequence)
    && Top(s.table.Keys, MAX_EVENTS) == Top(written.Keys, MAX_EVENTS)
  }

  /** The log agrees with everything durable from its oldest event onwards. */
  ghost predicate CacheInv(s: State, written: Table) {
    && (forall e, k | e in s.events && k in written :: e.sequence == k ==> ToRow(e) == Refiled(written[k]))
    && (forall e, p | e in s.events && p in Pending(s) :: e.sequence == p.sequence ==> e == p)
    && (forall k | k in written && written[k].eventId.Some? && s.events != []
        && s.events[0].sequence <= k :: exists e :: e in s.events && e.sequence == k)
    && (forall p | p in Pending(s) && s.events != [] && s.events[0].sequence <= p.sequence ::
        p in s.events)
  }

  ghost predicate Filed(s: State) {
    forall p | p in Pending(s) :: p.category == CategoryFor(p.kind)
  }

  ghost predicate EmittedInv(s: State, written: Table, emitted: Table) {
    && (forall k | k in written :: k in emitted && emitted[k] == written[k])
    && (forall e | e in Pending(s) :: e.sequence in emitted && emitted[e.sequence] == ToRow(e))
    && (forall k | k in emitted :: k in written || exists e :: e in Pending(s) && e.sequence == k)
    && (forall k | k in emitted :: k < s.nextSequence)
  }

  ghost predicate Inv(s: State, written: Table) {
    LogInv(s) && DistinctInv(s, written) && TableInv(s, written) && CacheInv(s, written) && Filed(s)
  }

  ghost function NextWritten(s: State, step: Step, written: Table): Table
    requires Enabled(s, step)
  {
    if step.Insert? then written[s.queue[0].sequence := ToRow(s.queue[0])] else written
  }

  ghost predicate Expires(table: Table, cutoff: int) {
    exists k :: k in table && table[k].createdAt < cutoff
  }

  ghost predicate StepExpires(s: State, step: Step) {
    step.PruneNow? && Expires(s.table, step.cutoff)
  }

  lemma PruneKeepsTop(table: Table, cutoff: int)
    requires !Expires(table, cutoff)
    ensures Prune(table, cutoff).Keys == Top(table.Keys, MAX_EVENTS)
    ensures Top(Prune(table, cutoff).Keys, MAX_EVENTS) == Top(table.Keys, MAX_EVENTS)
    ensures forall k | k in Prune(table, cutoff) :: k in table && Prune(table, cutoff)[k] == table[k]
  {
    assert Prune(table, cutoff).Keys == Top(table.Keys, MAX_EVENTS);
    TopAbsorbs(table.Keys, {}, MAX_EVENTS);
    assert Top(table.Keys, MAX_EVENTS) + {} == Top(table.Keys, MAX_EVENTS);
    assert table.Keys + {} == table.Keys;
  }

  lemma InsertKeepsTop(table: Table, written: Table, k: nat, row: Row)
    requires Top(table.Keys, MAX_EVENTS) == Top(written.Keys, MAX_EVENTS)
    ensures Top(table[k := row].Keys, MAX_EVENTS) == Top(written[k := row].Keys, MAX_EVENTS)
  {
    TopAbsorbs(table.Keys, {k}, MAX_EVENTS);
    TopAbsorbs(written.Keys, {k}, MAX_EVENTS);
    assert table[k := row].Keys == table.Keys + {k};
    assert written[k := row].Keys == written.Keys + {k};
  }

  /** Appending the newest event and trimming the front drops only older events. */
  lemma PushAndTrim(events: seq<Event>, e: Event)
    requires Ordered(events) && |events| <= MAX_EVENTS
    requires forall x | x in events :: x.sequence < e.sequence
    ensures var t := LastOf(events + [e], MAX_EVENTS);
            && Ordered(t) && 0 < |t| <= MAX_EVENTS && t[|t| - 1] == e
            && (events != [] ==> events[0].sequence <= t[0].sequence)
            && (events == [] ==> t == [e])
            && (forall x :: x in t <==> (x in events || x == e) && t[0].sequence <= x.sequence)
  {
    if |events| < MAX_EVENTS {
      OrderedPush(events, e);
    } else {
      var rest := events[1..];
      assert events == [events[0]] + rest;
      assert LastOf(events + [e], MAX_EVENTS) == rest + [e];
      OrderedPush(rest, e);
      assert forall x | x in rest :: events[0].sequence < x.sequence;
    }
  }

  lemma OrderedPush(events: seq<Event>, e: Event)
    requires Ordered(events)
    requires forall x | x in events :: x.sequence < e.sequence
    ensures var t := events + [e];
            && Ordered(t) && (forall x :: x in t <==> x in events || x == e)
            && (forall x | x in t :: t[0].sequence <= x.sequence)
  {
    var t := events + [e];
    assert forall i :: 0 <= i < |events| ==> t[i] == events[i] && t[i] in events;
  }

  lemma AssignGrowsLog(s: State, step: Step)
    requires LogInv(s) && step.Assign?
    ensures var t, e := Next(s, step), NewEvent(s, step);
            && LogInv(t)
            && Pending(t) == Pending(s) + (if step.durable then {e} else {})
            && t.events != [] && t.events[|t.events| - 1] == e
            && (s.events != [] ==> s.events[0].sequence <= t.events[0].sequence)
            && (s.events == [] ==> t.events == [e])
            && (forall x :: x in t.events <==>
                  (x in s.events || x == e) && t.events[0].sequence <= x.sequence)
  {
    var t, e := Next(s, step), NewEvent(s, step);
    PushAndTrim(s.events, e);
    assert Pending(t) == Pending(s) + (if step.durable then {e} else {});
  }

  lemma AssignKeepsCache(s: State, step: Step, written: Table)
    requires LogInv(s) && CacheInv(s, written) && step.Assign?
    requires forall k | k in written :: k < s.nextSequence
    ensures CacheInv(Next(s, step), written)
  {
    var t, e := Next(s, step), NewEvent(s, step);
    AssignGrowsLog(s, step);
    assert s.events != [] ==> s.events[0] in s.events;
    forall k | k in written && written[k].eventId.Some? && t.events[0].sequence <= k
      ensures exists x :: x in t.events && x.sequence == k
    {
      var x :| x in s.events && x.sequence == k;
      assert x in t.events;
    }
  }

  lemma AssignKeepsDistinct(s: State, step: Step, written: Table)
    requires LogInv(s) && DistinctInv(s, written) && step.Assign?
    requires forall k | k in written :: k < s.nextSequence
    ensures DistinctInv(Next(s, step), written)
  {
    var t, e := Next(s, step), NewEvent(s, step);
    assert Pending(t) == Pending(s) + (if step.durable then {e} else {});
    forall x | x in s.queue ensures x !in t.sending {
      assert x in Pending(s);
    }
  }

  lemma AssignKeepsInv(s: State, step: Step, written: Table)
    requires Inv(s, written) && step.Assign?
    ensures Inv(Next(s, step), written)
  {
    AssignKeepsDistinct(s, step, written);
    AssignKeepsCache(s, step, written);
    assert LogInv(Next(s, step)) by {
      AssignGrowsLog(s, step);
    }
  }

  lemma EnqueueKeepsPending(s: State, step: Step)
    requires step.Enqueue? && Enabled(s, step)
    ensures Pending(Next(s, step)) == Pending(s)
  {
    assert forall x :: x in Next(s, step).queue <==> x in s.queue || x == step.event;
  }

  lemma EnqueueKeepsInv(s: State, step: Step, written: Table)
    requires Inv(s, written) && step.Enqueue? && Enabled(s, step)
    ensures Inv(Next(s, step), written)
    ensures Pending(Next(s, step)) == Pending(s)
  {
    EnqueueKeepsPending(s, step);
    assert forall x :: x in Next(s, step).queue <==> x in s.queue || x == step.event;
  }

  /** Taking the head of the queue, whether or not its insert succeeds. */
  lemma TakeFacts(s: State, step: Step, written: Table)
    requires LogInv(s) && DistinctInv(s, written) && s.table.Keys <= written.Keys
    requires (step.Insert? || step.InsertFails?) && Enabled(s, step)
    ensures var t, e := Next(s, step), s.queue[0];
            && LogInv(t) && DistinctInv(t, NextWritten(s, step, written))
            && e in Pending(s) && Pending(t) == Pending(s) - {e}
            && e.sequence !in s.table
  {
    var t := Next(s, step);
    var e := s.queue[0];
    assert e in Pending(s) && s.queue == [e] + t.queue;
    assert forall x :: x in s.queue <==> x == e || x in t.queue;
    assert forall i :: 0 <= i < |t.queue| ==> t.queue[i] == s.queue[i + 1];
    assert e !in t.queue;
    assert Pending(t) == Pending(s) - {e};
  }

  lemma TakeKeepsCache(s: State, step: Step, written: Table)
    requires CacheInv(s, written) && Filed(s) && (step.Insert? || step.InsertFails?) && Enabled(s, step)
    requires s.queue[0] in Pending(s) && Pending(Next(s, step)) == Pending(s) - {s.queue[0]}
    ensures CacheInv(Next(s, step), NextWritten(s, step, written))
  {
  }

  lemma TakeKeepsInv(s: State, step: Step, written: Table)
    requires Inv(s, written) && (step.Insert? || step.InsertFails?) && Enabled(s, step)
    ensures Inv(Next(s, step), NextWritten(s, step, written))
    ensures Pending(Next(s, step)) == Pending(s) - {s.queue[0]}
  {
    TakeFacts(s, step, written);
    TakeKeepsCache(s, step, written);
    assert TableInv(Next(s, step), NextWritten(s, step, written)) by {
      InsertKeepsTop(s.table, written, s.queue[0].sequence, ToRow(s.queue[0]));
    }
  }

  lemma PruneKeepsInv(s: State, step: Step, written: Table)
    requires Inv(s, written) && step.PruneNow? && !StepExpires(s, step)
    ensures Inv(Next(s, step), written)
  {
    PruneKeepsTop(s.table, step.cutoff);
    assert Pending(Next(s, step)) == Pending(s);
  }

  lemma StepKeepsInv(s: State, step: Step, written: Table)
    requires Inv(s, written) && Enabled(s, step) && !StepExpires(s, step)
    ensures Inv(Next(s, step), NextWritten(s, step, written))
  {
    match step
    case Assign(_, _, _, _, _) => AssignKeepsInv(s, step, written);
    case Enqueue(_) => EnqueueKeepsInv(s, step, written);
    case Insert => TakeKeepsInv(s, step, written);
    case InsertFails => TakeKeepsInv(s, step, written);
    case PruneNow(_) => PruneKeepsInv(s, step, written);
  }

  // Whole runs.

  ghost function NextEmitted(s: State, step: Step, emitted: Table): Table {
    if step.Assign? && step.durable
    then emitted[s.nextSequence := ToRow(NewEvent(s, step))] else emitted
  }

  /** No insert fails and no prune finds a row past its age limit. */
  ghost predicate Clean(s: State, steps: seq<Step>)
    requires Run(s, steps)
    decreases |steps|
  {
    steps == [] || (!steps[0].InsertFails? && !StepExpires(s, steps[0])
                    && Clean(Next(s, steps[0]), steps[1..]))
  }

  lemma AssignKeepsEmitted(s: State, step: Step, written: Table, emitted: Table)
    requires LogInv(s) && EmittedInv(s, written, emitted) && step.Assign?
    ensures EmittedInv(Next(s, step), written, NextEmitted(s, step, emitted))
  {
    var t, e, more := Next(s, step), NewEvent(s, step), NextEmitted(s, step, emitted);
    assert Pending(t) == Pending(s) + (if step.durable then {e} else {}) by {
      AssignGrowsLog(s, step);
    }
    forall k | k in more && k !in written ensures exists p :: p in Pending(t) && p.sequence == k {
      if k in emitted {
        var p :| p in Pending(s) && p.sequence == k;
        assert p in Pending(t);
      } else {
        assert e in Pending(t);
      }
    }
    assert forall k | k in written :: k in emitted && k < s.nextSequence;
  }

  lemma InsertKeepsEmitted(s: State, written: Table, emitted: Table)
    requires Inv(s, written) && EmittedInv(s, written, emitted) && Enabled(s, Insert)
    ensures EmittedInv(Next(s, Insert), NextWritten(s, Insert, written), emitted)
  {
    var t, e, more := Next(s, Insert), s.queue[0], NextWritten(s, Insert, written);
    TakeKeepsInv(s, Insert, written);
    assert e in s.queue && e in Pending(s);
    forall k | k in emitted && k !in more ensures exists p :: p in Pending(t) && p.sequence == k {
      var p :| p in Pending(s) && p.sequence == k;
      assert p in Pending(t);
    }
  }

  lemma StepKeepsEmitted(s: State, step: Step, written: Table, emitted: Table)
    requires Inv(s, written) && EmittedInv(s, written, emitted)
    requires Enabled(s, step) && !step.InsertFails? && !StepExpires(s, step)
    ensures EmittedInv(Next(s, step), NextWritten(s, step, written), NextEmitted(s, step, emitted))
  {
    match step
    case Assign(_, _, _, _, _) => AssignKeepsEmitted(s, step, written, emitted);
    case Enqueue(_) => EnqueueKeepsInv(s, step, written);
    case Insert => InsertKeepsEmitted(s, written, emitted);
    case PruneNow(_) => assert Pending(Next(s, step)) == Pending(s);
  }

  lemma {:induction false} RunKeepsInv(s: State, steps: seq<Step>, written: Table, emitted: Table)
    returns (stored: Table)
    requires Run(s, steps) && Clean(s, steps)
    requires Inv(s, written) && EmittedInv(s, written, emitted)
    ensures Inv(After(s, steps), stored)
    ensures EmittedInv(After(s, steps), stored, Emitted(s, steps, emitted))
    decreases |steps|
  {
    if steps == [] {
      stored := written;
    } else {
      StepKeepsInv(s, steps[0], written);
      StepKeepsEmitted(s, steps[0], written, emitted);
      stored := RunKeepsInv(Next(s, steps[0]), steps[1..], NextWritten(s, steps[0], written),
                            NextEmitted(s, steps[0], emitted));
    }
  }

  lemma TopOfFew(ids: set<nat>, k: nat)
    requires |ids| <= k
    ensures Top(ids, k) == ids
  {
    forall i | i in ids ensures |Above(ids, i)| < k {
      SubsetSize(Above(ids, i), ids - {i});
    }
  }

  lemma LoadRecentOrder(table: Table)
    ensures Ordered(LoadRecent(table)) && |LoadRecent(table)| <= MAX_EVENTS
  {
    TopSize(Identified(table), MAX_EVENTS);
  }

  lemma LoadRecentFacts(table: Table)
    ensures Ordered(LoadRecent(table)) && |LoadRecent(table)| <= MAX_EVENTS
    ensures forall e: Event :: e in LoadRecent(table) <==>
              e.sequence in Top(Identified(table), MAX_EVENTS)
              && e == FromRow(e.sequence, table[e.sequence])
  {
    LoadRecentOrder(table);
    var kept := Top(Identified(table), MAX_EVENTS);
    var ids := Ascending(kept);
    forall e: Event | e.sequence in kept && e == FromRow(e.sequence, table[e.sequence])
      ensures e in LoadRecent(table)
    {
      var i :| 0 <= i < |ids| && ids[i] == e.sequence;
      assert LoadRecent(table)[i] == e;
    }
  }

  lemma LoadCoversNewer(table: Table, kept: Table, first: Event, k: nat)
    requires kept.Keys == Top(table.Keys, MAX_EVENTS)
    requires forall i | i in kept :: i in table && kept[i] == table[i]
    requires first in LoadRecent(kept)
    requires k in table && table[k].eventId.Some? && first.sequence <= k
    ensures k in kept && FromRow(k, kept[k]) in LoadRecent(kept)
  {
    LoadRecentFacts(kept);
    TopIsUpwardClosed(table.Keys, MAX_EVENTS, first.sequence, k);
    TopIsUpwardClosed(Identified(kept), MAX_EVENTS, first.sequence, k);
    assert FromRow(k, kept[k]).sequence == k;
  }

  lemma LoadAgrees(table: Table, kept: Table, e: Event)
    requires forall i | i in kept :: i in table && kept[i] == table[i]
    requires e in LoadRecent(kept)
    ensures e.sequence in table && ToRow(e) == Refiled(table[e.sequence])
  {
    LoadRecentFacts(kept);
  }

  /** Of whatever rows `all` the prune leaves the newest, those are loaded. */
  lemma OpenLoadsCache(table: Table, cutoff: int, all: Table)
    requires Prune(table, cutoff).Keys == Top(all.Keys, MAX_EVENTS)
    requires forall k | k in Prune(table, cutoff) :: k in all && Prune(table, cutoff)[k] == all[k]
    ensures CacheInv(Reopened(table, cutoff), all)
  {
    var kept := Prune(table, cutoff);
    var s := Reopened(table, cutoff);
    var events := LoadRecent(kept);
    forall k | k in all && all[k].eventId.Some? && events != [] && events[0].sequence <= k
      ensures exists e :: e in events && e.sequence == k
    {
      LoadCoversNewer(all, kept, events[0], k);
    }
    forall e, k | e in events && k in all && e.sequence == k ensures ToRow(e) == Refiled(all[k]) {
      LoadAgrees(all, kept, e);
    }
    assert Pending(s) == {};
  }

  lemma OpenNumbersAbove(table: Table, cutoff: int)
    requires !Expires(table, cutoff)
    ensures forall k | k in table :: k < Reopened(table, cutoff).nextSequence
  {
    PruneKeepsTop(table, cutoff);
    forall k | k in table ensures k < Reopened(table, cutoff).nextSequence {
      if k !in Prune(table, cutoff) {
        NewestIsKept(table.Keys, k);
      }
    }
  }

  lemma OpenEstablishesInv(table: Table, cutoff: int)
    requires !Expires(table, cutoff)
    ensures Inv(Reopened(table, cutoff), table)
    ensures EmittedInv(Reopened(table, cutoff), table, table)
  {
    PruneKeepsTop(table, cutoff);
    LoadRecentFacts(Prune(table, cutoff));
    OpenNumbersAbove(table, cutoff);
    OpenLoadsCache(table, cutoff, table);
    assert Pending(Reopened(table, cutoff)) == {};
  }

  lemma NewestIsKept(ids: set<nat>, k: nat)
    requires k in ids && k !in Top(ids, MAX_EVENTS)
    ensures exists j :: j in Top(ids, MAX_EVENTS) && k < j
  {
    ManyKeptAbove(ids, MAX_EVENTS, k);
    var above := Above(Top(ids, MAX_EVENTS), k);
    assert above != {};
    var j :| j in above;
  }

  /** What a restart ought to load: the newest `MAX_EVENTS` rows, oldest first. */
  ghost function Newest(rows: Table): seq<Event> {
    RowsInOrder(rows, NewestIds(rows))
  }

  ghost function NewestIds(rows: Table): set<nat> {
    set i | i in Top(rows.Keys, MAX_EVENTS) && rows[i].eventId.Some?
  }

  lemma SameRowsSameEvents(a: Table, b: Table, wanted: set<nat>)
    requires wanted <= Identified(a) && wanted <= Identified(b)
    requires forall i | i in wanted :: a[i] == b[i]
    ensures RowsInOrder(a, wanted) == RowsInOrder(b, wanted)
  {
  }

  lemma PrunedIdsAreNewest(table: Table, all: Table, cutoff: int)
    requires !Expires(table, cutoff)
    requires forall k | k in table :: k in all && table[k] == all[k]
    requires Top(table.Keys, MAX_EVENTS) == Top(all.Keys, MAX_EVENTS)
    ensures Top(Identified(Prune(table, cutoff)), MAX_EVENTS) == NewestIds(all)
    ensures Identified(Prune(table, cutoff)) == NewestIds(all)
  {
    PruneKeepsTop(table, cutoff);
    assert Identified(Prune(table, cutoff)) == NewestIds(all);
    TopSize(all.Keys, MAX_EVENTS);
    SubsetSize(NewestIds(all), Top(all.Keys, MAX_EVENTS));
    TopOfFew(NewestIds(all), MAX_EVENTS);
  }

  lemma LoadsNewest(table: Table, all: Table, cutoff: int)
    requires !Expires(table, cutoff)
    requires forall k | k in table :: k in all && table[k] == all[k]
    requires Top(table.Keys, MAX_EVENTS) == Top(all.Keys, MAX_EVENTS)
    ensures LoadRecent(Prune(table, cutoff)) == Newest(all)
  {
    PrunedIdsAreNewest(table, all, cutoff);
    SameRowsSameEvents(Prune(table, cutoff), all, NewestIds(all));
  }

  function Drain(s: State): seq<Step> {
    seq(|s.queue|, i => Insert)
  }

  /** Once no emitter is mid-way, letting the writer work through its queue is
      always possible, leaves nothing pending and emits nothing new. */
  lemma {:induction false} DrainEmptiesQueue(s: State, emitted: Table)
    ensures Run(s, Drain(s)) && Clean(s, Drain(s))
    ensures var t := After(s, Drain(s));
            t.queue == [] && t.sending == s.sending && t.events == s.events
    ensures Emitted(s, Drain(s), emitted) == emitted
    decreases |s.queue|
  {
    if s.queue != [] {
      var t := Next(s, Insert);
      DrainEmptiesQueue(t, emitted);
      assert Drain(s)[1..] == Drain(t);
    }
  }

  /** For every interleaving of emitters, queue order and mid-run prunes, once
      no emitter is mid-way: draining the queue and reopening loads exactly the
      newest rows among everything that was in the table at the start or
      emitted since. */
  lemma DrainAndReopenLoadsNewest(table: Table, cutoff: int, steps: seq<Step>, later: int)
    requires !Expires(table, cutoff)
    requires Run(Reopened(table, cutoff), steps) && Clean(Reopened(table, cutoff), steps)
    requires After(Reopened(table, cutoff), steps).sending == {}
    ensures var start := Reopened(table, cutoff);
            var s := After(start, steps);
            Run(s, Drain(s)) &&
            var drained := After(s, Drain(s));
            drained.queue == [] &&
            (!Expires(drained.table, later) ==>
               Reopened(drained.table, later).events == Newest(Emitted(start, steps, table)))
  {
    var start := Reopened(table, cutoff);
    var s := After(start, steps);
    var all := Emitted(start, steps, table);
    OpenEstablishesInv(table, cutoff);
    var written := RunKeepsInv(start, steps, table, table);
    DrainEmptiesQueue(s, all);
    var stored := RunKeepsInv(s, Drain(s), written, all);
    var drained := After(s, Drain(s));
    assert Pending(drained) == {};
    SettledMeansAllWritten(drained, stored, all);
    if !Expires(drained.table, later) {
      LoadsNewest(drained.table, all, later);
    }
  }

  lemma SettledMeansAllWritten(s: State, written: Table, emitted: Table)
    requires EmittedInv(s, written, emitted) && Pending(s) == {}
    ensures written == emitted
  {
    assert written.Keys == emitted.Keys;
  }

  /** A stored event comes back with every field it was emitted with, its time cut
      to the millisecond. */
  lemma StoredEventRoundTrips(s: State, step: Step)
    requires step.Assign?
    ensures var e := NewEvent(s, step);
            FromRow(e.sequence, ToRow(e)) == ToMillis(e)
            && ToRow(ToMillis(e)) == ToRow(e)
    ensures var e := FromRow(s.nextSequence, ToRow(NewEvent(s, step)));
            && e.sequence == s.nextSequence && e.id == step.id
            && e.kind == step.kind && e.payload == step.payload && Names(step.kind, e.category)
            && e.timestamp % 1_000_000 == 0 && e.timestamp <= step.timestamp < e.timestamp + 1_000_000
  {
    KindNamesCategory(step.kind);
  }

  // Faulty runs: failing inserts and expiring rows keep the log ordered and
  // the numbering collision-free.

  ghost predicate Safe(s: State, written: Table) {
    && LogInv(s) && DistinctInv(s, written)
    && s.table.Keys <= written.Keys && (forall k | k in written :: k < s.nextSequence)
  }

  lemma AssignKeepsSafe(s: State, step: Step, written: Table)
    requires Safe(s, written) && step.Assign?
    ensures Safe(Next(s, step), written)
  {
    AssignKeepsDistinct(s, step, written);
    assert LogInv(Next(s, step)) by {
      AssignGrowsLog(s, step);
    }
  }

  lemma EnqueueKeepsSafe(s: State, step: Step, written: Table)
    requires Safe(s, written) && step.Enqueue? && Enabled(s, step)
    ensures Safe(Next(s, step), written)
  {
    EnqueueKeepsPending(s, step);
    assert forall x :: x in Next(s, step).queue <==> x in s.queue || x == step.event;
  }

  lemma StepKeepsSafe(s: State, step: Step, written: Table)
    requires Safe(s, written) && Enabled(s, step)
    ensures Safe(Next(s, step), NextWritten(s, step, written))
  {
    match step
    case Assign(_, _, _, _, _) => AssignKeepsSafe(s, step, written);
    case Enqueue(_) => EnqueueKeepsSafe(s, step, written);
    case PruneNow(_) => assert Pending(Next(s, step)) == Pending(s);
    case _ => TakeFacts(s, step, written);
  }

  /** In every run from an opened bus, faults or not: the log is strictly
      increasing, bounded and below the next sequence, and the row the writer
      is about to insert has a fresh primary key. */
  lemma {:induction false} EveryRunIsSafe(s: State, steps: seq<Step>, written: Table)
    returns (stored: Table)
    requires Run(s, steps) && Safe(s, written)
    ensures var t := After(s, steps);
            Safe(t, stored) && LogInv(t) && (t.queue != [] ==> t.queue[0].sequence !in t.table)
    decreases |steps|
  {
    if steps == [] {
      stored := written;
      assert s.queue != [] ==> s.queue[0] in Pending(s);
    } else {
      StepKeepsSafe(s, steps[0], written);
      stored := EveryRunIsSafe(Next(s, steps[0]), steps[1..], NextWritten(s, steps[0], written));
    }
  }

  lemma OpenIsSafe(table: Table, cutoff: int)
    ensures Safe(Reopened(table, cutoff), Prune(table, cutoff))
  {
    LoadRecentFacts(Prune(table, cutoff));
    assert Pending(Reopened(table, cutoff)) == {};
  }

  // They keep the log in agreement with the table, too.

  /** `written` is every row that was there after the prune at opening or was stored since. */
  ghost predicate Agrees(s: State, written: Table) {
    && Safe(s, written) && CacheInv(s, written) && Filed(s)
    && (forall k | k in s.table :: s.table[k] == written[k])
  }

  lemma StepKeepsCache(s: State, step: Step, written: Table)
    requires Agrees(s, written) && Enabled(s, step)
    ensures CacheInv(Next(s, step), NextWritten(s, step, written)) && Filed(Next(s, step))
  {
    match step
    case Assign(_, _, _, _, _) =>
      AssignKeepsCache(s, step, written);
      AssignGrowsLog(s, step);
    case Enqueue(_) => EnqueueKeepsPending(s, step);
    case PruneNow(_) => assert Pending(Next(s, step)) == Pending(s);
    case _ =>
      TakeFacts(s, step, written);
      TakeKeepsCache(s, step, written);
  }

  lemma {:induction false} RunKeepsAgreement(s: State, steps: seq<Step>, written: Table) returns (stored: Table)
    requires Run(s, steps) && Agrees(s, written)
    ensures Agrees(After(s, steps), stored)
    decreases |steps|
  {
    if steps == [] {
      stored := written;
    } else {
      StepKeepsSafe(s, steps[0], written);
      StepKeepsCache(s, steps[0], written);
      stored := RunKeepsAgreement(Next(s, steps[0]), steps[1..], NextWritten(s, steps[0], written));
    }
  }

  /** Any table opens into agreement with what the prune leaves of it. */
  lemma OpenAgrees(table: Table, cutoff: int)
    ensures Agrees(Reopened(table, cutoff), Prune(table, cutoff))
  {
    OpenIsSafe(table, cutoff);
    PrunedIsFew(table, cutoff);
    OpenLoadsCache(table, cutoff, Prune(table, cutoff));
    assert Pending(Reopened(table, cutoff)) == {};
  }

  lemma PrunedIsFew(table: Table, cutoff: int)
    ensures Top(Prune(table, cutoff).Keys, MAX_EVENTS) == Prune(table, cutoff).Keys
  {
    TopSize(table.Keys, MAX_EVENTS);
    SubsetSize(Prune(table, cutoff).Keys, Top(table.Keys, MAX_EVENTS));
    TopOfFew(Prune(table, cutoff).Keys, MAX_EVENTS);
  }

  // Numbering across a restart.

  /** A settled bus goes on counting after a restart exactly when its newest
      event was stored and is still young enough; otherwise numbers are reused. */
  lemma ReopenContinuesIff(s: State, written: Table, cutoff: int)
    requires Safe(s, written) && s.nextSequence > 1
    ensures var newest := s.nextSequence - 1;
            Reopened(s.table, cutoff).nextSequence == s.nextSequence
            <==> newest in s.table && s.table[newest].createdAt >= cutoff
    ensures Reopened(s.table, cutoff).nextSequence <= s.nextSequence
  {
    var newest: nat := s.nextSequence - 1;
    var kept := Prune(s.table, cutoff);
    assert Above(s.table.Keys, newest) == {};
    if newest in s.table && s.table[newest].createdAt >= cutoff {
      assert newest in Top(s.table.Keys, MAX_EVENTS);
      assert newest in kept;
    }
  }

  /** A volatile event uses up a number that the next run hands out again. */
  lemma VolatileNumberIsReused(heartbeat: Step)
    requires heartbeat.Assign? && !heartbeat.durable
    ensures var start := Reopened(map[], 0);
            Run(start, [heartbeat]) && start.nextSequence == 1
            && After(start, [heartbeat]).nextSequence == 2
            && Reopened(After(start, [heartbeat]).table, 0).nextSequence == 1
  {
    var start := Reopened(map[], 0);
    assert Prune(map[], 0) == map[];
    assert [heartbeat][1..] == [];
    assert After(start, [heartbeat]) == After(Next(start, heartbeat), []);
  }

  /** A table whose rows have all aged restarts the numbering at 1. */
  lemma AgedTableRestartsNumbering(row: Row, cutoff: int)
    requires row.createdAt < cutoff
    ensures Reopened(map[41 := row], cutoff).nextSequence == 1
  {
    assert Prune(map[41 := row], cutoff) == map[];
  }

  // Replay.

  /** The retained events after a sequence, in log order. */
  function Later(events: seq<Event>, after: nat): seq<Event> {
    if events == [] then []
    else if after < events[0].sequence then [events[0]] + Later(events[1..], after)
    else Later(events[1..], after)
  }

  function Page(events: seq<Event>, after: nat, limit: nat): seq<Event> {
    FirstOf(Later(events, after), Min(limit, MAX_REPLAY))
  }

  lemma {:induction false} LaterIsSuffix(events: seq<Event>, after: nat, start: nat)
    requires start <= |events|
    requires forall i :: 0 <= i < start ==> events[i].sequence <= after
    requires forall i :: start <= i < |events| ==> after < events[i].sequence
    ensures Later(events, after) == events[start..]
    decreases |events|
  {
    if events != [] {
      LaterIsSuffix(events[1..], after, if start == 0 then 0 else start - 1);
    }
  }

  lemma LaterFromElement(events: seq<Event>, i: nat)
    requires Ordered(events) && i < |events|
    ensures Later(events, events[i].sequence) == events[i + 1..]
  {
    LaterIsSuffix(events, events[i].sequence, i + 1);
  }

  lemma SplitPoint(events: seq<Event>, after: nat) returns (start: nat)
    requires Ordered(events)
    ensures start <= |events|
    ensures forall i :: 0 <= i < start ==> events[i].sequence <= after
    ensures forall i :: start <= i < |events| ==> after < events[i].sequence
  {
    start := 0;
    while start < |events| && events[start].sequence <= after
      invariant start <= |events|
      invariant forall i :: 0 <= i < start ==> events[i].sequence <= after
    {
      start := start + 1;
    }
  }

  /** Asking again from the last sequence of each page until a page is empty. */
  ghost function AllPages(events: seq<Event>, after: nat, limit: nat): seq<Event>
    requires Ordered(events) && limit > 0
    decreases |Later(events, after)|
  {
    var page := Page(events, after, limit);
    if page == [] then [] else
    var cursor := page[|page| - 1].sequence;
    NextPageIsShorter(events, after, limit);
    page + AllPages(events, cursor, limit)
  }

  lemma NextPageIsShorter(events: seq<Event>, after: nat, limit: nat)
    requires Ordered(events) && limit > 0 && Page(events, after, limit) != []
    ensures var page := Page(events, after, limit);
            Later(events, after) == page + Later(events, page[|page| - 1].sequence)
  {
    var page := Page(events, after, limit);
    var start := SplitPoint(events, after);
    LaterIsSuffix(events, after, start);
    var end := start + |page|;
    assert page == events[start..end];
    LaterFromElement(events, end - 1);
    assert events[start..] == page + events[end..];
  }

  /** Paging visits every retained event after the cursor, once, in order. */
  lemma {:induction false} PagingVisitsEachOnce(events: seq<Event>, after: nat, limit: nat)
    requires Ordered(events) && limit > 0
    ensures AllPages(events, after, limit) == Later(events, after)
    decreases |Later(events, after)|
  {
    var page := Page(events, after, limit);
    if page != [] {
      NextPageIsShorter(events, after, limit);
      PagingVisitsEachOnce(events, page[|page| - 1].sequence, limit);
    }
  }

  lemma ReplayAgrees(s: State, written: Table, k: nat)
    requires Agrees(s, written)
    requires k > 0 && k in s.table && s.table[k].eventId.Some?
    requires s.events != [] && s.events[0].sequence <= k
    ensures var page := Page(s.events, k - 1, 1);
            |page| == 1 && page[0].sequence == k && ToRow(page[0]) == Refiled(s.table[k])
  {
    assert k in written && written[k] == s.table[k];
    var e :| e in s.events && e.sequence == k;
    assert ToRow(e) == Refiled(written[k]);
    PageAtEvent(s.events, e);
  }

  /** Replay never disagrees with the table. In every run of a bus opened over any
      table, rows past their age and failing inserts included: any identified row no
      older than the log's first event is replayed, with the same fields, its category
      the one that its kind implies. */
  lemma ReplayAgreesWithTable(table: Table, cutoff: int, steps: seq<Step>, k: nat)
    requires Run(Reopened(table, cutoff), steps)
    requires var s := After(Reopened(table, cutoff), steps);
             && k > 0 && k in s.table && s.table[k].eventId.Some?
             && s.events != [] && s.events[0].sequence <= k
    ensures var s := After(Reopened(table, cutoff), steps);
            var page := Page(s.events, k - 1, 1);
            |page| == 1 && page[0].sequence == k && ToRow(page[0]) == Refiled(s.table[k])
  {
    OpenAgrees(table, cutoff);
    var stored := RunKeepsAgreement(Reopened(table, cutoff), steps, Prune(table, cutoff));
    ReplayAgrees(After(Reopened(table, cutoff), steps), stored, k);
  }

  lemma PageAtEvent(events: seq<Event>, e: Event)
    requires Ordered(events) && e in events && e.sequence > 0
    ensures Page(events, e.sequence - 1, 1) == [e]
  {
    var i :| 0 <= i < |events| && events[i] == e;
    LaterIsSuffix(events, e.sequence - 1, i);
  }

  /** The bus object. `sending` and `queue` stand for the emitters between
      their two critical sections and for the channel to the writer thread. */
  class Bus {
    var events: seq<Event>
    var nextSequence: nat
    var sending: set<Event>
    var queue: seq<Event>
    var table: Table

    ghost function Now(): State
      reads this
    {
      State(events, nextSequence, sending, queue, table)
    }

    constructor Open(stored: Table, cutoff: int)
      ensures Now() == Reopened(stored, cutoff)
    {
      var kept := Prune(stored, cutoff);
      events := LoadRecent(kept);
      nextSequence := NextSequence(kept);
      sending, queue, table := {}, [], kept;
    }

    /** The part of `emit_internal` under the log's lock. */
    method AssignSequence(id: nat, timestamp: int, kind: string, payload: string, durable: bool)
      returns (event: Event)
      modifies this
      ensures var step := Assign(id, timestamp, kind, payload, durable);
              Now() == Next(old(Now()), step) && event == NewEvent(old(Now()), step)
      ensures event.id == id && event.timestamp == timestamp && event.kind == kind && event.payload == payload
      ensures event.sequence == old(nextSequence) && nextSequence == event.sequence + 1 && Names(kind, event.category)
      ensures events != [] && events[|events| - 1] == event && queue == old(queue) && table == old(table)
      ensures sending == if durable then old(sending) + {event} else old(sending)
    {
      KindNamesCategory(kind);
      event := Event(id, nextSequence, timestamp, CategoryFor(kind), kind, payload);
      nextSequence := nextSequence + 1;
      events := PopSurplus(events + [event]);
      if durable {
        sending := sending + {event};
      }
    }

    static method PopSurplus(log: seq<Event>) returns (kept: seq<Event>)
      ensures kept == LastOf(log, MAX_EVENTS)
    {
      kept := log;
      ghost var popped := 0;
      while |kept| > MAX_EVENTS
        invariant popped <= |log| && kept == log[popped..]
        invariant |kept| >= MAX_EVENTS || popped == 0
      {
        kept := kept[1..];
        popped := popped + 1;
      }
    }

    method Send(event: Event)
      requires event in sending
      modifies this
      ensures Now() == Next(old(Now()), Enqueue(event))
    {
      sending := sending - {event};
      queue := queue + [event];
    }

    /** One turn of the writer's loop; `stored` is whether the insert went through. */
    method WriterTurn(stored: bool)
      requires queue != []
      modifies this
      ensures Now() == Next(old(Now()), if stored then Insert else InsertFails)
    {
      var event := queue[0];
      queue := queue[1..];
      if stored {
        table := table[event.sequence := ToRow(event)];
      }
    }

    method PruneDatabase(cutoff: int)
      modifies this
      ensures Now() == Next(old(Now()), PruneNow(cutoff))
    {
      table := Prune(table, cutoff);
    }

    method PartitionAfter(after: nat) returns (low: nat)
      requires Ordered(events)
      ensures low <= |events|
      ensures forall i :: 0 <= i < low ==> events[i].sequence <= after
      ensures forall i :: low <= i < |events| ==> after < events[i].sequence
    {
      if |events| == 0 {
        return 0;
      }
      low := 0;
      var high := |events|;
      while low < high
        invariant low <= high <= |events|
        invariant forall i :: 0 <= i < low ==> events[i].sequence <= after
        invariant forall i :: high <= i < |events| ==> after < events[i].sequence
      {
        var mid := low + (high - low) / 2;
        if events[mid].sequence <= after {
          low := mid + 1;
        } else {
          high := mid;
        }
      }
    }

    method Replay(after: nat, limit: nat) returns (page: seq<Event>)
      requires Ordered(events)
      ensures page == Page(events, after, limit)
      ensures page <= Later(events, after) && |page| <= 1000 && |page| <= limit
      ensures |page| < 1000 && |page| < limit ==> page == Later(events, after)
    {
      var start := PartitionAfter(after);
      LaterIsSuffix(events, after, start);
      page := FirstOf(events[start..], Min(limit, MAX_REPLAY));
    }
  }
}
