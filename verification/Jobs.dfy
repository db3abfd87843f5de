/** Supervised background jobs: a retry loop per job, write-through to a durable
    table, stuck and orphan sweeps, and eviction of old records. */
module Jobs {
  import opened Common

  const NANOS_PER_MILLI := 1_000_000

  datatype Status = Queued | Running | Succeeded | Failed | Cancelled | TimedOut | Stuck

  datatype FailureClass = User | Provider | Process | Timeout | CancelledByUser | Internal

  predicate Terminal(status: Status) {
    status in {Succeeded, Failed, Cancelled, TimedOut}
  }

  datatype Snapshot = Snapshot(
    owner: string, name: string, status: Status,
    createdAt: int, startedAt: Option<int>, finishedAt: Option<int>,
    attempts: nat, maxAttempts: nat, timeoutMs: nat,
    failureClass: Option<FailureClass>, failure: Option<string>, children: seq<nat>)

  /** `handle` is whether the task's join handle has been stored yet. */
  datatype Entry = Entry(snapshot: Snapshot, cancel: bool, handle: bool, dirty: bool)

  /** A row of `background_jobs`: times in milliseconds. */
  datatype Row = Row(
    owner: string, name: string, status: Status,
    createdAt: int, startedAt: Option<int>, finishedAt: Option<int>,
    attempts: nat, maxAttempts: nat, timeoutMs: nat,
    failureClass: Option<FailureClass>, failure: Option<string>, children: seq<nat>)

  /** How one attempt ended; `ChannelClosed` is the record having been evicted. */
  datatype Outcome =
    | Succeeds
    | Errors(cause: FailureClass, message: string)
    | RunsOut
    | SeesCancel
    | ChannelClosed

  datatype Pc = NotStarted | Ready | Attempting | Done | Aborted | Panicked

  /** The spawned task. `polling` is whether some thread is running it just now, and
      `aborting` whether it has been told to stop, which takes effect at its next
      await. `outcomes` and `stopped` are its history: how its attempts ended, and
      whether a force-stop of the job was ever completed. */
  datatype Task = Task(
    pc: Pc, maxAttempts: nat, outcomes: seq<Outcome>, polling: bool, aborting: bool, stopped: bool)

  type Id = nat

  /** `stopping` holds the force-stops that have made their request and not yet
      written their result. */
  datatype State = State(
    jobs: map<Id, Entry>, tasks: map<Id, Task>, table: map<Id, Row>, stopping: multiset<Id>)

  datatype Step =
    | Spawn(id: Id, owner: string, name: string, timeoutMs: nat, maxAttempts: nat, now: int)
    | StoreHandle(id: Id)
    | Wake(id: Id)
    | Suspend(id: Id)
    | Drop(id: Id)
    | Start(id: Id, now: int)
    | BeginAttempt(id: Id)
    | Observe(id: Id, outcome: Outcome, now: int)
    | GiveUp(id: Id, now: int)
    | Panic(id: Id)
    | Cancel(id: Id)
    | RequestStop(id: Id)
    | FinishStop(id: Id, now: int)
    | DetectStuck(threshold: nat, now: int)
    | Reconcile(now: int)
    | TrackChild(id: Id, child: nat)
    | Evict(memoryCutoff: int, rowCutoff: int)

  function Millis(t: int): int { t / NANOS_PER_MILLI }

  function OptMillis(t: Option<int>): Option<int> {
    match t case Some(v) => Some(Millis(v)) case None => None
  }

  function RowOf(j: Snapshot): Row {
    Row(j.owner, j.name, j.status, Millis(j.createdAt), OptMillis(j.startedAt), OptMillis(j.finishedAt),
        j.attempts, j.maxAttempts, j.timeoutMs, j.failureClass, j.failure, j.children)
  }

  /** The upsert of `persist_snapshot`: an existing row keeps its owner, name,
      creation time, attempt limit and timeout. */
  function Upserted(table: map<Id, Row>, id: Id, j: Snapshot): map<Id, Row> {
    table[id := if id in table then Rewritten(table[id], RowOf(j)) else RowOf(j)]
  }

  function Rewritten(row: Row, whole: Row): Row {
    row.(status := whole.status, startedAt := whole.startedAt, finishedAt := whole.finishedAt,
         attempts := whole.attempts, failureClass := whole.failureClass, failure := whole.failure,
         children := whole.children)
  }

  /** `flush_persist(id, true)`. */
  function Flushed(s: State, id: Id): State {
    if id !in s.jobs then s else
    s.(jobs := s.jobs[id := s.jobs[id].(dirty := false)],
       table := Upserted(s.table, id, s.jobs[id].snapshot))
  }

  /** `update`: mark the job dirty, and write it through if it is now terminal. */
  function Updated(s: State, id: Id, j: Snapshot): State {
    if id !in s.jobs then s else
    var t := s.(jobs := s.jobs[id := s.jobs[id].(snapshot := j, dirty := true)]);
    if Terminal(j.status) then Flushed(t, id) else t
  }

  function Ended(j: Snapshot, status: Status, cause: Option<FailureClass>,
                 failure: Option<string>, now: int): Snapshot
  {
    j.(status := status, failureClass := cause, failure := failure, finishedAt := Some(now))
  }

  /** `finish`: an update that is always flushed. */
  function Finished(s: State, id: Id, j: Snapshot): State {
    Flushed(Updated(s, id, j), id)
  }

  function NewSnapshot(step: Step): Snapshot
    requires step.Spawn?
  {
    Snapshot(step.owner, step.name, Queued, step.now, None, None, 0, Max(step.maxAttempts, 1),
             step.timeoutMs, None, None, [])
  }

  function LastError(outcomes: seq<Outcome>): (FailureClass, string) {
    if outcomes == [] then (Internal, "job failed without an error")
    else match outcomes[|outcomes| - 1]
      case Errors(cause, message) => (cause, message)
      case _ => LastError(outcomes[..|outcomes| - 1])
  }

  predicate IsStuck(j: Snapshot, threshold: nat, now: int) {
    j.status == Running && j.startedAt.Some? && now - j.startedAt.value > threshold
  }

  predicate Alive(pc: Pc) { pc in {NotStarted, Ready, Attempting} }

  /** The task may still take a step of its own: it has not ended, and no abort has
      caught it at an await. */
  predicate Live(t: Task) { Alive(t.pc) && (t.polling || !t.aborting) }

  predicate Polled(s: State, id: Id, pc: Pc) {
    id in s.tasks && s.tasks[id].polling && s.tasks[id].pc == pc
  }

  predicate IsOrphan(s: State, id: Id)
    requires id in s.jobs
  {
    && s.jobs[id].snapshot.status in {Queued, Running, Stuck}
    && s.jobs[id].handle && id in s.tasks && !Alive(s.tasks[id].pc)
  }

  function Orphaned(j: Snapshot, now: int): Snapshot {
    j.(status := Failed, failureClass := Some(Internal),
       failure := Some("supervised task exited without reporting completion"),
       finishedAt := Some(now))
  }

  /** The first half of a sweep, under the lock: the chosen jobs change and are dirty. */
  function Marked(s: State, chosen: set<Id>, change: Snapshot -> Snapshot): State {
    s.(jobs := map id | id in s.jobs ::
         if id in chosen then s.jobs[id].(snapshot := change(s.jobs[id].snapshot), dirty := true)
         else s.jobs[id])
  }

  /** Every one of `ids` flushed, in any order. */
  function FlushedAll(s: State, ids: set<Id>): State {
    s.(jobs := map id | id in s.jobs ::
         if id in ids then s.jobs[id].(dirty := false) else s.jobs[id],
       table := map id | id in s.table.Keys + ids * s.jobs.Keys ::
         if id in ids * s.jobs.Keys then Upserted(s.table, id, s.jobs[id].snapshot)[id]
         else s.table[id])
  }

  function Swept(s: State, chosen: set<Id>, change: Snapshot -> Snapshot): State {
    FlushedAll(Marked(s, chosen, change), chosen)
  }

  function StuckIds(s: State, threshold: nat, now: int): set<Id> {
    set id | id in s.jobs && IsStuck(s.jobs[id].snapshot, threshold, now)
  }

  function OrphanIds(s: State): set<Id> {
    set id | id in s.jobs && IsOrphan(s, id)
  }

  predicate Kept(e: Entry, cutoff: int) {
    !Terminal(e.snapshot.status) || e.snapshot.finishedAt.None? || e.snapshot.finishedAt.value > cutoff
  }

  predicate RowKept(row: Row, cutoff: int) {
    row.finishedAt.None? || row.finishedAt.value >= Millis(cutoff)
  }

  predicate Enabled(s: State, step: Step) {
    match step
    case Spawn(id, _, _, _, _, _) => id !in s.tasks && id !in s.jobs && id !in s.table
    case StoreHandle(id) => id in s.tasks
    case Wake(id) =>
      && id in s.tasks && s.tasks[id].pc in {NotStarted, Attempting}
      && !s.tasks[id].polling && !s.tasks[id].aborting
    case Suspend(id) => Polled(s, id, Attempting)
    case Drop(id) => id in s.tasks && Alive(s.tasks[id].pc) && s.tasks[id].aborting && !s.tasks[id].polling
    case Start(id, _) => Polled(s, id, NotStarted)
    case BeginAttempt(id) => Polled(s, id, Ready) && |s.tasks[id].outcomes| < s.tasks[id].maxAttempts
    case Observe(id, outcome, _) =>
      && Polled(s, id, Attempting)
      && (outcome.SeesCancel? ==> id in s.jobs && s.jobs[id].cancel)
      && (outcome.ChannelClosed? ==> id !in s.jobs)
    case GiveUp(id, _) => Polled(s, id, Ready) && |s.tasks[id].outcomes| == s.tasks[id].maxAttempts
    case Panic(id) => id in s.tasks && Alive(s.tasks[id].pc) && s.tasks[id].polling
    case FinishStop(id, _) => id in s.stopping
    case _ => true
  }

  function SetPc(s: State, id: Id, pc: Pc): State
    requires id in s.tasks
  {
    s.(tasks := s.tasks[id := s.tasks[id].(pc := pc)])
  }

  function SetPolling(s: State, id: Id, polling: bool): State
    requires id in s.tasks
  {
    s.(tasks := s.tasks[id := s.tasks[id].(polling := polling)])
  }

  predicate Ends(outcome: Outcome) { !outcome.Errors? && !outcome.ChannelClosed? }

  function EndedBy(j: Snapshot, outcome: Outcome, now: int): Snapshot {
    match outcome
    case Succeeds => Ended(j, Succeeded, None, None, now)
    case RunsOut => Ended(j, TimedOut, Some(Timeout), Some("exceeded the timeout"), now)
    case SeesCancel => Ended(j, Cancelled, Some(CancelledByUser), Some("cancelled by user"), now)
    case _ => j
  }

  function TaskAfter(task: Task, outcome: Outcome): Task {
    task.(pc := if Ends(outcome) then Done else Ready, outcomes := task.outcomes + [outcome])
  }

  function Observed(s: State, id: Id, outcome: Outcome, now: int): State
    requires id in s.tasks
  {
    var t := s.(tasks := s.tasks[id := TaskAfter(s.tasks[id], outcome)]);
    if Ends(outcome) && id in s.jobs
    then Finished(t, id, EndedBy(s.jobs[id].snapshot, outcome, now)) else t
  }

  function FailedSnapshot(j: Snapshot, outcomes: seq<Outcome>, now: int): Snapshot {
    var (cause, message) := LastError(outcomes);
    Ended(j, Failed, Some(cause), Some(message), now)
  }

  function Next(s: State, step: Step): State
    requires Enabled(s, step)
  {
    match step
    case Spawn(id, _, _, _, _, _) =>
      Flushed(s.(jobs := s.jobs[id := Entry(NewSnapshot(step), false, false, true)],
                 tasks := s.tasks[id := Task(NotStarted, Max(step.maxAttempts, 1), [], false, false, false)]), id)
    case StoreHandle(id) =>
      if id in s.jobs then s.(jobs := s.jobs[id := s.jobs[id].(handle := true)]) else s
    case Wake(id) => SetPolling(s, id, true)
    case Suspend(id) => SetPolling(s, id, false)
    case Drop(id) => SetPc(s, id, Aborted)
    case Start(id, now) =>
      var t := SetPc(s, id, Ready);
      if id in s.jobs
      then Updated(t, id, s.jobs[id].snapshot.(status := Running, startedAt := Some(now))) else t
    case BeginAttempt(id) =>
      var t := SetPc(s, id, Attempting);
      if id in s.jobs
      then Updated(t, id, s.jobs[id].snapshot.(attempts := |s.tasks[id].outcomes| + 1)) else t
    case Observe(id, outcome, now) => Observed(s, id, outcome, now)
    case GiveUp(id, now) =>
      var t := SetPc(s, id, Done);
      if id in s.jobs
      then Finished(t, id, FailedSnapshot(s.jobs[id].snapshot, s.tasks[id].outcomes, now)) else t
    case Panic(id) => SetPc(s, id, Panicked)
    case Cancel(id) =>
      if id in s.jobs then s.(jobs := s.jobs[id := s.jobs[id].(cancel := true)]) else s
    case RequestStop(id) => StopRequested(s, id)
    case FinishStop(id, now) => StopFinished(s, id, now)
    case DetectStuck(threshold, now) =>
      Swept(s, StuckIds(s, threshold, now), (j: Snapshot) => j.(status := Stuck))
    case Reconcile(now) => Swept(s, OrphanIds(s), (j: Snapshot) => Orphaned(j, now))
    case TrackChild(id, child) =>
      if id !in s.jobs then s else
      var j := s.jobs[id].snapshot;
      Updated(s, id, if child in j.children then j else j.(children := j.children + [child]))
    case Evict(memoryCutoff, rowCutoff) =>
      s.(jobs := map id | id in s.jobs && Kept(s.jobs[id], memoryCutoff) :: s.jobs[id],
         table := map id | id in s.table && RowKept(s.table[id], rowCutoff) :: s.table[id])
  }

  function ForceStopped(j: Snapshot, now: int): Snapshot {
    Ended(j, Cancelled, Some(CancelledByUser), Some("force-stopped"), now)
  }

  /** The first half of a force-stop, under the lock. Aborting needs the stored
      handle; without it the spawned task runs on. */
  function StopRequested(s: State, id: Id): State {
    if id !in s.jobs then s else
    s.(jobs := s.jobs[id := s.jobs[id].(cancel := true)],
       tasks := if id in s.tasks && s.jobs[id].handle
                then s.tasks[id := s.tasks[id].(aborting := true)] else s.tasks,
       stopping := s.stopping + multiset{id})
  }

  /** The second half: the job is cancelled, whatever it is by then. */
  function StopFinished(s: State, id: Id, now: int): State {
    var t := StopNoted(s, id);
    if id in s.jobs then Finished(t, id, ForceStopped(s.jobs[id].snapshot, now)) else t
  }

  function StopNoted(s: State, id: Id): State {
    s.(tasks := if id in s.tasks then s.tasks[id := s.tasks[id].(stopped := true)] else s.tasks,
       stopping := s.stopping - multiset{id})
  }

  // Invariants.

  predicate AllErrors(outcomes: seq<Outcome>) {
    forall o | o in outcomes :: o.Errors?
  }

  /** The first attempt that does not error decides; if none does, the last
      error of a full set of attempts is reported. */
  predicate Decided(j: Snapshot, outcomes: seq<Outcome>, maxAttempts: nat) {
    && 0 < |outcomes| <= maxAttempts && AllErrors(outcomes[..|outcomes| - 1])
    && j.attempts == |outcomes|
    && match outcomes[|outcomes| - 1]
       case Succeeds => j.status == Succeeded && j.failureClass.None? && j.failure.None?
       case RunsOut => j.status == TimedOut && j.failureClass == Some(Timeout)
       case SeesCancel => j.status == Cancelled && j.failureClass == Some(CancelledByUser)
       case Errors(cause, message) =>
         && j.status == Failed && |outcomes| == maxAttempts
         && j.failureClass == Some(cause) && j.failure == Some(message)
       case ChannelClosed => false
  }

  predicate RetryOk(j: Snapshot, t: Task) {
    && t.maxAttempts == j.maxAttempts > 0
    && match t.pc
       case NotStarted => t.outcomes == [] && j.attempts == 0
       case Ready =>
         AllErrors(t.outcomes) && j.attempts == |t.outcomes| <= t.maxAttempts
       case Attempting =>
         AllErrors(t.outcomes) && j.attempts == |t.outcomes| + 1 <= t.maxAttempts
       case Done => Decided(j, t.outcomes, t.maxAttempts)
       case _ => true
  }

  predicate SameFixed(row: Row, j: Snapshot) {
    && row.owner == j.owner && row.name == j.name && row.createdAt == Millis(j.createdAt)
    && row.maxAttempts == j.maxAttempts && row.timeoutMs == j.timeoutMs
  }

  function RowAt(s: State, id: Id): Option<Row> {
    if id in s.table then Some(s.table[id]) else None
  }

  /** A row, where there is one, agrees with the record in what no update changes and
      in the finishing time, and in everything once the record is clean. */
  predicate RowOk(e: Entry, row: Option<Row>) {
    row.Some? ==>
      && SameFixed(row.value, e.snapshot) && row.value.finishedAt == OptMillis(e.snapshot.finishedAt)
      && (!e.dirty ==> row.value == RowOf(e.snapshot))
  }

  /** Between attempts a task does not wait, and it never makes more than it may. */
  predicate TaskOk(t: Task) {
    && (t.pc == NotStarted ==> t.outcomes == [] && t.maxAttempts > 0)
    && (t.pc == Ready ==> t.polling && |t.outcomes| <= t.maxAttempts)
    && (t.pc == Attempting ==> |t.outcomes| < t.maxAttempts)
  }

  /** Until a force-stop of the job, its task decides it. */
  predicate Governed(j: Snapshot, t: Task) {
    && RetryOk(j, t) && (Terminal(j.status) ==> !Alive(t.pc))
    && (!Terminal(j.status) ==> j.finishedAt.None?)
    && (t.pc in {Aborted, Panicked} && Terminal(j.status) ==> j.status == Failed && j.failureClass == Some(Internal))
  }

  predicate JobOk(e: Entry, t: Task, row: Option<Row>) {
    && (Terminal(e.snapshot.status) ==> !e.dirty && e.snapshot.finishedAt.Some?)
    && RowOk(e, row) && TaskOk(t) && (!t.stopped ==> Governed(e.snapshot, t))
  }

  predicate Fits(s: State, id: Id) {
    && (id in s.jobs ==> id in s.tasks && JobOk(s.jobs[id], s.tasks[id], RowAt(s, id)))
    && (id in s.tasks ==> TaskOk(s.tasks[id]))
  }

  /** Memory, table and tasks agree. */
  ghost predicate Inv(s: State) {
    forall id: Id :: Fits(s, id)
  }

  // Each step changes one job, or sweeps; everything else keeps its facts.

  predicate SameAt(s: State, t: State, i: Id) {
    && (i in s.jobs <==> i in t.jobs) && (i in s.tasks <==> i in t.tasks)
    && (i in s.jobs ==> t.jobs[i] == s.jobs[i]) && (i in s.tasks ==> t.tasks[i] == s.tasks[i])
    && RowAt(t, i) == RowAt(s, i)
  }

  ghost predicate SameElsewhere(s: State, t: State, id: Id) {
    forall i: Id | i != id :: SameAt(s, t, i)
  }

  lemma OneJobStep(s: State, t: State, id: Id)
    requires Inv(s) && SameElsewhere(s, t, id) && Fits(t, id)
    ensures Inv(t)
  {
    forall i: Id ensures Fits(t, i) {
      assert Fits(s, i);
      if i != id { assert SameAt(s, t, i); }
    }
  }

  /** The upsert that rewrites only some columns still stores the whole snapshot. */
  lemma PartialUpsertIsWhole(row: Row, j: Snapshot)
    requires SameFixed(row, j)
    ensures Rewritten(row, RowOf(j)) == RowOf(j)
  {
  }

  predicate FixedAt(s: State, id: Id, j: Snapshot) {
    id in s.table ==> SameFixed(s.table[id], j)
  }

  lemma UpdatedAt(s: State, id: Id, j: Snapshot)
    requires id in s.jobs && FixedAt(s, id, j)
    ensures var t := Updated(s, id, j);
            && id in t.jobs && t.jobs[id] == s.jobs[id].(snapshot := j, dirty := !Terminal(j.status))
            && RowAt(t, id) == if Terminal(j.status) then Some(RowOf(j)) else RowAt(s, id)
  {
  }

  lemma FinishedAt(s: State, id: Id, j: Snapshot)
    requires id in s.jobs && FixedAt(s, id, j)
    ensures var t := Finished(s, id, j);
            && id in t.jobs && t.jobs[id] == s.jobs[id].(snapshot := j, dirty := false)
            && RowAt(t, id) == Some(RowOf(j))
  {
  }

  lemma FlushedFrame(s: State, id: Id)
    ensures var t := Flushed(s, id);
            SameElsewhere(s, t, id) && t.tasks == s.tasks && t.jobs.Keys == s.jobs.Keys
  {
  }

  lemma UpdatedFrame(s: State, id: Id, j: Snapshot)
    ensures var t := Updated(s, id, j);
            SameElsewhere(s, t, id) && t.tasks == s.tasks && t.jobs.Keys == s.jobs.Keys
  {
    if id in s.jobs {
      var m := s.(jobs := s.jobs[id := s.jobs[id].(snapshot := j, dirty := true)]);
      FlushedFrame(m, id);
      assert forall i | i != id :: SameAt(m, Flushed(m, id), i) ==> SameAt(s, Flushed(m, id), i);
    }
  }

  lemma FinishedFrame(s: State, id: Id, j: Snapshot)
    ensures var t := Finished(s, id, j);
            SameElsewhere(s, t, id) && t.tasks == s.tasks && t.jobs.Keys == s.jobs.Keys
  {
    var m := Updated(s, id, j);
    UpdatedFrame(s, id, j);
    FlushedFrame(m, id);
    assert forall i | i != id :: SameAt(s, m, i) && SameAt(m, Flushed(m, id), i) ==> SameAt(s, Flushed(m, id), i);
  }

  predicate OneJob(step: Step) {
    !step.DetectStuck? && !step.Reconcile? && !step.Evict?
  }

  predicate OwnStep(step: Step) {
    step.Start? || step.BeginAttempt? || step.Observe? || step.GiveUp?
  }

  /** Changing only a job's task, with or without its flags, changes nothing elsewhere. */
  lemma TaskFrame(s: State, m: State, t: State, id: Id)
    requires SameElsewhere(m, t, id)
    requires m.table == s.table && m.jobs == s.jobs && m.tasks.Keys == s.tasks.Keys
    requires forall i | i in s.tasks && i != id :: m.tasks[i] == s.tasks[i]
    ensures SameElsewhere(s, t, id)
  {
    forall i | i != id ensures SameAt(s, t, i) { assert SameAt(m, t, i); }
  }

  lemma UpdateFrame(s: State, task: Task, id: Id, j: Snapshot)
    requires id in s.tasks
    ensures var m := s.(tasks := s.tasks[id := task]);
            && SameElsewhere(s, m, id)
            && SameElsewhere(s, Updated(m, id, j), id) && Updated(m, id, j).jobs.Keys == s.jobs.Keys
            && SameElsewhere(s, Finished(m, id, j), id) && Finished(m, id, j).jobs.Keys == s.jobs.Keys
  {
    var m := s.(tasks := s.tasks[id := task]);
    UpdatedFrame(m, id, j);
    FinishedFrame(m, id, j);
    TaskFrame(s, m, Updated(m, id, j), id);
    TaskFrame(s, m, Finished(m, id, j), id);
  }

  lemma OwnStepFrame(s: State, step: Step)
    requires Enabled(s, step) && OwnStep(step)
    ensures SameElsewhere(s, Next(s, step), step.id)
    ensures s.jobs.Keys == Next(s, step).jobs.Keys
  {
    var id := step.id;
    var task := s.tasks[id];
    if id in s.jobs {
      var j := s.jobs[id].snapshot;
      match step
      case Start(_, now) =>
        UpdateFrame(s, task.(pc := Ready), id, j.(status := Running, startedAt := Some(now)));
      case BeginAttempt(_) =>
        UpdateFrame(s, task.(pc := Attempting), id, j.(attempts := |task.outcomes| + 1));
      case Observe(_, outcome, now) =>
        UpdateFrame(s, TaskAfter(task, outcome), id, EndedBy(j, outcome, now));
      case GiveUp(_, now) =>
        UpdateFrame(s, task.(pc := Done), id, FailedSnapshot(j, task.outcomes, now));
    }
  }

  lemma FinishStopFrame(s: State, id: Id, now: int)
    ensures SameElsewhere(s, StopFinished(s, id, now), id) && StopFinished(s, id, now).jobs.Keys == s.jobs.Keys
  {
    if id in s.jobs {
      FinishedFrame(StopNoted(s, id), id, ForceStopped(s.jobs[id].snapshot, now));
      TaskFrame(s, StopNoted(s, id), StopFinished(s, id, now), id);
    }
  }

  lemma OneJobFrame(s: State, step: Step)
    requires Enabled(s, step) && OneJob(step)
    ensures SameElsewhere(s, Next(s, step), step.id)
    ensures s.jobs.Keys <= Next(s, step).jobs.Keys
  {
    var id := step.id;
    if OwnStep(step) {
      OwnStepFrame(s, step);
    } else if step.FinishStop? {
      FinishStopFrame(s, id, step.now);
    } else if step.TrackChild? && id in s.jobs {
      var j := s.jobs[id].snapshot;
      UpdatedFrame(s, id, if step.child in j.children then j else j.(children := j.children + [step.child]));
    }
  }

  // Every step keeps the agreement.

  lemma ObserveKeepsJobOk(e: Entry, t: Task, row: Option<Row>, outcome: Outcome, now: int)
    requires JobOk(e, t, row) && t.pc == Attempting && t.polling && !outcome.ChannelClosed?
    ensures var j := EndedBy(e.snapshot, outcome, now);
            && (row.Some? ==> SameFixed(row.value, j))
            && JobOk(if Ends(outcome) then e.(snapshot := j, dirty := false) else e,
                     TaskAfter(t, outcome), if Ends(outcome) then Some(RowOf(j)) else row)
  {
    assert (t.outcomes + [outcome])[..|t.outcomes|] == t.outcomes;
  }

  lemma ObserveKeepsFit(s: State, step: Step)
    requires step.Observe? && Enabled(s, step) && Fits(s, step.id)
    ensures Fits(Next(s, step), step.id)
  {
    var id := step.id;
    if id in s.jobs {
      ObserveKeepsJobOk(s.jobs[id], s.tasks[id], RowAt(s, id), step.outcome, step.now);
      if Ends(step.outcome) {
        var m := s.(tasks := s.tasks[id := TaskAfter(s.tasks[id], step.outcome)]);
        FinishedFrame(m, id, EndedBy(s.jobs[id].snapshot, step.outcome, step.now));
        FinishedAt(m, id, EndedBy(s.jobs[id].snapshot, step.outcome, step.now));
      }
    }
  }

  lemma StartKeepsFit(s: State, step: Step)
    requires step.Start? && Enabled(s, step) && Fits(s, step.id)
    ensures Fits(Next(s, step), step.id)
  {
    var id := step.id;
    if id in s.jobs {
      var j := s.jobs[id].snapshot.(status := Running, startedAt := Some(step.now));
      UpdatedFrame(SetPc(s, id, Ready), id, j);
      UpdatedAt(SetPc(s, id, Ready), id, j);
    }
  }

  lemma BeginAttemptKeepsFit(s: State, step: Step)
    requires step.BeginAttempt? && Enabled(s, step) && Fits(s, step.id)
    ensures Fits(Next(s, step), step.id)
  {
    var id := step.id;
    if id in s.jobs {
      var j := s.jobs[id].snapshot.(attempts := |s.tasks[id].outcomes| + 1);
      UpdatedFrame(SetPc(s, id, Attempting), id, j);
      UpdatedAt(SetPc(s, id, Attempting), id, j);
    }
  }

  lemma GiveUpKeepsFit(s: State, step: Step)
    requires step.GiveUp? && Enabled(s, step) && Fits(s, step.id)
    ensures Fits(Next(s, step), step.id)
  {
    var id := step.id;
    if id in s.jobs {
      var outcomes := s.tasks[id].outcomes;
      var j := FailedSnapshot(s.jobs[id].snapshot, outcomes, step.now);
      assert outcomes != [] ==> outcomes[|outcomes| - 1] in outcomes;
      FinishedFrame(SetPc(s, id, Done), id, j);
      FinishedAt(SetPc(s, id, Done), id, j);
    }
  }

  lemma FinishStopAt(s: State, id: Id, now: int)
    requires Fits(s, id) && id in s.jobs
    ensures var t, j := StopFinished(s, id, now), ForceStopped(s.jobs[id].snapshot, now);
            && id in t.jobs && id in t.tasks && t.jobs[id] == s.jobs[id].(snapshot := j, dirty := false)
            && t.tasks[id] == s.tasks[id].(stopped := true) && RowAt(t, id) == Some(RowOf(j))
  {
    FinishedFrame(StopNoted(s, id), id, ForceStopped(s.jobs[id].snapshot, now));
    FinishedAt(StopNoted(s, id), id, ForceStopped(s.jobs[id].snapshot, now));
  }

  lemma FinishStopKeepsFit(s: State, id: Id, now: int)
    requires Fits(s, id)
    ensures Fits(StopFinished(s, id, now), id)
  {
    if id in s.jobs { FinishStopAt(s, id, now); }
  }

  lemma TrackChildKeepsFit(s: State, step: Step)
    requires step.TrackChild? && Fits(s, step.id)
    ensures Fits(Next(s, step), step.id)
  {
    var id := step.id;
    if id in s.jobs {
      var j := s.jobs[id].snapshot;
      var k := if step.child in j.children then j else j.(children := j.children + [step.child]);
      UpdatedFrame(s, id, k);
      UpdatedAt(s, id, k);
    }
  }

  lemma OtherKeepsFit(s: State, step: Step)
    requires Enabled(s, step) && OneJob(step) && Fits(s, step.id)
    requires !OwnStep(step) && !step.FinishStop? && !step.TrackChild?
    ensures Fits(Next(s, step), step.id)
  {
  }

  lemma SweptAt(s: State, chosen: set<Id>, change: Snapshot -> Snapshot, id: Id)
    requires id in s.jobs
    ensures var t, j := Swept(s, chosen, change), change(s.jobs[id].snapshot);
            && id in t.jobs && t.tasks == s.tasks
            && (id !in chosen ==> t.jobs[id] == s.jobs[id] && RowAt(t, id) == RowAt(s, id))
            && (id in chosen && FixedAt(s, id, j) ==>
                  t.jobs[id] == s.jobs[id].(snapshot := j, dirty := false) && RowAt(t, id) == Some(RowOf(j)))
  {
  }

  lemma SweepKeepsInv(s: State, chosen: set<Id>, change: Snapshot -> Snapshot)
    requires Inv(s) && chosen <= s.jobs.Keys
    requires forall id | id in chosen ::
               var j := change(s.jobs[id].snapshot);
               FixedAt(s, id, j) && id in s.tasks
               && JobOk(s.jobs[id].(snapshot := j, dirty := false), s.tasks[id], Some(RowOf(j)))
    ensures Inv(Swept(s, chosen, change))
  {
    var t := Swept(s, chosen, change);
    forall id: Id ensures Fits(t, id) {
      assert Fits(s, id);
      if id in s.jobs { SweptAt(s, chosen, change, id); }
    }
  }

  lemma StuckJobOk(e: Entry, t: Task, row: Option<Row>)
    requires JobOk(e, t, row) && e.snapshot.status == Running
    ensures var j := e.snapshot.(status := Stuck);
            (row.Some? ==> SameFixed(row.value, j)) && JobOk(e.(snapshot := j, dirty := false), t, Some(RowOf(j)))
  {
  }

  lemma OrphanJobOk(e: Entry, t: Task, row: Option<Row>, now: int)
    requires JobOk(e, t, row) && !Terminal(e.snapshot.status) && !Alive(t.pc)
    ensures var j := Orphaned(e.snapshot, now);
            (row.Some? ==> SameFixed(row.value, j)) && JobOk(e.(snapshot := j, dirty := false), t, Some(RowOf(j)))
  {
  }

  lemma StuckKeepsInv(s: State, step: Step)
    requires Inv(s) && step.DetectStuck?
    ensures Inv(Next(s, step))
  {
    var chosen := StuckIds(s, step.threshold, step.now);
    forall id | id in chosen
      ensures var j := s.jobs[id].snapshot.(status := Stuck);
              FixedAt(s, id, j) && id in s.tasks
              && JobOk(s.jobs[id].(snapshot := j, dirty := false), s.tasks[id], Some(RowOf(j)))
    {
      assert Fits(s, id);
      StuckJobOk(s.jobs[id], s.tasks[id], RowAt(s, id));
    }
    SweepKeepsInv(s, chosen, (j: Snapshot) => j.(status := Stuck));
  }

  lemma ReconcileKeepsInv(s: State, step: Step)
    requires Inv(s) && step.Reconcile?
    ensures Inv(Next(s, step))
  {
    var chosen := OrphanIds(s);
    forall id | id in chosen
      ensures var j := Orphaned(s.jobs[id].snapshot, step.now);
              FixedAt(s, id, j) && id in s.tasks
              && JobOk(s.jobs[id].(snapshot := j, dirty := false), s.tasks[id], Some(RowOf(j)))
    {
      assert Fits(s, id);
      OrphanJobOk(s.jobs[id], s.tasks[id], RowAt(s, id), step.now);
    }
    SweepKeepsInv(s, chosen, (j: Snapshot) => Orphaned(j, step.now));
  }

  lemma EvictKeepsInv(s: State, step: Step)
    requires Inv(s) && step.Evict?
    ensures Inv(Next(s, step))
  {
    var t := Next(s, step);
    forall id: Id ensures Fits(t, id) { assert Fits(s, id); }
  }

  lemma OneJobKeepsFit(s: State, step: Step)
    requires Enabled(s, step) && OneJob(step) && Fits(s, step.id)
    ensures Fits(Next(s, step), step.id)
  {
    match step
    case Observe(_, _, _) => ObserveKeepsFit(s, step);
    case GiveUp(_, _) => GiveUpKeepsFit(s, step);
    case FinishStop(id, now) => FinishStopKeepsFit(s, id, now);
    case Start(_, _) => StartKeepsFit(s, step);
    case BeginAttempt(_) => BeginAttemptKeepsFit(s, step);
    case TrackChild(_, _) => TrackChildKeepsFit(s, step);
    case _ => OtherKeepsFit(s, step);
  }

  lemma OneJobKeepsInv(s: State, step: Step)
    requires Inv(s) && Enabled(s, step) && OneJob(step)
    ensures Inv(Next(s, step))
  {
    assert Fits(s, step.id);
    OneJobFrame(s, step);
    OneJobKeepsFit(s, step);
    OneJobStep(s, Next(s, step), step.id);
  }

  /** Whatever is asked, in whatever order: no step needs a guard. */
  lemma StepKeepsInv(s: State, step: Step)
    requires Inv(s) && Enabled(s, step)
    ensures Inv(Next(s, step))
  {
    if OneJob(step) { OneJobKeepsInv(s, step); }
    else if step.DetectStuck? { StuckKeepsInv(s, step); }
    else if step.Reconcile? { ReconcileKeepsInv(s, step); }
    else { EvictKeepsInv(s, step); }
  }

  // Whole runs: any steps that can be taken, one after another.

  ghost predicate Run(s: State, steps: seq<Step>)
    decreases |steps|
  {
    steps == [] || (Enabled(s, steps[0]) && Run(Next(s, steps[0]), steps[1..]))
  }

  ghost function After(s: State, steps: seq<Step>): State
    requires Run(s, steps)
    decreases |steps|
  {
    if steps == [] then s else After(Next(s, steps[0]), steps[1..])
  }

  lemma {:induction false} RunKeepsInv(s: State, steps: seq<Step>)
    requires Inv(s) && Run(s, steps)
    ensures Inv(After(s, steps))
    decreases |steps|
  {
    if steps != [] {
      StepKeepsInv(s, steps[0]);
      RunKeepsInv(Next(s, steps[0]), steps[1..]);
    }
  }

  /** A supervisor just opened over whatever the table holds. */
  function Opened(table: map<Id, Row>): State { State(map[], map[], table, multiset{}) }

  /** The job stays in memory though it finished, to the millisecond, before the
      second clock reading of an eviction. */
  predicate Between(e: Entry, memoryCutoff: int, rowCutoff: int) {
    && Kept(e, memoryCutoff) && e.snapshot.finishedAt.Some?
    && Millis(e.snapshot.finishedAt.value) < Millis(rowCutoff)
  }

  /** An eviction deletes the row of a job it leaves in memory exactly when the job
      finished between its two clock readings. */
  lemma EvictLosesRowIff(s: State, memoryCutoff: int, rowCutoff: int, id: Id)
    requires Inv(s) && id in s.jobs && id in s.table
    ensures var t := Next(s, Evict(memoryCutoff, rowCutoff));
            id in t.jobs && id !in t.table <==> Between(s.jobs[id], memoryCutoff, rowCutoff)
  {
    assert Fits(s, id);
  }

  predicate LosesRow(s: State, step: Step, id: Id) {
    step.Evict? && id in s.jobs && Between(s.jobs[id], step.memoryCutoff, step.rowCutoff)
  }

  /** No eviction of the run loses the row of this job. */
  ghost predicate SparesRow(s: State, steps: seq<Step>, id: Id)
    requires Run(s, steps)
    decreases |steps|
  {
    steps == [] || (!LosesRow(s, steps[0], id) && SparesRow(Next(s, steps[0]), steps[1..], id))
  }

  lemma FlushStoresRow(s: State, id: Id, j: Snapshot, i: Id)
    requires i in s.table
    ensures i in Flushed(s, id).table && i in Updated(s, id, j).table && i in Finished(s, id, j).table
  {
  }

  lemma OneJobKeepsRow(s: State, step: Step)
    requires Enabled(s, step) && OneJob(step) && (step.id in s.jobs ==> step.id in s.table)
    ensures step.id in Next(s, step).jobs ==> step.id in Next(s, step).table
  {
    var id := step.id;
    if id in s.jobs {
      var j := s.jobs[id].snapshot;
      match step
      case Start(_, now) => FlushStoresRow(SetPc(s, id, Ready), id, j.(status := Running, startedAt := Some(now)), id);
      case BeginAttempt(_) =>
        FlushStoresRow(SetPc(s, id, Attempting), id, j.(attempts := |s.tasks[id].outcomes| + 1), id);
      case Observe(_, outcome, now) =>
        FlushStoresRow(s.(tasks := s.tasks[id := TaskAfter(s.tasks[id], outcome)]), id, EndedBy(j, outcome, now), id);
      case GiveUp(_, now) =>
        FlushStoresRow(SetPc(s, id, Done), id, FailedSnapshot(j, s.tasks[id].outcomes, now), id);
      case FinishStop(_, now) => FlushStoresRow(StopNoted(s, id), id, ForceStopped(j, now), id);
      case TrackChild(_, child) =>
        FlushStoresRow(s, id, if child in j.children then j else j.(children := j.children + [child]), id);
      case _ =>
    }
  }

  lemma StepKeepsRow(s: State, step: Step, id: Id)
    requires Inv(s) && Enabled(s, step) && (id in s.jobs ==> id in s.table) && !LosesRow(s, step, id)
    ensures id in Next(s, step).jobs ==> id in Next(s, step).table
  {
    assert Fits(s, id);
    if OneJob(step) {
      if step.id == id {
        OneJobKeepsRow(s, step);
      } else {
        OneJobFrame(s, step);
        assert SameAt(s, Next(s, step), id);
      }
    } else if step.Evict? && id in s.jobs {
      EvictLosesRowIff(s, step.memoryCutoff, step.rowCutoff, id);
    }
  }

  lemma {:induction false} RowsStay(s: State, steps: seq<Step>, id: Id)
    requires Inv(s) && Run(s, steps) && (id in s.jobs ==> id in s.table) && SparesRow(s, steps, id)
    ensures id in After(s, steps).jobs ==> id in After(s, steps).table
    decreases |steps|
  {
    if steps != [] {
      StepKeepsRow(s, steps[0], id);
      StepKeepsInv(s, steps[0]);
      RowsStay(Next(s, steps[0]), steps[1..], id);
    }
  }

  lemma OpenedFits(table: map<Id, Row>)
    ensures Inv(Opened(table))
  {
  }

  /** In every run, whatever is stopped and evicted: a terminal job is never dirty; the
      row of a job that is not dirty, if it is there, equals the job; and it is there
      unless an eviction of the run has lost it. */
  lemma MemoryMatchesTable(table: map<Id, Row>, steps: seq<Step>, id: Id)
    requires Run(Opened(table), steps) && id in After(Opened(table), steps).jobs
    ensures var s := After(Opened(table), steps);
            && (Terminal(s.jobs[id].snapshot.status) ==> !s.jobs[id].dirty)
            && (id in s.table && !s.jobs[id].dirty ==> s.table[id] == RowOf(s.jobs[id].snapshot))
            && (SparesRow(Opened(table), steps, id) ==> id in s.table)
  {
    OpenedFits(table);
    RunKeepsInv(Opened(table), steps);
    assert Fits(After(Opened(table), steps), id);
    if SparesRow(Opened(table), steps, id) { RowsStay(Opened(table), steps, id); }
  }

  /** In every run, for a job never force-stopped itself, whatever happens to others:
      `attempts` counts the calls of the operation and stays within the limit, and
      once its task is done its outcomes decide the job. */
  lemma AttemptsDecideJob(table: map<Id, Row>, steps: seq<Step>, id: Id)
    requires Run(Opened(table), steps)
    requires id in After(Opened(table), steps).jobs && id in After(Opened(table), steps).tasks
    requires !After(Opened(table), steps).tasks[id].stopped
    ensures var s := After(Opened(table), steps);
            var j, t := s.jobs[id].snapshot, s.tasks[id];
            && (Alive(t.pc) ==>
                  && j.attempts == |t.outcomes| + (if t.pc.Attempting? then 1 else 0) <= j.maxAttempts
                  && AllErrors(t.outcomes))
            && (t.pc.Done? ==> Decided(j, t.outcomes, j.maxAttempts))
  {
    OpenedFits(table);
    RunKeepsInv(Opened(table), steps);
    assert Fits(After(Opened(table), steps), id);
  }

  /** And so, in every run, they decide how such a job ends: it has succeeded, run out
      of time or been cancelled exactly if its task is done and its last attempt ended
      that way, and failed exactly if the last attempt erred, or if the task broke off
      and a sweep found it. */
  lemma JobEndsAsItsTask(table: map<Id, Row>, steps: seq<Step>, id: Id)
    requires Run(Opened(table), steps)
    requires id in After(Opened(table), steps).jobs && id in After(Opened(table), steps).tasks
    requires !After(Opened(table), steps).tasks[id].stopped
    ensures var s := After(Opened(table), steps);
            var j, pc, outcomes := s.jobs[id].snapshot, s.tasks[id].pc, s.tasks[id].outcomes;
            && (j.status == Succeeded <==> pc.Done? && outcomes != [] && outcomes[|outcomes| - 1].Succeeds?)
            && (j.status == TimedOut <==> pc.Done? && outcomes != [] && outcomes[|outcomes| - 1].RunsOut?)
            && (j.status == Cancelled <==> pc.Done? && outcomes != [] && outcomes[|outcomes| - 1].SeesCancel?)
            && (j.status == Failed ==>
                  || (pc.Done? && outcomes != [] && outcomes[|outcomes| - 1].Errors?)
                  || ((pc.Aborted? || pc.Panicked?) && j.failureClass == Some(Internal)))
            && (pc.Done? && outcomes != [] && outcomes[|outcomes| - 1].Errors? ==> j.status == Failed)
            && (pc.Done? ==> outcomes != [])
  {
    OpenedFits(table);
    RunKeepsInv(Opened(table), steps);
    assert Fits(After(Opened(table), steps), id);
  }

  // What the sweeps do.

  /** Reconciling fails every job that was queued, running or stuck although its task,
      whose handle is stored, is over; its row says so, too. No other job or row changes. */
  lemma ReconcileFailsOrphans(s: State, now: int, id: Id)
    requires Inv(s)
    ensures var t := Next(s, Reconcile(now));
            var orphan := id in s.jobs && s.jobs[id].handle && id in s.tasks
              && (s.jobs[id].snapshot.status.Queued? || s.jobs[id].snapshot.status.Running?
                  || s.jobs[id].snapshot.status.Stuck?)
              && (s.tasks[id].pc.Done? || s.tasks[id].pc.Aborted? || s.tasks[id].pc.Panicked?);
            && t.tasks == s.tasks && t.stopping == s.stopping && (id in t.jobs <==> id in s.jobs)
            && (orphan ==>
                  && t.jobs[id].snapshot.status == Failed && t.jobs[id].snapshot.failureClass == Some(Internal)
                  && t.jobs[id].snapshot.failure.Some? && t.jobs[id].snapshot.finishedAt == Some(now)
                  && !t.jobs[id].dirty && t.jobs[id].snapshot.attempts == s.jobs[id].snapshot.attempts
                  && id in t.table && t.table[id].status == Failed && t.table[id].failureClass == Some(Internal)
                  && t.table[id].failure == t.jobs[id].snapshot.failure
                  && t.table[id].finishedAt == Some(now / 1_000_000))
            && (!orphan ==>
                  && (id in s.jobs ==> t.jobs[id] == s.jobs[id])
                  && (id in s.table <==> id in t.table) && (id in s.table ==> t.table[id] == s.table[id]))
  {
    assert Fits(s, id);
    if id in s.jobs { SweptAt(s, OrphanIds(s), (j: Snapshot) => Orphaned(j, now), id); }
  }

  /** No job, task or row but that of `id` changes. */
  ghost predicate OthersUntouched(s: State, t: State, id: Id) {
    forall other: Id | other != id ::
      && (other in t.jobs <==> other in s.jobs) && (other in s.jobs ==> t.jobs[other] == s.jobs[other])
      && (other in t.tasks <==> other in s.tasks) && (other in s.tasks ==> t.tasks[other] == s.tasks[other])
      && (other in t.table <==> other in s.table) && (other in s.table ==> t.table[other] == s.table[other])
  }

  /** Asking to stop sets the signal, and aborts a task whose handle is stored; the end of
      the stop cancels the job, whatever it was, in memory and in its row. */
  lemma ForceStopCancels(s: State, id: Id, now: int)
    requires Inv(s) && id in s.jobs
    ensures var t := Next(s, RequestStop(id));
            && OthersUntouched(s, t, id) && t.jobs[id] == s.jobs[id].(cancel := true) && t.table == s.table
            && id in t.tasks && t.stopping == s.stopping + multiset{id}
            && t.tasks[id] == (if s.jobs[id].handle then s.tasks[id].(aborting := true) else s.tasks[id])
    ensures id in s.stopping ==>
      var t := Next(s, FinishStop(id, now));
      && OthersUntouched(s, t, id) && t.stopping == s.stopping - multiset{id}
      && id in t.tasks && t.tasks[id] == s.tasks[id].(stopped := true)
      && t.jobs[id].snapshot == s.jobs[id].snapshot.(
           status := Cancelled, failureClass := Some(CancelledByUser), failure := Some("force-stopped"),
           finishedAt := Some(now))
      && !t.jobs[id].dirty && t.jobs[id].cancel == s.jobs[id].cancel && t.jobs[id].handle == s.jobs[id].handle
      && id in t.table && t.table[id].status == Cancelled && t.table[id].failureClass == Some(CancelledByUser)
      && t.table[id].failure == Some("force-stopped") && t.table[id].finishedAt == Some(now / 1_000_000)
  {
    assert Fits(s, id);
  }

  /** Eviction forgets the jobs that finished at the cutoff or before and the rows that
      finished in a millisecond before it, and changes nothing that it keeps. */
  lemma EvictForgets(s: State, memoryCutoff: int, rowCutoff: int, id: Id)
    ensures var t := Next(s, Evict(memoryCutoff, rowCutoff));
            && t.tasks == s.tasks && t.stopping == s.stopping
            && (id in t.jobs <==>
                  (id in s.jobs
                   && !(s.jobs[id].snapshot.status in {Succeeded, Failed, Cancelled, TimedOut}
                        && s.jobs[id].snapshot.finishedAt.Some?
                        && s.jobs[id].snapshot.finishedAt.value <= memoryCutoff)))
            && (id in t.jobs ==> t.jobs[id] == s.jobs[id])
            && (id in t.table <==>
                  (id in s.table
                   && !(s.table[id].finishedAt.Some? && s.table[id].finishedAt.value < rowCutoff / 1_000_000)))
            && (id in t.table ==> t.table[id] == s.table[id])
  {
  }

  /** A new job is queued, in memory and in its row, with what it was asked for and at
      least one attempt. */
  lemma SpawnRecords(s: State, id: Id, owner: string, name: string, timeoutMs: nat, maxAttempts: nat, now: int)
    requires Enabled(s, Spawn(id, owner, name, timeoutMs, maxAttempts, now))
    ensures var t := Next(s, Spawn(id, owner, name, timeoutMs, maxAttempts, now));
            var limit := if maxAttempts == 0 then 1 else maxAttempts;
            && OthersUntouched(s, t, id) && id in t.jobs && id in t.tasks && id in t.table
            && t.jobs[id] == Entry(Snapshot(owner, name, Queued, now, None, None, 0, limit, timeoutMs, None, None, []),
                                   false, false, false)
            && t.tasks[id] == Task(NotStarted, limit, [], false, false, false)
            && t.table[id] == Row(owner, name, Queued, now / 1_000_000, None, None, 0, limit, timeoutMs, None, None, [])
  {
  }

  /** What the task's own steps write: it starts, counts its attempts, and ends with its
      first outcome that is no error, or with the last error when no attempt is left. */
  lemma TaskWrites(s: State, id: Id, now: int)
    requires Inv(s) && id in s.jobs
    ensures Enabled(s, Start(id, now)) ==>
      var t := Next(s, Start(id, now));
      && OthersUntouched(s, t, id) && t.tasks[id] == s.tasks[id].(pc := Ready) && id in t.jobs
      && t.jobs[id].snapshot == s.jobs[id].snapshot.(status := Running, startedAt := Some(now))
    ensures Enabled(s, BeginAttempt(id)) ==>
      var t := Next(s, BeginAttempt(id));
      && OthersUntouched(s, t, id) && t.tasks[id] == s.tasks[id].(pc := Attempting) && id in t.jobs
      && t.jobs[id].snapshot == s.jobs[id].snapshot.(attempts := |s.tasks[id].outcomes| + 1)
  {
    assert Fits(s, id);
  }

  lemma OutcomeIsWritten(s: State, id: Id, outcome: Outcome, now: int)
    requires Inv(s) && id in s.jobs && Enabled(s, Observe(id, outcome, now))
    ensures var t, j := Next(s, Observe(id, outcome, now)), s.jobs[id].snapshot;
            && OthersUntouched(s, t, id) && id in t.jobs && id in t.tasks
            && t.tasks[id].outcomes == s.tasks[id].outcomes + [outcome]
            && (outcome.Errors? ==> t.jobs[id] == s.jobs[id] && t.tasks[id].pc == Ready)
            && (!outcome.Errors? ==>
                  (!t.jobs[id].dirty && t.tasks[id].pc == Done && id in t.table
                   && t.jobs[id].snapshot.finishedAt == Some(now) && t.table[id].finishedAt == Some(now / 1_000_000)
                   && t.table[id].status == t.jobs[id].snapshot.status))
            && (outcome.Succeeds? ==>
                  (t.jobs[id].snapshot
                   == j.(status := Succeeded, failureClass := None, failure := None, finishedAt := Some(now))))
            && (outcome.RunsOut? ==>
                  (t.jobs[id].snapshot.status == TimedOut && t.jobs[id].snapshot.failureClass == Some(Timeout)))
            && (outcome.SeesCancel? ==>
                  (t.jobs[id].snapshot.status == Cancelled
                   && t.jobs[id].snapshot.failureClass == Some(CancelledByUser)))
  {
    assert Fits(s, id);
  }

  lemma GivingUpIsWritten(s: State, id: Id, now: int, cause: FailureClass, message: string)
    requires Inv(s) && id in s.jobs && Enabled(s, GiveUp(id, now))
    requires s.tasks[id].outcomes != []
    requires s.tasks[id].outcomes[|s.tasks[id].outcomes| - 1] == Errors(cause, message)
    ensures var t := Next(s, GiveUp(id, now));
            && OthersUntouched(s, t, id) && id in t.jobs && id in t.table && t.tasks[id].pc == Done
            && t.jobs[id].snapshot == s.jobs[id].snapshot.(
                 status := Failed, failureClass := Some(cause), failure := Some(message), finishedAt := Some(now))
            && t.table[id].status == Failed && t.table[id].failure == Some(message)
            && t.table[id].finishedAt == Some(now / 1_000_000)
  {
    assert Fits(s, id);
  }

  /** Detection marks as stuck every running job that started longer ago than the
      threshold; its row says so, too. No other job or row changes. */
  lemma DetectionMarksStuck(s: State, threshold: nat, now: int, id: Id)
    requires Inv(s)
    ensures var t := Next(s, DetectStuck(threshold, now));
            var stuck := id in s.jobs && s.jobs[id].snapshot.status.Running?
              && s.jobs[id].snapshot.startedAt.Some? && s.jobs[id].snapshot.startedAt.value + threshold < now;
            && t.tasks == s.tasks && t.stopping == s.stopping && (id in t.jobs <==> id in s.jobs)
            && (stuck ==>
                  && t.jobs[id] == s.jobs[id].(snapshot := s.jobs[id].snapshot.(status := Stuck), dirty := false)
                  && id in t.table && t.table[id].status == Stuck
                  && t.table[id].attempts == s.jobs[id].snapshot.attempts)
            && (!stuck ==>
                  && (id in s.jobs ==> t.jobs[id] == s.jobs[id])
                  && (id in s.table <==> id in t.table) && (id in s.table ==> t.table[id] == s.table[id]))
  {
    assert Fits(s, id);
    if id in s.jobs { SweptAt(s, StuckIds(s, threshold, now), (j: Snapshot) => j.(status := Stuck), id); }
  }

  // What becomes of a job that has ended.

  /** The task of a job takes no more steps of its own. */
  predicate AtRest(s: State, id: Id) {
    id in s.tasks && !Live(s.tasks[id])
  }

  ghost predicate SettledAlike(s: State, t: State, id: Id) {
    id in s.jobs && id in t.jobs ==>
      t.jobs[id].snapshot == s.jobs[id].snapshot.(children := t.jobs[id].snapshot.children)
  }

  predicate Stops(step: Step, id: Id) { step.FinishStop? && step.id == id }

  lemma RestIsForGood(s: State, step: Step, id: Id)
    requires Enabled(s, step) && AtRest(s, id)
    ensures AtRest(Next(s, step), id)
    ensures id !in s.jobs ==> id !in Next(s, step).jobs
  {
    if OneJob(step) && step.id != id {
      OneJobFrame(s, step);
      assert SameAt(s, Next(s, step), id);
    } else if OneJob(step) && step.FinishStop? {
      FinishStopFrame(s, id, step.now);
      if id in s.jobs { FinishedFrame(StopNoted(s, id), id, ForceStopped(s.jobs[id].snapshot, step.now)); }
    } else if OneJob(step) && step.TrackChild? && id in s.jobs {
      var j := s.jobs[id].snapshot;
      UpdatedFrame(s, id, if step.child in j.children then j else j.(children := j.children + [step.child]));
    }
  }

  lemma ChildIsTracked(s: State, id: Id, child: nat)
    requires Fits(s, id) && id in s.jobs
    ensures SettledAlike(s, Next(s, TrackChild(id, child)), id)
  {
    var j := s.jobs[id].snapshot;
    UpdatedAt(s, id, if child in j.children then j else j.(children := j.children + [child]));
  }

  lemma TerminalJobStep(s: State, step: Step, id: Id)
    requires Fits(s, id) && Enabled(s, step) && AtRest(s, id) && !Stops(step, id)
    requires id in s.jobs && Terminal(s.jobs[id].snapshot.status)
    ensures SettledAlike(s, Next(s, step), id)
  {
    if OneJob(step) {
      if step.id != id {
        OneJobFrame(s, step);
        assert SameAt(s, Next(s, step), id);
      } else if step.TrackChild? {
        ChildIsTracked(s, id, step.child);
      }
    } else if step.DetectStuck? {
      SweptAt(s, StuckIds(s, step.threshold, step.now), (j: Snapshot) => j.(status := Stuck), id);
    } else if step.Reconcile? {
      SweptAt(s, OrphanIds(s), (j: Snapshot) => Orphaned(j, step.now), id);
    }
  }

  ghost predicate NeverStops(steps: seq<Step>, id: Id) {
    forall k | 0 <= k < |steps| :: !Stops(steps[k], id)
  }

  /** Through every run a terminal job whose task takes no more steps keeps its status,
      failure, attempts and finishing time, and may only be given more children, until
      a force-stop of that job ends. */
  lemma {:induction false} SettledJobStays(s: State, steps: seq<Step>, id: Id)
    requires Inv(s) && Run(s, steps) && NeverStops(steps, id) && AtRest(s, id)
    requires id in s.jobs ==> Terminal(s.jobs[id].snapshot.status)
    ensures SettledAlike(s, After(s, steps), id)
    ensures id !in s.jobs ==> id !in After(s, steps).jobs
    decreases |steps|
  {
    if steps != [] {
      var t := Next(s, steps[0]);
      assert Fits(s, id) && !Stops(steps[0], id);
      RestIsForGood(s, steps[0], id);
      if id in s.jobs { TerminalJobStep(s, steps[0], id); }
      StepKeepsInv(s, steps[0]);
      assert NeverStops(steps[1..], id);
      SettledJobStays(t, steps[1..], id);
    }
  }

  /** So does every terminal job that was never force-stopped. */
  lemma TerminalJobsStay(s: State, steps: seq<Step>, id: Id)
    requires Inv(s) && id in s.jobs && Terminal(s.jobs[id].snapshot.status)
    requires id in s.tasks && !s.tasks[id].stopped
    requires Run(s, steps) && NeverStops(steps, id)
    ensures SettledAlike(s, After(s, steps), id)
  {
    assert Fits(s, id);
    SettledJobStays(s, steps, id);
  }

  /** Only eviction ever forgets a job, and only a finished one. */
  lemma OnlyEvictionForgets(s: State, step: Step, id: Id)
    requires Enabled(s, step) && id in s.jobs && id !in Next(s, step).jobs
    ensures step.Evict? && Terminal(s.jobs[id].snapshot.status)
  {
    if OneJob(step) {
      OneJobFrame(s, step);
    }
  }

  // Whether a force-stop is the end of a job.

  function StatusOf(s: State, id: Id): Option<Status> {
    if id in s.jobs then Some(s.jobs[id].snapshot.status) else None
  }

  /** A run, without another force-stop of the job, after which the job is in memory and
      not cancelled. */
  ghost predicate Revives(s: State, steps: seq<Step>, id: Id) {
    && Run(s, steps) && NeverStops(steps, id)
    && StatusOf(After(s, steps), id) !in {None, Some(Cancelled)}
  }

  lemma OneStepRun(s: State, step: Step)
    requires Enabled(s, step)
    ensures Run(s, [step]) && After(s, [step]) == Next(s, step)
  {
    assert [step][1..] == [];
  }

  lemma RunInFront(s: State, step: Step, rest: seq<Step>, id: Id)
    requires Enabled(s, step) && !Stops(step, id) && Revives(Next(s, step), rest, id)
    ensures Revives(s, [step] + rest, id)
  {
    assert ([step] + rest)[1..] == rest;
  }

  /** A step after which the job has another status. */
  lemma OwnStepRevives(s: State, step: Step, status: Status)
    requires Enabled(s, step) && !step.FinishStop? && OneJob(step)
    requires StatusOf(Next(s, step), step.id) == Some(status) && status != Cancelled
    ensures Revives(s, [step], step.id)
  {
    OneStepRun(s, step);
  }

  lemma StartRevives(s: State, id: Id, now: int)
    requires Polled(s, id, NotStarted) && id in s.jobs && Fits(s, id)
    ensures Revives(s, [Start(id, now)], id)
  {
    UpdatedAt(SetPc(s, id, Ready), id, s.jobs[id].snapshot.(status := Running, startedAt := Some(now)));
    OwnStepRevives(s, Start(id, now), Running);
  }

  lemma SuccessRevives(s: State, id: Id, now: int)
    requires Polled(s, id, Attempting) && id in s.jobs && Fits(s, id)
    ensures Revives(s, [Observe(id, Succeeds, now)], id)
  {
    FinishedAt(s.(tasks := s.tasks[id := TaskAfter(s.tasks[id], Succeeds)]), id,
               EndedBy(s.jobs[id].snapshot, Succeeds, now));
    OwnStepRevives(s, Observe(id, Succeeds, now), Succeeded);
  }

  lemma GivingUpRevives(s: State, id: Id, now: int)
    requires Enabled(s, GiveUp(id, now)) && id in s.jobs && Fits(s, id)
    ensures Revives(s, [GiveUp(id, now)], id)
  {
    FinishedAt(SetPc(s, id, Done), id, FailedSnapshot(s.jobs[id].snapshot, s.tasks[id].outcomes, now));
    OwnStepRevives(s, GiveUp(id, now), Failed);
  }

  /** A task a thread is running brings its job back, whatever point it is at. */
  lemma PolledTaskRevives(s: State, id: Id, now: int) returns (steps: seq<Step>)
    requires Fits(s, id) && id in s.jobs && s.tasks[id].polling && Alive(s.tasks[id].pc)
    ensures Revives(s, steps, id)
  {
    match s.tasks[id].pc
    case NotStarted =>
      steps := [Start(id, now)];
      StartRevives(s, id, now);
    case Attempting =>
      steps := [Observe(id, Succeeds, now)];
      SuccessRevives(s, id, now);
    case Ready =>
      if |s.tasks[id].outcomes| == s.tasks[id].maxAttempts {
        steps := [GiveUp(id, now)];
        GivingUpRevives(s, id, now);
      } else {
        var t := Next(s, BeginAttempt(id));
        BeginAttemptKeepsFit(s, BeginAttempt(id));
        OwnStepFrame(s, BeginAttempt(id));
        UpdatedFrame(SetPc(s, id, Attempting), id, s.jobs[id].snapshot.(attempts := |s.tasks[id].outcomes| + 1));
        SuccessRevives(t, id, now);
        RunInFront(s, BeginAttempt(id), [Observe(id, Succeeds, now)], id);
        steps := [BeginAttempt(id)] + [Observe(id, Succeeds, now)];
      }
  }

  lemma LiveTaskRevives(s: State, id: Id, now: int) returns (steps: seq<Step>)
    requires Fits(s, id) && id in s.jobs && Live(s.tasks[id])
    ensures Revives(s, steps, id)
  {
    if s.tasks[id].polling {
      steps := PolledTaskRevives(s, id, now);
    } else {
      var rest := PolledTaskRevives(Next(s, Wake(id)), id, now);
      RunInFront(s, Wake(id), rest, id);
      steps := [Wake(id)] + rest;
    }
  }

  /** After the end of a force-stop the job can come back, by its own task's steps,
      exactly when that task still takes any: it has not ended, and no abort has
      caught it at an await. */
  lemma StoppedJobRevivesIff(s: State, id: Id, now: int)
    requires Inv(s) && id in s.stopping && id in s.jobs
    ensures (exists steps :: Revives(Next(s, FinishStop(id, now)), steps, id)) <==> !AtRest(s, id)
  {
    var t := Next(s, FinishStop(id, now));
    assert Fits(s, id);
    FinishStopAt(s, id, now);
    StepKeepsInv(s, FinishStop(id, now));
    assert Fits(t, id);
    if AtRest(s, id) {
      forall steps | Run(t, steps) && NeverStops(steps, id) ensures !Revives(t, steps, id) {
        SettledJobStays(t, steps, id);
      }
    } else {
      var steps := LiveTaskRevives(t, id, now);
    }
  }

  /** As a force-stop comes: the task takes no more steps already, or it waits at an
      await with its handle stored. */
  predicate Stoppable(s: State, id: Id) {
    AtRest(s, id) || (id in s.jobs && id in s.tasks && s.jobs[id].handle && !s.tasks[id].polling)
  }

  /** So after a force-stop whose two halves follow each other the job can come back
      exactly when, as it comes, the task is being run by a thread, or is not aborted
      because its handle is not stored yet. */
  lemma ForceStoppedJobRevivesIff(s: State, id: Id, now: int)
    requires Inv(s) && id in s.jobs
    ensures var t := Next(Next(s, RequestStop(id)), FinishStop(id, now));
            (exists steps :: Revives(t, steps, id)) <==> !Stoppable(s, id)
  {
    var t := Next(s, RequestStop(id));
    assert Fits(s, id);
    StepKeepsInv(s, RequestStop(id));
    StoppedJobRevivesIff(t, id, now);
  }

  // Instances.

  function FinishedEntry(finished: int): Entry {
    Entry(Snapshot("o", "n", Succeeded, 0, Some(0), Some(finished), 1, 1, 0, None, None, []),
          false, true, false)
  }

  /** When the second clock reading of an eviction is a millisecond later, a
      job can stay in memory while its row is deleted. */
  lemma SplitClockLosesRow(id: Id, finished: int)
    ensures var e := FinishedEntry(finished);
            var s := State(map[id := e], map[id := Task(Done, 1, [Succeeds], true, false, false)],
                           map[id := RowOf(e.snapshot)], multiset{});
            var t := Next(s, Evict(finished - 1, finished + NANOS_PER_MILLI));
            Inv(s) && id in t.jobs && id !in t.table
  {
    var e := FinishedEntry(finished);
    var task := Task(Done, 1, [Succeeds], true, false, false);
    assert [Succeeds][..0] == [];
    assert JobOk(e, task, Some(RowOf(e.snapshot)));
    assert Millis(finished + NANOS_PER_MILLI) == Millis(finished) + 1;
  }

  lemma SpawnedAndStopped(spawn: Step) returns (stopped: State)
    requires spawn.Spawn?
    ensures var steps := [spawn, RequestStop(spawn.id), FinishStop(spawn.id, spawn.now)];
            Run(Opened(map[]), steps) && stopped == After(Opened(map[]), steps)
    ensures Inv(stopped) && StatusOf(stopped, spawn.id) == Some(Cancelled)
    ensures spawn.id in stopped.tasks && stopped.tasks[spawn.id].pc == NotStarted
    ensures !stopped.tasks[spawn.id].polling && !stopped.tasks[spawn.id].aborting
  {
    var id, now := spawn.id, spawn.now;
    var s := Next(Opened(map[]), spawn);
    var t := StopRequested(s, id);
    OpenedFits(map[]);
    StepKeepsInv(Opened(map[]), spawn);
    StepKeepsInv(s, RequestStop(id));
    assert Fits(t, id);
    FinishStopAt(t, id, now);
    stopped := StopFinished(t, id, now);
    StepKeepsInv(t, FinishStop(id, now));
    ThreeSteps(Opened(map[]), spawn, RequestStop(id), FinishStop(id, now));
  }

  /** A job force-stopped between its spawn and the storing of its handle is
      revived by its own task: cancelled, then running again. */
  lemma EarlyForceStopRevivesJob(spawn: Step) returns (stopped: State)
    requires spawn.Spawn?
    ensures var steps := [spawn, RequestStop(spawn.id), FinishStop(spawn.id, spawn.now)];
            Run(Opened(map[]), steps) && stopped == After(Opened(map[]), steps)
    ensures StatusOf(stopped, spawn.id) == Some(Cancelled)
    ensures Revives(stopped, [Wake(spawn.id), Start(spawn.id, spawn.now)], spawn.id)
  {
    var id, now := spawn.id, spawn.now;
    stopped := SpawnedAndStopped(spawn);
    assert Fits(stopped, id);
    StartRevives(SetPolling(stopped, id, true), id, now);
    RunInFront(stopped, Wake(id), [Start(id, now)], id);
    assert [Wake(id)] + [Start(id, now)] == [Wake(id), Start(id, now)];
  }

  lemma ThreeSteps(s: State, a: Step, b: Step, c: Step)
    requires Enabled(s, a) && Enabled(Next(s, a), b) && Enabled(Next(Next(s, a), b), c)
    ensures Run(s, [a, b, c]) && After(s, [a, b, c]) == Next(Next(Next(s, a), b), c)
  {
    assert [a, b, c][1..] == [b, c] && [b, c][1..] == [c];
    OneStepRun(Next(Next(s, a), b), c);
  }

  /** Nor does a stored handle suffice: while a thread runs the task, a force-stop
      comes and goes, and the task then finishes as if nothing had happened. */
  lemma ForceStopIsOvertaken(s: State, id: Id, now: int)
    requires Inv(s) && Polled(s, id, Attempting) && id in s.jobs && s.jobs[id].handle
    ensures var t := Next(Next(s, RequestStop(id)), FinishStop(id, now));
            && t.tasks[id].aborting && StatusOf(t, id) == Some(Cancelled)
            && Revives(t, [Observe(id, Succeeds, now)], id)
  {
    var m := Next(s, RequestStop(id));
    assert Fits(s, id);
    StepKeepsInv(s, RequestStop(id));
    assert Fits(m, id);
    FinishStopAt(m, id, now);
    FinishStopKeepsFit(m, id, now);
    SuccessRevives(Next(m, FinishStop(id, now)), id, now);
  }

  lemma FlushedNone(s: State)
    ensures FlushedAll(s, {}) == s
  {
    var t := FlushedAll(s, {});
    assert t.jobs == s.jobs && t.table == s.table;
  }

  lemma FlushedOneMoreRow(s: State, done: set<Id>, id: Id, i: Id)
    requires id !in done && id in s.jobs
    ensures var t, u := Flushed(FlushedAll(s, done), id), FlushedAll(s, done + {id});
            (i in t.table <==> i in u.table) && (i in t.table ==> t.table[i] == u.table[i])
  {
  }

  lemma FlushedOneMoreJobs(s: State, done: set<Id>, id: Id)
    requires id !in done
    ensures Flushed(FlushedAll(s, done), id).jobs == FlushedAll(s, done + {id}).jobs
    ensures id !in s.jobs ==> Flushed(FlushedAll(s, done), id).table == FlushedAll(s, done + {id}).table
  {
  }

  lemma FlushedOneMore(s: State, done: set<Id>, id: Id)
    requires id !in done
    ensures Flushed(FlushedAll(s, done), id) == FlushedAll(s, done + {id})
  {
    var t, u := Flushed(FlushedAll(s, done), id), FlushedAll(s, done + {id});
    FlushedOneMoreJobs(s, done, id);
    if id in s.jobs {
      forall i ensures (i in t.table <==> i in u.table) && (i in t.table ==> t.table[i] == u.table[i]) {
        FlushedOneMoreRow(s, done, id, i);
      }
    }
    assert t.table == u.table;
  }

  /** The supervisor. Methods that the spawned task calls take its place in a
      run; `RunTask` is the task's whole retry loop, undisturbed. */
  class JobSupervisor {
    var jobs: map<Id, Entry>
    var tasks: map<Id, Task>
    var table: map<Id, Row>
    ghost var stopping: multiset<Id>

    ghost function Now(): State
      reads this
    {
      State(jobs, tasks, table, stopping)
    }

    constructor (stored: map<Id, Row>)
      ensures Now() == Opened(stored) && Inv(Now())
    {
      jobs, tasks, table := map[], map[], stored;
      stopping := multiset{};
    }

    method FlushPersist(id: Id, force: bool)
      modifies this
      ensures Now() == if id in old(jobs)
                          && (force || (old(jobs)[id].dirty && Terminal(old(jobs)[id].snapshot.status)))
                       then Flushed(old(Now()), id) else old(Now())
    {
      if id !in jobs {
        return;
      }
      var entry := jobs[id];
      if !force && !entry.dirty {
        return;
      }
      if !force && !Terminal(entry.snapshot.status) {
        return;
      }
      jobs := jobs[id := entry.(dirty := false)];
      table := Upserted(table, id, entry.snapshot);
    }

    method Update(id: Id, snapshot: Snapshot)
      modifies this
      ensures Now() == Updated(old(Now()), id, snapshot)
    {
      if id in jobs {
        jobs := jobs[id := jobs[id].(snapshot := snapshot, dirty := true)];
      }
      FlushPersist(id, false);
    }

    method Finish(id: Id, snapshot: Snapshot)
      modifies this
      ensures Now() == Finished(old(Now()), id, snapshot)
    {
      Update(id, snapshot);
      FlushPersist(id, true);
    }

    method SpawnJob(id: Id, owner: string, name: string, timeoutMs: nat, maxAttempts: nat, now: int)
      requires Enabled(Now(), Spawn(id, owner, name, timeoutMs, maxAttempts, now))
      modifies this
      ensures Now() == Next(old(Now()), Spawn(id, owner, name, timeoutMs, maxAttempts, now))
    {
      var snapshot := Snapshot(owner, name, Queued, now, None, None, 0, Max(maxAttempts, 1),
                               timeoutMs, None, None, []);
      jobs := jobs[id := Entry(snapshot, false, false, true)];
      tasks := tasks[id := Task(NotStarted, Max(maxAttempts, 1), [], false, false, false)];
      FlushPersist(id, true);
    }

    method CancelJob(id: Id) returns (found: bool)
      modifies this
      ensures Now() == Next(old(Now()), Cancel(id)) && found == (id in old(jobs))
    {
      found := id in jobs;
      if found {
        jobs := jobs[id := jobs[id].(cancel := true)];
      }
    }

    /** Under the lock: cancel, and abort the task if its handle is there. */
    method AskToStop(id: Id) returns (found: bool)
      modifies this
      ensures Now() == Next(old(Now()), RequestStop(id)) && found == (id in old(jobs))
    {
      found := id in jobs;
      if found {
        if id in tasks && jobs[id].handle {
          tasks := tasks[id := tasks[id].(aborting := true)];
        }
        jobs := jobs[id := jobs[id].(cancel := true)];
        stopping := stopping + multiset{id};
      }
    }

    /** After it: write the job as cancelled. */
    method WriteStopped(id: Id, now: int)
      requires id in stopping
      modifies this
      ensures Now() == Next(old(Now()), FinishStop(id, now))
    {
      if id in tasks {
        tasks := tasks[id := tasks[id].(stopped := true)];
      }
      stopping := stopping - multiset{id};
      if id in jobs {
        Finish(id, ForceStopped(jobs[id].snapshot, now));
      }
    }

    method ForceStopJob(id: Id, now: int) returns (stopped: bool)
      modifies this
      ensures stopped == (id in old(jobs))
      ensures Now() == if stopped then Next(Next(old(Now()), RequestStop(id)), FinishStop(id, now)) else old(Now())
    {
      stopped := AskToStop(id);
      if stopped {
        WriteStopped(id, now);
      }
    }

    /** The stuck sweep: mark under the lock, then flush each marked job. */
    method DetectStuckJobs(threshold: nat, now: int) returns (stuck: set<Id>)
      modifies this
      ensures stuck == StuckIds(old(Now()), threshold, now)
      ensures Now() == Next(old(Now()), DetectStuck(threshold, now))
    {
      stuck := set id | id in jobs && IsStuck(jobs[id].snapshot, threshold, now);
      var found := jobs;
      jobs := map id | id in found ::
        if id in stuck
        then found[id].(snapshot := found[id].snapshot.(status := Stuck), dirty := true)
        else found[id];
      assert Now() == Marked(old(Now()), stuck, (j: Snapshot) => j.(status := Stuck));
      FlushAll(stuck);
    }

    method ReconcileOrphans(now: int) returns (orphaned: set<Id>)
      modifies this
      ensures orphaned == OrphanIds(old(Now()))
      ensures Now() == Next(old(Now()), Reconcile(now))
    {
      orphaned := set id | id in jobs
                  && jobs[id].snapshot.status in {Queued, Running, Stuck}
                  && jobs[id].handle && id in tasks && !Alive(tasks[id].pc);
      var found := jobs;
      jobs := map id | id in found ::
        if id in orphaned
        then found[id].(snapshot := Orphaned(found[id].snapshot, now), dirty := true)
        else found[id];
      assert Now() == Marked(old(Now()), orphaned, (j: Snapshot) => Orphaned(j, now));
      FlushAll(orphaned);
    }

    method FlushAll(ids: set<Id>)
      modifies this
      ensures Now() == FlushedAll(old(Now()), ids)
    {
      var todo := ids;
      FlushedNone(Now());
      while todo != {}
        invariant todo <= ids && Now() == FlushedAll(old(Now()), ids - todo)
        decreases |todo|
      {
        var id :| id in todo;
        FlushedOneMore(old(Now()), ids - todo, id);
        assert ids - (todo - {id}) == ids - todo + {id};
        todo := todo - {id};
        FlushPersist(id, true);
      }
      assert ids - {} == ids;
    }

    method EvictStaleRecords(memoryCutoff: int, rowCutoff: int)
      modifies this
      ensures Now() == Next(old(Now()), Evict(memoryCutoff, rowCutoff))
    {
      jobs := map id | id in jobs && Kept(jobs[id], memoryCutoff) :: jobs[id];
      table := map id | id in table && RowKept(table[id], rowCutoff) :: table[id];
    }

    // The spawned task's four calls into the supervisor.

    /** The task is at `pc` and undisturbed; a thread is running it, or it waits. */
    ghost predicate Retrying(id: Id, pc: Pc, polling: bool)
      reads this
    {
      && Inv(Now()) && id in jobs && id in tasks && tasks[id].pc == pc && tasks[id].polling == polling
      && !tasks[id].aborting && !tasks[id].stopped
    }

    /** The runtime takes the task up, at its start or at an await. */
    method Resume(id: Id, pc: Pc)
      requires Retrying(id, pc, false) && pc in {NotStarted, Attempting}
      modifies this
      ensures Now() == Next(old(Now()), Wake(id)) && Retrying(id, pc, true)
      ensures tasks[id] == old(tasks)[id].(polling := true) && jobs == old(jobs)
    {
      StepKeepsInv(Now(), Wake(id));
      tasks := tasks[id := tasks[id].(polling := true)];
    }

    /** The task waits for its operation. */
    method Await(id: Id)
      requires Retrying(id, Attempting, true)
      modifies this
      ensures Now() == Next(old(Now()), Suspend(id)) && Retrying(id, Attempting, false)
      ensures tasks[id] == old(tasks)[id].(polling := false) && jobs == old(jobs)
    {
      StepKeepsInv(Now(), Suspend(id));
      tasks := tasks[id := tasks[id].(polling := false)];
    }

    method StartTask(id: Id, now: int)
      requires Retrying(id, NotStarted, true)
      modifies this
      ensures Now() == Next(old(Now()), Start(id, now)) && Retrying(id, Ready, true)
      ensures tasks[id] == old(tasks)[id].(pc := Ready) && jobs[id].cancel == old(jobs)[id].cancel
    {
      StepKeepsInv(Now(), Start(id, now));
      tasks := tasks[id := tasks[id].(pc := Ready)];
      Update(id, jobs[id].snapshot.(status := Running, startedAt := Some(now)));
    }

    method CallOperation(id: Id)
      requires Retrying(id, Ready, true) && |tasks[id].outcomes| < tasks[id].maxAttempts
      modifies this
      ensures Now() == Next(old(Now()), BeginAttempt(id)) && Retrying(id, Attempting, true)
      ensures tasks[id] == old(tasks)[id].(pc := Attempting)
      ensures jobs[id].cancel == old(jobs)[id].cancel
    {
      StepKeepsInv(Now(), BeginAttempt(id));
      tasks := tasks[id := tasks[id].(pc := Attempting)];
      Update(id, jobs[id].snapshot.(attempts := |tasks[id].outcomes| + 1));
    }

    method TakeOutcome(id: Id, outcome: Outcome, now: int)
      requires Retrying(id, Attempting, true) && !outcome.ChannelClosed?
      requires outcome.SeesCancel? ==> jobs[id].cancel
      modifies this
      ensures Now() == Next(old(Now()), Observe(id, outcome, now))
      ensures Retrying(id, if Ends(outcome) then Done else Ready, true)
      ensures tasks[id] == TaskAfter(old(tasks)[id], outcome)
      ensures jobs[id].cancel == old(jobs)[id].cancel
      ensures Ends(outcome) ==> Decided(jobs[id].snapshot, tasks[id].outcomes, tasks[id].maxAttempts)
    {
      StepKeepsInv(Now(), Observe(id, outcome, now));
      tasks := tasks[id := TaskAfter(tasks[id], outcome)];
      if Ends(outcome) {
        Finish(id, EndedBy(jobs[id].snapshot, outcome, now));
        assert Fits(Now(), id);
      }
    }

    method ReportFailure(id: Id, now: int)
      requires Retrying(id, Ready, true) && |tasks[id].outcomes| == tasks[id].maxAttempts
      modifies this
      ensures Now() == Next(old(Now()), GiveUp(id, now)) && Retrying(id, Done, true)
      ensures tasks[id] == old(tasks)[id].(pc := Done)
      ensures Decided(jobs[id].snapshot, tasks[id].outcomes, tasks[id].maxAttempts)
    {
      StepKeepsInv(Now(), GiveUp(id, now));
      tasks := tasks[id := tasks[id].(pc := Done)];
      Finish(id, FailedSnapshot(jobs[id].snapshot, tasks[id].outcomes, now));
      assert Fits(Now(), id);
    }

    /** One turn of the retry loop. */
    method Attempt(id: Id, outcome: Outcome, now: int)
      requires Retrying(id, Ready, true) && |tasks[id].outcomes| < tasks[id].maxAttempts
      requires !outcome.ChannelClosed? && (outcome.SeesCancel? ==> jobs[id].cancel)
      modifies this
      ensures Retrying(id, if Ends(outcome) then Done else Ready, true)
      ensures tasks[id] == TaskAfter(old(tasks)[id], outcome)
      ensures jobs[id].cancel == old(jobs)[id].cancel
      ensures Ends(outcome) ==> Decided(jobs[id].snapshot, tasks[id].outcomes, tasks[id].maxAttempts)
    {
      CallOperation(id);
      Await(id);
      Resume(id, Attempting);
      TakeOutcome(id, outcome, now);
    }

    method RetryLoop(id: Id, script: seq<Outcome>, now: int) returns (calls: nat, ended: bool)
      requires Retrying(id, Ready, true) && tasks[id].outcomes == []
      requires |script| >= tasks[id].maxAttempts
      requires forall o | o in script :: !o.ChannelClosed? && (o.SeesCancel? ==> jobs[id].cancel)
      modifies this
      ensures Retrying(id, if ended then Done else Ready, true)
      ensures calls <= tasks[id].maxAttempts == old(tasks)[id].maxAttempts
      ensures tasks[id].outcomes == script[..calls]
      ensures if ended then Decided(jobs[id].snapshot, tasks[id].outcomes, tasks[id].maxAttempts)
              else calls == tasks[id].maxAttempts
    {
      calls := 0;
      while calls < tasks[id].maxAttempts
        invariant Retrying(id, Ready, true) && jobs[id].cancel == old(jobs)[id].cancel
        invariant tasks[id].maxAttempts == old(tasks)[id].maxAttempts
        invariant calls <= tasks[id].maxAttempts && tasks[id].outcomes == script[..calls]
        decreases tasks[id].maxAttempts - calls
      {
        var outcome := script[calls];
        assert outcome in script && script[..calls + 1] == script[..calls] + [outcome];
        Attempt(id, outcome, now);
        calls := calls + 1;
        if Ends(outcome) {
          return calls, true;
        }
      }
      ended := false;
    }

    /** The spawned task, when nothing else touches its job: `script` says how
        each attempt would end. It stops at the first attempt that does not
        error, and the outcomes decide the job. */
    method RunTask(id: Id, script: seq<Outcome>, now: int) returns (calls: nat)
      requires Retrying(id, NotStarted, false) && tasks[id].outcomes == []
      requires |script| >= tasks[id].maxAttempts
      requires forall o | o in script :: !o.ChannelClosed? && (o.SeesCancel? ==> jobs[id].cancel)
      modifies this
      ensures Retrying(id, Done, true) && calls <= tasks[id].maxAttempts == old(tasks)[id].maxAttempts
      ensures calls <= |script| && tasks[id].outcomes == script[..calls]
      ensures Decided(jobs[id].snapshot, tasks[id].outcomes, tasks[id].maxAttempts)
    {
      Resume(id, NotStarted);
      StartTask(id, now);
      var ended;
      calls, ended := RetryLoop(id, script, now);
      if !ended {
        ReportFailure(id, now);
      }
    }
  }
}
