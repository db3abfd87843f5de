/** The client side of the request protocol: the process slot with its
    generations, request ids, the waiters' one-shot mailboxes and draining. */
module NodeTransport {
  import opened Common

  datatype Outcome =
    | Replied(generation: nat, replyId: nat, ok: bool)
    | Drained(ended: Option<nat>)
    | TimedOut
    | WriteFailed
    | NotRunning
    | FrameTooLarge

  /** Allocated, holding the writer of a process, writing its frame, awaiting its
      mailbox, past its deadline, writing its cancellation, or returned to the caller. */
  datatype Phase = Allocated | Armed | Writing | Awaiting | Expired | Cancelling | Done(outcome: Outcome)

  /** `mailbox` is what the one-shot channel holds. */
  datatype Call = Call(generation: nat, phase: Phase, mailbox: Option<Outcome>)

  /** `starting` is the generation that has a reader but is not in the slot yet;
      `drains` holds the generation of the process behind each drain that is about
      to come, or None for a kill that found no process; `trace` is every step so far. */
  datatype State = State(
    nextId: nat, nextGeneration: nat, process: Option<nat>, starting: Option<nat>,
    readers: set<nat>, drains: multiset<Option<nat>>, pending: set<nat>, calls: map<nat, Call>,
    cancels: set<nat>, trace: seq<Step>)

  datatype Step =
    | DropExited
    | SpawnReader
    | FillSlot
    | Allocate
    | Refuse(id: nat)
    | Arm(id: nat)
    | Register(id: nat)
    | WriteDone(id: nat)
    | WriteFails(id: nat)
    | Receive(id: nat)
    | Expire(id: nat)
    | CleanUp(id: nat)
    | CancelEnds(id: nat)
    | Deliver(generation: nat, replyId: nat, ok: bool)
    | ReaderEnds(generation: nat)
    | Kill
    | Drain(ended: Option<nat>)

  const FRESH: State := State(0, 0, None, None, {}, multiset{}, {}, map[], {}, [])

  predicate In(s: State, id: nat, phase: Phase) {
    id in s.calls && s.calls[id].phase == phase
  }

  predicate Enabled(s: State, step: Step) {
    match step
    case DropExited => s.starting.None?
    case SpawnReader => s.starting.None? && s.process.None?
    case FillSlot => s.starting.Some?
    case Allocate => true
    case Refuse(id) => In(s, id, Allocated)
    case Arm(id) => In(s, id, Allocated)
    case Register(id) => In(s, id, Armed)
    case WriteDone(id) => In(s, id, Writing)
    case WriteFails(id) => In(s, id, Writing)
    case Receive(id) => In(s, id, Awaiting) && s.calls[id].mailbox.Some?
    case Expire(id) => In(s, id, Awaiting) && s.calls[id].mailbox.None?
    case CleanUp(id) => In(s, id, Expired)
    case CancelEnds(id) => In(s, id, Cancelling)
    case Deliver(generation, _, _) => generation in s.readers
    case ReaderEnds(generation) => generation in s.readers
    case Kill => true
    case Drain(ended) => ended in s.drains
  }

  function Move(s: State, id: nat, phase: Phase): State
    requires id in s.calls
  {
    s.(calls := s.calls[id := s.calls[id].(phase := phase)])
  }

  /** Puts `outcome` in the mailbox of every call in `ids`. */
  function Mailed(calls: map<nat, Call>, ids: set<nat>, outcome: Outcome): map<nat, Call> {
    map id | id in calls :: if id in ids then calls[id].(mailbox := Some(outcome)) else calls[id]
  }

  function Next(s: State, step: Step): State
    requires Enabled(s, step)
  {
    var s := s.(trace := s.trace + [step]);
    match step
    case DropExited => s.(process := None)
    case SpawnReader =>
      var generation := s.nextGeneration + 1;
      s.(nextGeneration := generation, starting := Some(generation), readers := s.readers + {generation})
    case FillSlot => s.(process := s.starting, starting := None)
    case Allocate =>
      var id := s.nextId + 1;
      s.(nextId := id, calls := s.calls[id := Call(0, Allocated, None)])
    case Refuse(id) => Move(s, id, Done(FrameTooLarge))
    case Arm(id) =>
      if s.process.None? then Move(s, id, Done(NotRunning))
      else s.(calls := s.calls[id := Call(s.process.value, Armed, None)])
    case Register(id) => Move(s, id, Writing).(pending := s.pending + {id})
    case WriteDone(id) => Move(s, id, Awaiting)
    case WriteFails(id) => Move(s, id, Done(WriteFailed)).(pending := s.pending - {id})
    case Receive(id) => Move(s, id, Done(s.calls[id].mailbox.value))
    case Expire(id) => Move(s, id, Expired)
    case CleanUp(id) =>
      Move(s, id, if s.process.Some? then Cancelling else Done(TimedOut)).(pending := s.pending - {id},
        nextId := s.nextId + 1, cancels := s.cancels + {s.nextId + 1})
    case CancelEnds(id) => Move(s, id, Done(TimedOut))
    case Deliver(generation, replyId, ok) =>
      if replyId !in s.pending then s
      else s.(pending := s.pending - {replyId},
              calls := Mailed(s.calls, {replyId}, Replied(generation, replyId, ok)))
    case ReaderEnds(generation) =>
      s.(readers := s.readers - {generation}, drains := s.drains + multiset{Some(generation)},
         process := if s.process == Some(generation) then None else s.process)
    case Kill => s.(process := None, drains := s.drains + multiset{s.process})
    case Drain(ended) =>
      s.(drains := s.drains - multiset{ended}, pending := {}, calls := Mailed(s.calls, s.pending, Drained(ended)))
  }

  // Invariants.

  function UpTo(n: nat): set<nat> {
    if n == 0 then {} else UpTo(n - 1) + {n}
  }

  lemma {:induction false} UpToSize(n: nat, m: nat)
    requires m > n
    ensures |UpTo(n)| == n && m !in UpTo(n)
  {
    if n > 0 { UpToSize(n - 1, n); UpToSize(n - 1, m); }
  }

  /** Ids 1 to `nextId` are each one call or one cancellation, never both. */
  ghost predicate IdsOk(s: State) {
    && s.calls.Keys !! s.cancels
    && s.calls.Keys + s.cancels == UpTo(s.nextId)
  }

  /** The slot and the process about to fill it are of the newest generation. */
  ghost predicate SlotOk(s: State) {
    && (s.process.Some? ==> s.process.value == s.nextGeneration && s.starting.None?)
    && (s.starting.Some? ==> s.starting.value == s.nextGeneration)
    && (forall g | g in s.readers :: 1 <= g <= s.nextGeneration)
  }

  predicate Registered(phase: Phase) { phase in {Writing, Awaiting, Expired} }

  /** A registered call is in the pending table, or its mailbox is full. */
  ghost predicate PendingOk(s: State) {
    && (forall id | id in s.pending :: id in s.calls && Registered(s.calls[id].phase))
    && (forall id | id in s.calls && Registered(s.calls[id].phase) ::
          id in s.pending <==> s.calls[id].mailbox.None?)
    && (forall id | id in s.calls && s.calls[id].phase in {Allocated, Armed} :: s.calls[id].mailbox.None?)
  }

  /** The one step was taken, and later the other. */
  ghost predicate Follows(trace: seq<Step>, first: Step, second: Step) {
    exists i, j :: 0 <= i < j < |trace| && trace[i] == first && trace[j] == second
  }

  /** What fills a mailbox comes after the call's registration. */
  ghost predicate MailExplained(id: nat, outcome: Outcome, trace: seq<Step>) {
    match outcome
    case Replied(generation, replyId, ok) =>
      replyId == id && Follows(trace, Register(id), Deliver(generation, id, ok))
    case Drained(ended) => Follows(trace, Register(id), Drain(ended))
    case _ => false
  }

  ghost predicate Explained(id: nat, outcome: Outcome, trace: seq<Step>) {
    match outcome
    case TimedOut => Follows(trace, Register(id), Expire(id))
    case WriteFailed => Follows(trace, Register(id), WriteFails(id))
    case NotRunning => Arm(id) in trace
    case FrameTooLarge => Refuse(id) in trace
    case _ => MailExplained(id, outcome, trace)
  }

  ghost predicate CallExplained(id: nat, call: Call, trace: seq<Step>) {
    && (Registered(call.phase) ==> Register(id) in trace)
    && (call.mailbox.Some? ==> MailExplained(id, call.mailbox.value, trace))
    && (call.phase in {Expired, Cancelling} ==> Follows(trace, Register(id), Expire(id)))
    && (call.phase.Done? ==> Explained(id, call.phase.outcome, trace))
  }

  ghost predicate OutcomesOk(s: State) {
    forall id | id in s.calls :: CallExplained(id, s.calls[id], s.trace)
  }

  ghost predicate Inv(s: State) {
    IdsOk(s) && SlotOk(s) && PendingOk(s) && OutcomesOk(s)
  }

  lemma NextIdIsNew(s: State)
    requires IdsOk(s)
    ensures s.nextId + 1 !in s.calls && s.nextId + 1 !in s.cancels
  {
    UpToSize(s.nextId, s.nextId + 1);
    assert s.nextId + 1 !in s.calls.Keys + s.cancels;
  }

  lemma StepKeepsIds(s: State, step: Step)
    requires IdsOk(s) && Enabled(s, step)
    ensures IdsOk(Next(s, step))
  {
    var t := Next(s, step);
    NextIdIsNew(s);
    assert t.calls.Keys == s.calls.Keys + if step.Allocate? then {s.nextId + 1} else {};
  }

  /** Filling the mailboxes of `ids` as they leave the pending table. */
  lemma MailKeepsPending(s: State, ids: set<nat>, outcome: Outcome)
    requires PendingOk(s) && ids <= s.pending
    ensures PendingOk(s.(pending := s.pending - ids, calls := Mailed(s.calls, ids, outcome)))
  {
  }

  lemma StepKeepsPending(s: State, step: Step)
    requires IdsOk(s) && PendingOk(s) && Enabled(s, step)
    ensures PendingOk(Next(s, step))
  {
    NextIdIsNew(s);
    match step
    case Deliver(generation, replyId, ok) =>
      if replyId in s.pending { MailKeepsPending(s, {replyId}, Replied(generation, replyId, ok)); }
    case Drain(ended) =>
      MailKeepsPending(s, s.pending, Drained(ended));
      assert s.pending - s.pending == {};
    case _ =>
  }

  lemma FollowsGrows(trace: seq<Step>, first: Step, second: Step, step: Step)
    ensures Follows(trace, first, second) ==> Follows(trace + [step], first, second)
    ensures first in trace && step == second ==> Follows(trace + [step], first, second)
  {
    var longer := trace + [step];
    if i, j :| 0 <= i < j < |trace| && trace[i] == first && trace[j] == second {
      assert longer[i] == first && longer[j] == second;
    }
    if first in trace && step == second {
      var i :| 0 <= i < |trace| && trace[i] == first;
      assert longer[i] == first && longer[|trace|] == second;
    }
  }

  lemma ExplanationsGrow(id: nat, call: Call, trace: seq<Step>, step: Step)
    requires CallExplained(id, call, trace)
    ensures CallExplained(id, call, trace + [step])
  {
    forall second { FollowsGrows(trace, Register(id), second, step); }
  }

  lemma StepKeepsOutcomes(s: State, step: Step)
    requires PendingOk(s) && OutcomesOk(s) && Enabled(s, step)
    ensures OutcomesOk(Next(s, step))
  {
    var t := Next(s, step);
    forall id | id in t.calls ensures CallExplained(id, t.calls[id], t.trace) {
      FollowsGrows(s.trace, Register(id), step, step);
      if id in s.calls {
        ExplanationsGrow(id, s.calls[id], s.trace, step);
        assert CallExplained(id, s.calls[id], s.trace);
      }
    }
  }

  lemma StepKeepsInv(s: State, step: Step)
    requires Inv(s) && Enabled(s, step)
    ensures Inv(Next(s, step))
  {
    StepKeepsIds(s, step);
    StepKeepsPending(s, step);
    StepKeepsOutcomes(s, step);
  }

  // Runs.

  ghost predicate Run(s: State, steps: seq<Step>)
    decreases |steps|
  {
    steps == [] || (Enabled(s, steps[0]) && Run(Next(s, steps[0]), steps[1..]))
  }

  ghost function After(s: State, steps: seq<Step>): State
    requires Run(s, steps)
    decreases |steps|
  {
    if steps == [] then s else After(Next(s, steps[0]), steps[1..])
  }

  lemma {:induction false} RunKeepsInv(s: State, steps: seq<Step>)
    requires Inv(s) && Run(s, steps)
    ensures Inv(After(s, steps))
    decreases |steps|
  {
    if steps != [] {
      StepKeepsInv(s, steps[0]);
      RunKeepsInv(Next(s, steps[0]), steps[1..]);
    }
  }

  // The slot.

  /** A kill or the dropping of an exited process empties the slot, the end of a reader
      does if the process is its own, and only a spawn fills it; a call is armed with
      the process in the slot, and refused where there is none. */
  lemma SlotChanges(s: State, step: Step)
    requires Enabled(s, step)
    ensures var t := Next(s, step);
            && (step.Kill? || step.DropExited? ==> t.process.None?)
            && (step.ReaderEnds? ==> t.process == if s.process == Some(step.generation) then None else s.process)
            && (step.FillSlot? ==> t.process == s.starting && t.process.Some? && t.starting.None?)
            && (!step.Kill? && !step.DropExited? && !step.ReaderEnds? && !step.FillSlot? ==> t.process == s.process)
            && (step.Kill? ==>
                  t.drains == s.drains + multiset{s.process} && t.calls == s.calls && t.pending == s.pending)
            && (step.Arm? && s.process.Some? ==> t.calls[step.id] == Call(s.process.value, Armed, None))
            && (step.Arm? && s.process.None? ==> t.calls[step.id].phase == Done(NotRunning))
            && (step.CleanUp? ==> step.id !in t.pending)
            && (step.CleanUp? ==> t.calls[step.id].phase == if s.process.Some? then Cancelling else Done(TimedOut))
  {
  }

  lemma {:induction false} EmptySlotStays(s: State, steps: seq<Step>)
    requires Run(s, steps) && s.process.None? && FillSlot !in steps
    ensures After(s, steps).process.None?
    decreases |steps|
  {
    if steps != [] {
      assert steps[0] in steps;
      EmptySlotStays(Next(s, steps[0]), steps[1..]);
    }
  }

  /** From a kill until another process fills the slot no call is made. */
  lemma NoCallAfterKill(s: State, steps: seq<Step>, id: nat)
    requires Run(Next(s, Kill), steps) && FillSlot !in steps
    requires Enabled(After(Next(s, Kill), steps), Arm(id))
    ensures Next(After(Next(s, Kill), steps), Arm(id)).calls[id].phase == Done(NotRunning)
  {
    EmptySlotStays(Next(s, Kill), steps);
  }

  lemma {:induction false} TraceIsTheRun(s: State, steps: seq<Step>)
    requires Run(s, steps)
    ensures After(s, steps).trace == s.trace + steps
    decreases |steps|
  {
    if steps != [] {
      TraceIsTheRun(Next(s, steps[0]), steps[1..]);
      assert s.trace + [steps[0]] + steps[1..] == s.trace + steps;
    }
  }

  lemma {:induction false} RunExtends(s: State, steps: seq<Step>, step: Step)
    requires Run(s, steps) && Enabled(After(s, steps), step)
    ensures Run(s, steps + [step]) && After(s, steps + [step]) == Next(After(s, steps), step)
    decreases |steps|
  {
    if steps != [] {
      RunExtends(Next(s, steps[0]), steps[1..], step);
      assert (steps + [step])[1..] == steps[1..] + [step];
    }
  }

  lemma DoneStays(s: State, step: Step, id: nat)
    requires IdsOk(s) && PendingOk(s) && Enabled(s, step) && id in s.calls && s.calls[id].phase.Done?
    ensures id in Next(s, step).calls && Next(s, step).calls[id].phase == s.calls[id].phase
  {
    NextIdIsNew(s);
  }

  /** A call returns once: whatever it returned stays its outcome. */
  lemma {:induction false} ReturnsOnce(s: State, steps: seq<Step>, id: nat)
    requires Inv(s) && Run(s, steps) && id in s.calls && s.calls[id].phase.Done?
    ensures id in After(s, steps).calls && After(s, steps).calls[id].phase == s.calls[id].phase
    decreases |steps|
  {
    if steps != [] {
      DoneStays(s, steps[0], id);
      StepKeepsInv(s, steps[0]);
      ReturnsOnce(Next(s, steps[0]), steps[1..], id);
    }
  }

  /** In every run: no id is used twice; what a call returns is explained by a
      step of the run that names that call, or by a drain, and that comes after
      the call's registration; a reply it returns carries its own id; and a
      process in the slot is of the newest generation. */
  lemma EveryRunIsSafe(steps: seq<Step>)
    requires Run(FRESH, steps)
    ensures var s := After(FRESH, steps);
            && s.calls.Keys !! s.cancels
            && |s.calls| + |s.cancels| == s.nextId
            && (forall id | id in s.calls && s.calls[id].phase.Done? ::
                  Explained(id, s.calls[id].phase.outcome, steps))
            && (s.process.Some? ==> s.process.value == s.nextGeneration)
  {
    var s := After(FRESH, steps);
    RunKeepsInv(FRESH, steps);
    TraceIsTheRun(FRESH, steps);
    assert s.trace == steps;
    UpToSize(s.nextId, s.nextId + 1);
    assert |s.calls.Keys + s.cancels| == |s.calls.Keys| + |s.cancels|;
    assert forall id | id in s.calls :: CallExplained(id, s.calls[id], s.trace);
  }

  /** How far a call is from its result. */
  function Rank(phase: Phase): nat {
    match phase
    case Allocated => 6
    case Armed => 5
    case Writing => 4
    case Awaiting => 3
    case Expired => 2
    case Cancelling => 1
    case Done(_) => 0
  }

  /** The caller's own steps, whatever the process does. */
  predicate Own(step: Step, id: nat) {
    step in {Arm(id), Register(id), Receive(id), Expire(id), CleanUp(id)}
  }

  /** The ends of its writes, of its frame and of its cancellation. A process that does
      not read its input keeps them from coming, and no deadline covers them. */
  predicate WriteEnds(step: Step, id: nat) {
    step in {WriteDone(id), WriteFails(id), CancelEnds(id)}
  }

  predicate Held(s: State, id: nat) { In(s, id, Writing) || In(s, id, Cancelling) }

  /** A call that has not returned has a step to take: its own, or the end of the
      write that holds it. */
  lemma CallStep(s: State, id: nat) returns (step: Step)
    requires Inv(s) && id in s.calls && !s.calls[id].phase.Done?
    ensures Enabled(s, step) && if Held(s, id) then WriteEnds(step, id) else Own(step, id)
    ensures id in Next(s, step).calls && Rank(Next(s, step).calls[id].phase) < Rank(s.calls[id].phase)
  {
    match s.calls[id].phase
    case Allocated => step := Arm(id);
    case Armed => step := Register(id);
    case Writing => step := WriteDone(id);
    case Awaiting => step := if s.calls[id].mailbox.Some? then Receive(id) else Expire(id);
    case Expired => step := CleanUp(id);
    case Cancelling => step := CancelEnds(id);
  }

  /** No call is ever orphaned: its own steps alone bring it to a result or to a
      write it has to wait for. */
  lemma {:induction false} CallReturnsOrWrites(s: State, id: nat) returns (steps: seq<Step>)
    requires Inv(s) && id in s.calls
    ensures Run(s, steps) && forall k | 0 <= k < |steps| :: Own(steps[k], id)
    ensures id in After(s, steps).calls
    ensures After(s, steps).calls[id].phase.Done? || Held(After(s, steps), id)
    decreases Rank(s.calls[id].phase)
  {
    if s.calls[id].phase.Done? || Held(s, id) { return []; }
    var step := CallStep(s, id);
    StepKeepsInv(s, step);
    var rest := CallReturnsOrWrites(Next(s, step), id);
    steps := [step] + rest;
    assert steps[1..] == rest;
  }

  lemma RankFalls(s: State, step: Step, id: nat)
    requires IdsOk(s) && PendingOk(s) && Enabled(s, step) && id in s.calls
    ensures id in Next(s, step).calls
    ensures Rank(Next(s, step).calls[id].phase) <= Rank(s.calls[id].phase)
    ensures Held(s, id) ==> (Next(s, step).calls[id].phase == s.calls[id].phase <==> !WriteEnds(step, id))
    ensures Held(s, id) && WriteEnds(step, id) ==> Rank(Next(s, step).calls[id].phase) < Rank(s.calls[id].phase)
  {
    NextIdIsNew(s);
  }

  lemma {:induction false} RankFallsOverRuns(s: State, steps: seq<Step>, id: nat)
    requires Inv(s) && Run(s, steps) && id in s.calls
    ensures id in After(s, steps).calls && Rank(After(s, steps).calls[id].phase) <= Rank(s.calls[id].phase)
    decreases |steps|
  {
    if steps != [] {
      RankFalls(s, steps[0], id);
      StepKeepsInv(s, steps[0]);
      RankFallsOverRuns(Next(s, steps[0]), steps[1..], id);
    }
  }

  /** A call held in a write is still there after a run, whatever replies, drains,
      kills and deadlines come, exactly when that write has not ended. */
  lemma {:induction false} HeldUntilWriteEndsIff(s: State, steps: seq<Step>, id: nat)
    requires Inv(s) && Run(s, steps) && Held(s, id)
    ensures id in After(s, steps).calls
    ensures After(s, steps).calls[id].phase == s.calls[id].phase
       <==> forall k | 0 <= k < |steps| :: !WriteEnds(steps[k], id)
    decreases |steps|
  {
    if steps != [] {
      var t, rest := Next(s, steps[0]), steps[1..];
      RankFalls(s, steps[0], id);
      StepKeepsInv(s, steps[0]);
      if WriteEnds(steps[0], id) {
        RankFallsOverRuns(t, rest, id);
      } else {
        HeldUntilWriteEndsIff(t, rest, id);
        assert forall k | 0 < k < |steps| :: steps[k] == rest[k - 1];
      }
    }
  }

  /** With the ends of its writes a call always comes to a result. */
  lemma {:induction false} CallCanReturn(s: State, id: nat) returns (steps: seq<Step>)
    requires Inv(s) && id in s.calls
    ensures Run(s, steps) && forall k | 0 <= k < |steps| :: Own(steps[k], id) || WriteEnds(steps[k], id)
    ensures id in After(s, steps).calls && After(s, steps).calls[id].phase.Done?
    decreases Rank(s.calls[id].phase)
  {
    if s.calls[id].phase.Done? { return []; }
    var step := CallStep(s, id);
    StepKeepsInv(s, step);
    var rest := CallCanReturn(Next(s, step), id);
    steps := [step] + rest;
    assert steps[1..] == rest;
  }

  lemma KillFillsMailbox(s: State, id: nat)
    requires Inv(s) && In(s, id, Writing) && id in s.pending
    ensures Run(s, [Kill, Drain(s.process)])
    ensures After(s, [Kill, Drain(s.process)]).calls == Mailed(s.calls, s.pending, Drained(s.process))
  {
    RunExtends(s, [], Kill);
    assert [] + [Kill] == [Kill];
    RunExtends(s, [Kill], Drain(s.process));
    assert [Kill] + [Drain(s.process)] == [Kill, Drain(s.process)];
  }

  /** A kill and its drain fill the mailbox of a call that is writing, and break its
      pipe: once its write has ended the call returns, without waiting for a reply or
      a deadline. */
  lemma KillFreesWriter(s: State, id: nat, fails: bool) returns (steps: seq<Step>)
    requires Inv(s) && In(s, id, Writing) && id in s.pending
    ensures steps == [Kill, Drain(s.process)] + if fails then [WriteFails(id)] else [WriteDone(id), Receive(id)]
    ensures Run(s, steps) && id in After(s, steps).calls
    ensures After(s, steps).calls[id].phase == Done(if fails then WriteFailed else Drained(s.process))
  {
    KillFillsMailbox(s, id);
    steps := [Kill, Drain(s.process)];
    if fails {
      RunExtends(s, steps, WriteFails(id));
      steps := steps + [WriteFails(id)];
    } else {
      RunExtends(s, steps, WriteDone(id));
      RunExtends(s, steps + [WriteDone(id)], Receive(id));
      assert steps + [WriteDone(id)] + [Receive(id)] == steps + [WriteDone(id), Receive(id)];
      steps := steps + [WriteDone(id), Receive(id)];
    }
  }

  /** A reader that ends takes no other generation's process out of the slot. */
  lemma OldReaderKeepsNewProcess(s: State, generation: nat)
    requires Inv(s) && generation in s.readers && s.process.Some? && generation < s.nextGeneration
    ensures Next(s, ReaderEnds(generation)).process == s.process
    ensures s.process.value in s.readers ==> s.process.value in Next(s, ReaderEnds(generation)).readers
  {
  }

  /** A drain does not ask which process a call was made to: it fails every
      pending call, and no other. */
  lemma DrainTakesExactlyThePending(s: State, ended: Option<nat>, id: nat)
    requires Inv(s) && ended in s.drains && id in s.calls
    ensures var t := Next(s, Drain(ended));
            && id in t.calls && t.pending == {} && t.process == s.process && t.readers == s.readers
            && (t.calls[id] != s.calls[id] <==> id in s.pending)
            && (id in s.pending ==> t.calls[id].mailbox == Some(Drained(ended)))
  {
  }

  /** So it spares the calls made to other processes exactly when every pending
      call was made to the one that ended. */
  lemma DrainSparesOthersIff(s: State, ended: Option<nat>)
    requires Inv(s) && ended in s.drains
    ensures (forall id | id in s.calls && Some(s.calls[id].generation) != ended ::
               Next(s, Drain(ended)).calls[id] == s.calls[id])
       <==> forall id | id in s.pending :: Some(s.calls[id].generation) == ended
  {
    forall id | id in s.calls
      ensures Next(s, Drain(ended)).calls[id] != s.calls[id] <==> id in s.pending
    {
      DrainTakesExactlyThePending(s, ended, id);
    }
  }

  lemma Restarted() returns (steps: seq<Step>)
    ensures Run(FRESH, steps)
    ensures var s := After(FRESH, steps);
            && s.process == Some(2) && 2 in s.readers && s.drains == multiset{Some(1)}
            && s.nextId == 0 && s.calls == map[] && s.pending == {}
  {
    RunExtends(FRESH, [], SpawnReader);
    steps := [] + [SpawnReader];
    RunExtends(FRESH, steps, FillSlot);
    steps := steps + [FillSlot];
    RunExtends(FRESH, steps, ReaderEnds(1));
    steps := steps + [ReaderEnds(1)];
    RunExtends(FRESH, steps, SpawnReader);
    steps := steps + [SpawnReader];
    RunExtends(FRESH, steps, FillSlot);
    steps := steps + [FillSlot];
  }

  /** So there is a run in which a call to the second process, which is alive
      and still in the slot, returns because the first process ended. */
  lemma OldDrainReachesNewCall() returns (steps: seq<Step>)
    ensures Run(FRESH, steps)
    ensures var s := After(FRESH, steps);
            && s.process == Some(2) && 2 in s.readers
            && 1 in s.calls && s.calls[1] == Call(2, Done(Drained(Some(1))), Some(Drained(Some(1))))
  {
    steps := Restarted();
    RunExtends(FRESH, steps, Allocate);
    steps := steps + [Allocate];
    RunExtends(FRESH, steps, Arm(1));
    steps := steps + [Arm(1)];
    RunExtends(FRESH, steps, Register(1));
    steps := steps + [Register(1)];
    RunExtends(FRESH, steps, WriteDone(1));
    steps := steps + [WriteDone(1)];
    RunExtends(FRESH, steps, Drain(Some(1)));
    steps := steps + [Drain(Some(1))];
    RunExtends(FRESH, steps, Receive(1));
    steps := steps + [Receive(1)];
  }

  lemma MailedOneMore(calls: map<nat, Call>, ids: set<nat>, id: nat, outcome: Outcome)
    requires id in calls
    ensures Mailed(calls, ids + {id}, outcome)
         == Mailed(calls, ids, outcome)[id := calls[id].(mailbox := Some(outcome))]
  {
  }

  /** The shared transport. Each method takes one step, so StepKeepsInv holds of it. */
  class Transport {
    var nextId: nat
    var nextGeneration: nat
    var process: Option<nat>
    var starting: Option<nat>
    var readers: set<nat>
    var drains: multiset<Option<nat>>
    var pending: set<nat>
    var calls: map<nat, Call>
    var cancels: set<nat>
    ghost var trace: seq<Step>

    ghost function Now(): State
      reads this
    {
      State(nextId, nextGeneration, process, starting, readers, drains, pending, calls, cancels, trace)
    }

    constructor ()
      ensures Now() == FRESH && Inv(Now())
    {
      nextId, nextGeneration, process, starting := 0, 0, None, None;
      readers, drains, pending, calls, cancels, trace := {}, multiset{}, {}, map[], {}, [];
    }

    /** Under the start lock: a process seen to have exited leaves the slot. */
    method TakeExited()
      requires Enabled(Now(), DropExited)
      modifies this
      ensures Now() == Next(old(Now()), DropExited)
    {
      process := None;
      trace := trace + [DropExited];
    }

    method Spawn() returns (generation: nat)
      requires Enabled(Now(), SpawnReader)
      modifies this
      ensures Now() == Next(old(Now()), SpawnReader) && generation == nextGeneration
    {
      nextGeneration := nextGeneration + 1;
      generation := nextGeneration;
      readers, starting := readers + {generation}, Some(generation);
      trace := trace + [SpawnReader];
    }

    method Fill()
      requires Enabled(Now(), FillSlot)
      modifies this
      ensures Now() == Next(old(Now()), FillSlot)
    {
      process, starting := starting, None;
      trace := trace + [FillSlot];
    }

    method AllocateId() returns (id: nat)
      modifies this
      ensures Now() == Next(old(Now()), Allocate) && id == nextId
    {
      nextId := nextId + 1;
      id := nextId;
      calls := calls[id := Call(0, Allocated, None)];
      trace := trace + [Allocate];
    }

    /** The frame's size check, then a clone of the writer in the slot. */
    method TakeWriter(id: nat, tooLarge: bool)
      requires In(Now(), id, Allocated)
      modifies this
      ensures Now() == Next(old(Now()), if tooLarge then Refuse(id) else Arm(id))
    {
      if tooLarge {
        calls := calls[id := calls[id].(phase := Done(FrameTooLarge))];
        trace := trace + [Refuse(id)];
        return;
      }
      trace := trace + [Arm(id)];
      match process
      case None => calls := calls[id := calls[id].(phase := Done(NotRunning))];
      case Some(generation) => calls := calls[id := Call(generation, Armed, None)];
    }

    method AddWaiter(id: nat)
      requires In(Now(), id, Armed)
      modifies this
      ensures Now() == Next(old(Now()), Register(id))
    {
      pending := pending + {id};
      calls := calls[id := calls[id].(phase := Writing)];
      trace := trace + [Register(id)];
    }

    method WriteFrame(id: nat, failed: bool)
      requires In(Now(), id, Writing)
      modifies this
      ensures Now() == Next(old(Now()), if failed then WriteFails(id) else WriteDone(id))
    {
      if failed {
        pending := pending - {id};
        calls := calls[id := calls[id].(phase := Done(WriteFailed))];
        trace := trace + [WriteFails(id)];
      } else {
        calls := calls[id := calls[id].(phase := Awaiting)];
        trace := trace + [WriteDone(id)];
      }
    }

    /** The mailbox is looked at before the deadline is. */
    method Poll(id: nat, deadlinePassed: bool) returns (outcome: Option<Outcome>)
      requires In(Now(), id, Awaiting)
      modifies this
      ensures outcome == old(calls[id].mailbox)
      ensures Now() == if outcome.Some? then Next(old(Now()), Receive(id))
                       else if deadlinePassed then Next(old(Now()), Expire(id)) else old(Now())
    {
      outcome := calls[id].mailbox;
      if outcome.Some? {
        calls := calls[id := calls[id].(phase := Done(outcome.value))];
        trace := trace + [Receive(id)];
      } else if deadlinePassed {
        calls := calls[id := calls[id].(phase := Expired)];
        trace := trace + [Expire(id)];
      }
    }

    /** After a timeout: leave the pending table and begin to send a cancellation,
        which takes an id of its own and has no waiter. */
    method Abandon(id: nat) returns (cancelId: nat)
      requires In(Now(), id, Expired)
      modifies this
      ensures Now() == Next(old(Now()), CleanUp(id)) && cancelId == nextId
    {
      pending := pending - {id};
      nextId := nextId + 1;
      cancelId := nextId;
      cancels := cancels + {cancelId};
      calls := calls[id := calls[id].(phase := if process.Some? then Cancelling else Done(TimedOut))];
      trace := trace + [CleanUp(id)];
    }

    /** Whether the cancellation was written or not makes no difference. */
    method EndCancellation(id: nat)
      requires In(Now(), id, Cancelling)
      modifies this
      ensures Now() == Next(old(Now()), CancelEnds(id))
    {
      calls := calls[id := calls[id].(phase := Done(TimedOut))];
      trace := trace + [CancelEnds(id)];
    }

    /** One line of the read loop; a line that is not JSON or has no id is skipped. */
    method ReadLine(generation: nat, replyId: Option<nat>, ok: bool)
      requires generation in readers && pending <= calls.Keys
      modifies this
      ensures Now() == if replyId.None? then old(Now())
                       else Next(old(Now()), Deliver(generation, replyId.value, ok))
    {
      if replyId.None? { return; }
      var id := replyId.value;
      trace := trace + [Deliver(generation, id, ok)];
      if id in pending {
        pending := pending - {id};
        MailedOneMore(calls, {}, id, Replied(generation, id, ok));
        assert Mailed(calls, {}, Replied(generation, id, ok)) == calls;
        assert {id} == {} + {id};
        calls := calls[id := calls[id].(mailbox := Some(Replied(generation, id, ok)))];
      }
    }

    method EndReader(generation: nat)
      requires Enabled(Now(), ReaderEnds(generation))
      modifies this
      ensures Now() == Next(old(Now()), ReaderEnds(generation))
    {
      readers, drains := readers - {generation}, drains + multiset{Some(generation)};
      if process == Some(generation) { process := None; }
      trace := trace + [ReaderEnds(generation)];
    }

    method KillCurrent()
      modifies this
      ensures Now() == Next(old(Now()), Kill)
    {
      process, drains := None, drains + multiset{process};
      trace := trace + [Kill];
    }

    /** Every waiter in the table gets `outcome`, one after another. */
    method FailAll(outcome: Outcome)
      requires pending <= calls.Keys
      modifies this`pending, this`calls
      ensures pending == {} && calls == Mailed(old(calls), old(pending), outcome)
    {
      ghost var sent: set<nat> := {};
      assert calls == Mailed(old(calls), sent, outcome);
      while pending != {}
        invariant pending <= calls.Keys == old(calls).Keys
        invariant pending !! sent && pending + sent == old(pending)
        invariant calls == Mailed(old(calls), sent, outcome)
        decreases pending
      {
        var id :| id in pending;
        MailedOneMore(old(calls), sent, id, outcome);
        pending, sent := pending - {id}, sent + {id};
        calls := calls[id := calls[id].(mailbox := Some(outcome))];
      }
    }

    method DrainPending(ended: Option<nat>)
      requires Enabled(Now(), Drain(ended)) && pending <= calls.Keys
      modifies this
      ensures Now() == Next(old(Now()), Drain(ended))
    {
      FailAll(Drained(ended));
      drains := drains - multiset{ended};
      trace := trace + [Drain(ended)];
    }
  }
}
