/** Turns of one session: the sending request, the watcher of the provider
    process, and cancellation, each writing durable status on its own. */
module Turns {
  import opened Common

  datatype TurnState =
    | Queued | Sending | Running | ToolExecution | WaitingForApproval | Completing
    | Completed | Failed | Cancelled

  predicate IsTerminal(s: TurnState) { s in {Completed, Failed, Cancelled} }

  function AsText(s: TurnState): string {
    match s
    case Queued => "queued"
    case Sending => "sending"
    case Running => "running"
    case ToolExecution => "tool_execution"
    case WaitingForApproval => "waiting_for_approval"
    case Completing => "completing"
    case Completed => "completed"
    case Failed => "failed"
    case Cancelled => "cancelled"
  }

  function Parse(text: string): Option<TurnState> {
    match text
    case "queued" => Some(Queued)
    case "sending" => Some(Sending)
    case "running" => Some(Running)
    case "tool_execution" => Some(ToolExecution)
    case "waiting_for_approval" => Some(WaitingForApproval)
    case "completing" => Some(Completing)
    case "completed" => Some(Completed)
    case "failed" => Some(Failed)
    case "cancelled" => Some(Cancelled)
    case _ => None
  }

  lemma ParseInvertsAsText(text: string, s: TurnState)
    ensures Parse(text) == Some(s) <==> text == AsText(s)
  {
  }

  predicate Allowed(from: TurnState, next: TurnState) {
    match from
    case Queued => next in {Sending, Cancelled}
    case Sending => next in {Running, Failed, Cancelled}
    case Running => next in {ToolExecution, Completing, Failed, Cancelled}
    case ToolExecution => next in {Running, WaitingForApproval, Failed, Cancelled}
    case WaitingForApproval => next in {ToolExecution, Running, Cancelled, Failed}
    case Completing => next in {Completed, Failed, Cancelled}
    case _ => false
  }

  /** Where the turn's own tasks are. `machine` is the state their machine is in,
      which restarts at Running in the watcher. */
  /** The table read by destination: from where each state can be entered. */
  lemma EnteredFrom(from: TurnState)
    ensures !Allowed(from, Queued)
    ensures Allowed(from, Sending) <==> from == Queued
    ensures Allowed(from, Running) <==> from == Sending || from == ToolExecution || from == WaitingForApproval
    ensures Allowed(from, ToolExecution) <==> from == Running || from == WaitingForApproval
    ensures Allowed(from, WaitingForApproval) <==> from == ToolExecution
    ensures Allowed(from, Completing) <==> from == Running
    ensures Allowed(from, Completed) <==> from == Completing
    ensures Allowed(from, Failed) <==> (from != Queued && !IsTerminal(from))
    ensures Allowed(from, Cancelled) <==> from != Completed && from != Failed && from != Cancelled
  {
  }

  datatype Phase = Sent | Launched | Watched | Exiting | Finished | Cleared

  /** `path` is every durable status the turn has had; the last is the present one. */
  datatype Turn = Turn(path: seq<TurnState>, machine: TurnState, phase: Phase)

  /** A request to cancel: it finds the turn's handle, waits for it, takes the
      handle out of the registry, reads the durable status, and writes. */
  datatype CancelPhase = PickedUp | Released | HasRead(status: TurnState) | Answered

  datatype Cancellation = Cancellation(turn: nat, phase: CancelPhase)

  /** `active` is the registry's handle. */
  datatype State = State(turns: map<nat, Turn>, active: Option<nat>, cancels: map<nat, Cancellation>)

  const FRESH: State := State(map[], None, map[])

  datatype Step =
    | Send(id: nat)
    | SpawnFails(id: nat)
    | Spawned(id: nat)
    | Register(id: nat)
    | Exit(id: nat, success: bool)
    | Finish(id: nat)
    | Clear(id: nat)
    | PickUp(request: nat, id: nat)
    | Release(request: nat)
    | ReadForCancel(request: nat)
    | WriteCancelled(request: nat, id: nat)
    | Detach

  function Last(path: seq<TurnState>): TurnState
    requires path != []
  {
    path[|path| - 1]
  }

  /** The turn's own machine moves and its durable status follows. */
  function Moved(turn: Turn, next: TurnState, phase: Phase): Turn {
    Turn(turn.path + [next], next, phase)
  }

  predicate InPhase(s: State, id: nat, phase: Phase) {
    id in s.turns && s.turns[id].phase == phase
  }

  predicate Waits(s: State, request: nat, phase: CancelPhase) {
    request in s.cancels && s.cancels[request].phase == phase
  }

  /** The durable status as a cancellation reads it. */
  function StatusOf(s: State, id: nat): TurnState {
    if id in s.turns && s.turns[id].path != [] then Last(s.turns[id].path) else Running
  }

  /** The request has read a status that is not terminal, and is about to write. */
  predicate Reading(s: State, request: nat, id: nat) {
    && request in s.cancels && s.cancels[request].turn == id
    && s.cancels[request].phase.HasRead? && !IsTerminal(s.cancels[request].phase.status)
  }

  predicate Enabled(s: State, step: Step) {
    match step
    case Send(id) => id !in s.turns && s.active.None?
    case SpawnFails(id) => InPhase(s, id, Sent)
    case Spawned(id) => InPhase(s, id, Sent)
    case Register(id) => InPhase(s, id, Launched)
    case Exit(id, _) => InPhase(s, id, Watched)
    case Finish(id) => InPhase(s, id, Exiting)
    case Clear(id) => InPhase(s, id, Finished)
    case PickUp(request, id) => request !in s.cancels && s.active == Some(id)
    case Release(request) => Waits(s, request, PickedUp)
    case ReadForCancel(request) => Waits(s, request, Released)
    case WriteCancelled(request, id) =>
      && Reading(s, request, id) && id in s.turns
    case Detach => true
  }

  function SetTurn(s: State, id: nat, turn: Turn): State {
    s.(turns := s.turns[id := turn])
  }

  function SetCancel(s: State, request: nat, phase: CancelPhase): State
    requires request in s.cancels
  {
    s.(cancels := s.cancels[request := s.cancels[request].(phase := phase)])
  }

  function Next(s: State, step: Step): State
    requires Enabled(s, step)
  {
    match step
    case Send(id) => SetTurn(s, id, Turn([Queued, Sending], Sending, Sent))
    case SpawnFails(id) => SetTurn(s, id, Moved(s.turns[id], Failed, Cleared))
    case Spawned(id) => SetTurn(s, id, Moved(s.turns[id], Running, Launched))
    case Register(id) => SetTurn(s, id, s.turns[id].(phase := Watched)).(active := Some(id))
    case Exit(id, success) =>
      SetTurn(s, id, if success then Moved(s.turns[id], Completing, Exiting)
                     else Moved(s.turns[id], Failed, Finished))
    case Finish(id) => SetTurn(s, id, Moved(s.turns[id], Completed, Finished))
    case Clear(id) => SetTurn(s, id, s.turns[id].(phase := Cleared)).(active := None)
    case PickUp(request, id) => s.(cancels := s.cancels[request := Cancellation(id, PickedUp)])
    case Release(request) => SetCancel(s, request, Released).(active := None)
    case ReadForCancel(request) =>
      var status := StatusOf(s, s.cancels[request].turn);
      SetCancel(s, request, if IsTerminal(status) then Answered else HasRead(status))
    case WriteCancelled(request, id) =>
      SetCancel(SetTurn(s, id, s.turns[id].(path := s.turns[id].path + [Cancelled])), request, Answered)
    case Detach => s.(active := None)
  }

  // What durable status does.

  ghost predicate IsPath(path: seq<TurnState>) {
    forall i | 0 <= i < |path| - 1 :: Allowed(path[i], path[i + 1])
  }

  /** Legal but for what follows a terminal status. */
  ghost predicate LegalUntilEnded(path: seq<TurnState>) {
    forall i | 0 <= i < |path| - 1 :: Allowed(path[i], path[i + 1]) || IsTerminal(path[i])
  }

  predicate MachineFits(turn: Turn) {
    match turn.phase
    case Sent => turn.machine == Sending
    case Launched => turn.machine == Running
    case Watched => turn.machine == Running
    case Exiting => turn.machine == Completing
    case _ => turn.machine in {Completed, Failed}
  }

  ghost predicate TurnOk(turn: Turn) {
    && turn.path != [] && LegalUntilEnded(turn.path) && MachineFits(turn)
    && (Last(turn.path) == turn.machine || Last(turn.path) == Cancelled)
  }

  ghost predicate Inv(s: State) {
    forall id | id in s.turns :: TurnOk(s.turns[id])
  }

  lemma PathGrows(path: seq<TurnState>, next: TurnState)
    requires path != [] && LegalUntilEnded(path) && (Allowed(Last(path), next) || IsTerminal(Last(path)))
    ensures LegalUntilEnded(path + [next])
  {
    forall i | 0 <= i < |path + [next]| - 1
      ensures Allowed((path + [next])[i], (path + [next])[i + 1]) || IsTerminal((path + [next])[i])
    {
      assert i + 1 < |path| ==> Allowed(path[i], path[i + 1]) || IsTerminal(path[i]);
    }
  }

  lemma MoveKeepsTurn(turn: Turn, next: TurnState, phase: Phase)
    requires TurnOk(turn) && Allowed(turn.machine, next) && MachineFits(Moved(turn, next, phase))
    ensures TurnOk(Moved(turn, next, phase))
  {
    PathGrows(turn.path, next);
  }

  lemma CancelKeepsTurn(turn: Turn)
    requires TurnOk(turn)
    ensures TurnOk(turn.(path := turn.path + [Cancelled]))
  {
    PathGrows(turn.path, Cancelled);
  }

  lemma StepKeepsInv(s: State, step: Step)
    requires Inv(s) && Enabled(s, step)
    ensures Inv(Next(s, step))
  {
    match step
    case SpawnFails(id) => MoveKeepsTurn(s.turns[id], Failed, Cleared);
    case Spawned(id) => MoveKeepsTurn(s.turns[id], Running, Launched);
    case Exit(id, success) =>
      if success { MoveKeepsTurn(s.turns[id], Completing, Exiting); }
      else { MoveKeepsTurn(s.turns[id], Failed, Finished); }
    case Finish(id) => MoveKeepsTurn(s.turns[id], Completed, Finished);
    case WriteCancelled(_, id) => CancelKeepsTurn(s.turns[id]);
    case _ =>
  }

  ghost predicate Run(s: State, steps: seq<Step>)
    decreases |steps|
  {
    steps == [] || (Enabled(s, steps[0]) && Run(Next(s, steps[0]), steps[1..]))
  }

  ghost function After(s: State, steps: seq<Step>): State
    requires Run(s, steps)
    decreases |steps|
  {
    if steps == [] then s else After(Next(s, steps[0]), steps[1..])
  }

  lemma {:induction false} RunKeepsInv(s: State, steps: seq<Step>)
    requires Inv(s) && Run(s, steps)
    ensures Inv(After(s, steps))
    decreases |steps|
  {
    if steps != [] {
      StepKeepsInv(s, steps[0]);
      RunKeepsInv(Next(s, steps[0]), steps[1..]);
    }
  }

  lemma {:induction false} RunSplits(s: State, steps: seq<Step>, k: nat)
    requires Run(s, steps) && k <= |steps|
    ensures Run(s, steps[..k]) && Run(After(s, steps[..k]), steps[k..])
    ensures After(After(s, steps[..k]), steps[k..]) == After(s, steps)
    decreases |steps|
  {
    if k > 0 {
      RunSplits(Next(s, steps[0]), steps[1..], k - 1);
      assert steps[..k][1..] == steps[1..][..k - 1] && steps[1..][k - 1..] == steps[k..];
    } else {
      assert steps[0..] == steps;
    }
  }

  /** The step writes the durable status of turn `id`, after its sending. */
  predicate Writes(step: Step, id: nat) {
    match step
    case SpawnFails(i) => i == id
    case Spawned(i) => i == id
    case Exit(i, _) => i == id
    case Finish(i) => i == id
    case WriteCancelled(_, i) => i == id
    case _ => false
  }

  predicate Cancels(step: Step, id: nat) {
    step.WriteCancelled? && step.id == id
  }

  /** What it writes is terminal. */
  predicate Ends(step: Step, id: nat) {
    Writes(step, id) && !step.Spawned? && !(step.Exit? && step.success)
  }

  ghost predicate NoWrites(steps: seq<Step>, id: nat) {
    forall j | 0 <= j < |steps| :: !Writes(steps[j], id)
  }

  /** Something is written after a terminal status has been. */
  ghost predicate WriteAfterEnd(steps: seq<Step>, id: nat) {
    exists i, j :: 0 <= i < j < |steps| && Ends(steps[i], id) && Writes(steps[j], id)
  }

  lemma PathOfStep(s: State, step: Step, id: nat)
    requires Inv(s) && Enabled(s, step) && id in s.turns
    ensures var t := Next(s, step);
            && id in t.turns && t.turns[id].path != []
            && (!Writes(step, id) ==> t.turns[id].path == s.turns[id].path)
            && (Writes(step, id) ==>
                  (&& |t.turns[id].path| == |s.turns[id].path| + 1
                   && (IsPath(t.turns[id].path) <==> IsPath(s.turns[id].path) && !IsTerminal(Last(s.turns[id].path)))
                   && (IsTerminal(Last(t.turns[id].path)) <==> Ends(step, id))
                   && (Last(t.turns[id].path) == Cancelled <==> Cancels(step, id))))
  {
    assert TurnOk(s.turns[id]);
    if Writes(step, id) {
      var before, after := s.turns[id].path, Next(s, step).turns[id].path;
      assert after == before + [Last(after)];
      assert Allowed(Last(before), Last(after)) <==> !IsTerminal(Last(before));
      LastLink(before, Last(after));
    }
  }

  lemma LastLink(path: seq<TurnState>, next: TurnState)
    requires path != []
    ensures IsPath(path + [next]) <==> IsPath(path) && Allowed(Last(path), next)
  {
    var longer := path + [next];
    if IsPath(longer) {
      assert Allowed(longer[|path| - 1], longer[|path| - 1 + 1]);
      forall i | 0 <= i < |path| - 1 ensures Allowed(path[i], path[i + 1]) {
        assert Allowed(longer[i], longer[i + 1]);
      }
    }
  }

  lemma HeadAndRest(steps: seq<Step>, id: nat)
    requires steps != []
    ensures NoWrites(steps, id) <==> !Writes(steps[0], id) && NoWrites(steps[1..], id)
    ensures WriteAfterEnd(steps, id)
       <==> (Ends(steps[0], id) && !NoWrites(steps[1..], id)) || WriteAfterEnd(steps[1..], id)
  {
    var rest := steps[1..];
    assert forall j | 0 < j < |steps| :: steps[j] == rest[j - 1];
    if !NoWrites(rest, id) {
      var j :| 0 <= j < |rest| && Writes(rest[j], id);
      assert Writes(steps[j + 1], id);
    }
    if i, j :| 0 <= i < j < |rest| && Ends(rest[i], id) && Writes(rest[j], id) {
      assert Ends(steps[i + 1], id) && Writes(steps[j + 1], id);
    }
  }

  lemma {:induction false} LegalFrom(s: State, steps: seq<Step>, id: nat)
    requires Inv(s) && Run(s, steps) && id in s.turns && s.turns[id].path != []
    ensures id in After(s, steps).turns
    ensures IsPath(After(s, steps).turns[id].path)
       <==> && IsPath(s.turns[id].path)
            && (IsTerminal(Last(s.turns[id].path)) ==> NoWrites(steps, id))
            && !WriteAfterEnd(steps, id)
    decreases |steps|
  {
    if steps != [] {
      PathOfStep(s, steps[0], id);
      StepKeepsInv(s, steps[0]);
      LegalFrom(Next(s, steps[0]), steps[1..], id);
      HeadAndRest(steps, id);
    }
  }

  lemma {:induction false} LegalFromUnsent(s: State, steps: seq<Step>, id: nat)
    requires Inv(s) && Run(s, steps) && id !in s.turns && id in After(s, steps).turns
    ensures IsPath(After(s, steps).turns[id].path) <==> !WriteAfterEnd(steps, id)
    decreases |steps|
  {
    var t := Next(s, steps[0]);
    StepKeepsInv(s, steps[0]);
    HeadAndRest(steps, id);
    if steps[0] == Send(id) {
      LegalFrom(t, steps[1..], id);
    } else {
      LegalFromUnsent(t, steps[1..], id);
    }
  }

  /** In every run a turn's durable statuses follow the table exactly when no
      step writes one after another has written a terminal one. */
  lemma DurablePathLegalIff(steps: seq<Step>, id: nat)
    requires Run(FRESH, steps) && id in After(FRESH, steps).turns
    ensures IsPath(After(FRESH, steps).turns[id].path) <==> !WriteAfterEnd(steps, id)
  {
    LegalFromUnsent(FRESH, steps, id);
  }

  // The durable statuses themselves.

  /** What a step writes for turn `id` once it has been sent. */
  ghost function WrittenBy(step: Step, id: nat): seq<TurnState> {
    if step == Spawned(id) then [Running]
    else if step == SpawnFails(id) || step == Exit(id, false) then [Failed]
    else if step == Exit(id, true) then [Completing]
    else if step == Finish(id) then [Completed]
    else if step.WriteCancelled? && step.id == id then [Cancelled]
    else []
  }

  ghost function WrittenByAll(steps: seq<Step>, id: nat): seq<TurnState> {
    if steps == [] then [] else WrittenBy(steps[0], id) + WrittenByAll(steps[1..], id)
  }

  lemma {:induction false} PathFrom(s: State, steps: seq<Step>, id: nat)
    requires Run(s, steps) && id in s.turns
    ensures id in After(s, steps).turns
    ensures After(s, steps).turns[id].path == s.turns[id].path + WrittenByAll(steps, id)
    decreases |steps|
  {
    if steps != [] { PathFrom(Next(s, steps[0]), steps[1..], id); }
  }

  lemma {:induction false} PathFromUnsent(s: State, steps: seq<Step>, id: nat)
    requires Run(s, steps) && id !in s.turns && id in After(s, steps).turns
    ensures After(s, steps).turns[id].path == [Queued, Sending] + WrittenByAll(steps, id)
    decreases |steps|
  {
    if steps[0] == Send(id) {
      PathFrom(Next(s, steps[0]), steps[1..], id);
    } else {
      PathFromUnsent(Next(s, steps[0]), steps[1..], id);
    }
  }

  /** A path without its cancellations: what the turn's own machine made of it. */
  ghost function Own(path: seq<TurnState>): seq<TurnState> {
    if path == [] then []
    else Own(path[..|path| - 1]) + (if path[|path| - 1] == Cancelled then [] else [path[|path| - 1]])
  }

  lemma OwnGrows(path: seq<TurnState>, next: TurnState)
    ensures Own(path + [next]) == Own(path) + (if next == Cancelled then [] else [next])
  {
    assert (path + [next])[..|path|] == path;
  }

  /** How far a turn has come in its own life, by its phase. */
  ghost predicate OnItsWay(turn: Turn) {
    var own := Own(turn.path);
    match turn.phase
    case Sent => own == [Queued, Sending]
    case Launched => own == [Queued, Sending, Running]
    case Watched => own == [Queued, Sending, Running]
    case Exiting => own == [Queued, Sending, Running, Completing]
    case _ => own in {[Queued, Sending, Failed], [Queued, Sending, Running, Failed],
                      [Queued, Sending, Running, Completing, Completed]}
  }

  lemma StepStaysOnWay(s: State, step: Step, id: nat)
    requires Enabled(s, step) && id in Next(s, step).turns
    requires id in s.turns ==> OnItsWay(s.turns[id])
    ensures OnItsWay(Next(s, step).turns[id])
  {
    if id in s.turns {
      var path := s.turns[id].path;
      OwnGrows(path, Running);
      OwnGrows(path, Failed);
      OwnGrows(path, Completing);
      OwnGrows(path, Completed);
      OwnGrows(path, Cancelled);
      assert Own(path) + [] == Own(path);
      assert [Queued, Sending] + [Failed] == [Queued, Sending, Failed];
      assert [Queued, Sending, Running] + [Failed] == [Queued, Sending, Running, Failed];
      assert [Queued, Sending, Running, Completing] + [Completed] == [Queued, Sending, Running, Completing, Completed];
    } else {
      assert step == Send(id);
      OwnGrows([], Queued);
      OwnGrows([Queued], Sending);
      assert [Queued] + [Sending] == [Queued, Sending];
    }
  }

  lemma {:induction false} RunStaysOnWay(s: State, steps: seq<Step>, id: nat)
    requires Run(s, steps) && (id in s.turns ==> OnItsWay(s.turns[id]))
    ensures id in After(s, steps).turns ==> OnItsWay(After(s, steps).turns[id])
    decreases |steps|
  {
    if steps != [] {
      if id in Next(s, steps[0]).turns { StepStaysOnWay(s, steps[0], id); }
      RunStaysOnWay(Next(s, steps[0]), steps[1..], id);
    }
  }

  /** In every run a turn's durable statuses are queued, sending and then what the steps
      write, in their order; without the cancellations they go one of three ways: it
      fails to start, it fails after it ran, or it completes. */
  lemma PathFollowsSteps(steps: seq<Step>, id: nat)
    requires Run(FRESH, steps) && id in After(FRESH, steps).turns
    ensures After(FRESH, steps).turns[id].path == [Queued, Sending] + WrittenByAll(steps, id)
    ensures var own := Own(After(FRESH, steps).turns[id].path);
            || own <= [Queued, Sending, Failed] || own <= [Queued, Sending, Running, Failed]
            || own <= [Queued, Sending, Running, Completing, Completed]
  {
    PathFromUnsent(FRESH, steps, id);
    RunStaysOnWay(FRESH, steps, id);
  }

  // Where such a write comes from: a cancellation's read and write are apart.

  /** Between the read of a cancellation at `r` and its write at `w` the turn
      ends, or after that write something is written. */
  ghost predicate Untimely(steps: seq<Step>, id: nat, r: int, w: int) {
    && 0 <= r < w < |steps| && Cancels(steps[w], id) && steps[r] == ReadForCancel(steps[w].request)
    && ((exists k :: r < k < w && Ends(steps[k], id)) || (exists k :: w < k < |steps| && Writes(steps[k], id)))
  }

  lemma {:induction false} ReadHappened(s: State, steps: seq<Step>, request: nat, id: nat)
    requires Run(s, steps) && Reading(After(s, steps), request, id)
    ensures Reading(s, request, id) || ReadForCancel(request) in steps
    decreases |steps|
  {
    if steps != [] {
      ReadHappened(Next(s, steps[0]), steps[1..], request, id);
    }
  }

  /** The watcher has written its last and the status is terminal. */
  ghost predicate Settled(s: State, id: nat) {
    && id in s.turns && s.turns[id].path != [] && IsTerminal(Last(s.turns[id].path))
    && s.turns[id].phase in {Finished, Cleared}
  }

  lemma {:induction false} LateWriteHadRead(s: State, steps: seq<Step>, id: nat, j: nat)
    requires Inv(s) && Run(s, steps) && Settled(s, id) && j < |steps| && Writes(steps[j], id)
    ensures Cancels(steps[j], id) && Reading(s, steps[j].request, id)
    decreases |steps|
  {
    if j > 0 {
      StepKeepsInv(s, steps[0]);
      LateWriteHadRead(Next(s, steps[0]), steps[1..], id, j - 1);
    }
  }

  lemma ReadBefore(steps: seq<Step>, i: nat, request: nat, id: nat) returns (r: nat)
    requires Run(FRESH, steps) && i <= |steps| && Run(FRESH, steps[..i])
    requires Reading(After(FRESH, steps[..i]), request, id)
    ensures r < i && steps[r] == ReadForCancel(request)
  {
    ReadHappened(FRESH, steps[..i], request, id);
    r :| 0 <= r < i && steps[..i][r] == ReadForCancel(request);
  }

  lemma LateWriteIsUntimely(steps: seq<Step>, id: nat, i: nat, j: nat) returns (r: nat, w: nat)
    requires Run(FRESH, steps) && i < j < |steps| && Ends(steps[i], id) && Writes(steps[j], id)
    ensures Untimely(steps, id, r, w)
  {
    RunSplits(FRESH, steps, i);
    RunKeepsInv(FRESH, steps[..i]);
    var s := After(FRESH, steps[..i]);
    assert steps[i..][0] == steps[i];
    if Cancels(steps[i], id) {
      w := i;
      r := ReadBefore(steps, i, steps[i].request, id);
      assert w < j && Writes(steps[j], id);
    } else {
      PathOfStep(s, steps[i], id);
      StepKeepsInv(s, steps[i]);
      assert Settled(Next(s, steps[i]), id);
      assert steps[i..][1..][j - i - 1] == steps[j];
      LateWriteHadRead(Next(s, steps[i]), steps[i..][1..], id, j - i - 1);
      assert Reading(s, steps[j].request, id);
      w := j;
      r := ReadBefore(steps, i, steps[j].request, id);
      assert r < i < w && Ends(steps[i], id);
    }
  }

  /** So the statuses are legal exactly when no cancellation is untimely: when,
      between each one's read and its write, the turn does not end, and after
      its write nothing is written. */
  lemma LegalIffCancellationsTimely(steps: seq<Step>, id: nat)
    requires Run(FRESH, steps) && id in After(FRESH, steps).turns
    ensures IsPath(After(FRESH, steps).turns[id].path) <==> !exists r, w :: Untimely(steps, id, r, w)
  {
    DurablePathLegalIff(steps, id);
    if WriteAfterEnd(steps, id) {
      var i, j :| 0 <= i < j < |steps| && Ends(steps[i], id) && Writes(steps[j], id);
      var r, w := LateWriteIsUntimely(steps, id, i, j);
    }
    if r, w :| Untimely(steps, id, r, w) {
      if k :| r < k < w && Ends(steps[k], id) {
        assert Ends(steps[k], id) && Writes(steps[w], id);
      } else {
        var k :| w < k < |steps| && Writes(steps[k], id);
        assert Ends(steps[w], id) && Writes(steps[k], id);
      }
    }
  }

  /** A cancellation writes at `j`, and after it nothing but cancellations does. */
  ghost predicate LastCancelAt(steps: seq<Step>, id: nat, j: int) {
    && 0 <= j < |steps| && Cancels(steps[j], id)
    && forall i | j < i < |steps| :: Writes(steps[i], id) ==> Cancels(steps[i], id)
  }

  ghost predicate CancelsLast(steps: seq<Step>, id: nat) {
    exists j :: LastCancelAt(steps, id, j)
  }

  ghost predicate OnlyCancels(steps: seq<Step>, id: nat) {
    forall i | 0 <= i < |steps| :: Writes(steps[i], id) ==> Cancels(steps[i], id)
  }

  lemma HeadOnlyCancels(steps: seq<Step>, id: nat)
    requires steps != []
    ensures OnlyCancels(steps, id)
       <==> (Writes(steps[0], id) ==> Cancels(steps[0], id)) && OnlyCancels(steps[1..], id)
    ensures LastCancelAt(steps, id, 0) <==> Cancels(steps[0], id) && OnlyCancels(steps[1..], id)
  {
    assert forall i | 0 < i < |steps| :: steps[i] == steps[1..][i - 1];
  }

  lemma LastCancelInRest(steps: seq<Step>, id: nat, j: int)
    requires steps != [] && j >= 0
    ensures LastCancelAt(steps, id, j + 1) <==> LastCancelAt(steps[1..], id, j)
  {
    assert forall i | 0 < i < |steps| :: steps[i] == steps[1..][i - 1];
  }

  lemma HeadCancels(steps: seq<Step>, id: nat)
    requires steps != []
    ensures CancelsLast(steps, id)
       <==> CancelsLast(steps[1..], id) || (Cancels(steps[0], id) && OnlyCancels(steps[1..], id))
  {
    HeadOnlyCancels(steps, id);
    if j :| LastCancelAt(steps[1..], id, j) { LastCancelInRest(steps, id, j); }
    if j :| LastCancelAt(steps, id, j) {
      if j > 0 { LastCancelInRest(steps, id, j - 1); }
    }
  }

  lemma {:induction false} LastStatusFrom(s: State, steps: seq<Step>, id: nat)
    requires Inv(s) && Run(s, steps) && id in s.turns && s.turns[id].path != []
    ensures id in After(s, steps).turns && After(s, steps).turns[id].path != []
    ensures Last(After(s, steps).turns[id].path) == Cancelled
       <==> CancelsLast(steps, id) || (Last(s.turns[id].path) == Cancelled && OnlyCancels(steps, id))
    decreases |steps|
  {
    if steps != [] {
      PathOfStep(s, steps[0], id);
      StepKeepsInv(s, steps[0]);
      LastStatusFrom(Next(s, steps[0]), steps[1..], id);
      HeadCancels(steps, id);
      HeadOnlyCancels(steps, id);
    }
  }

  lemma {:induction false} LastStatusFromUnsent(s: State, steps: seq<Step>, id: nat)
    requires Inv(s) && Run(s, steps) && id !in s.turns && id in After(s, steps).turns
    ensures After(s, steps).turns[id].path != []
    ensures Last(After(s, steps).turns[id].path) == Cancelled <==> CancelsLast(steps, id)
    decreases |steps|
  {
    var t := Next(s, steps[0]);
    StepKeepsInv(s, steps[0]);
    HeadCancels(steps, id);
    if steps[0] == Send(id) {
      LastStatusFrom(t, steps[1..], id);
    } else {
      LastStatusFromUnsent(t, steps[1..], id);
    }
  }

  /** In every run a turn is cancelled in the end exactly when the last write is
      a cancellation's. Once the watcher is done it is otherwise completed or
      failed, whatever was cancelled before. */
  lemma CancelledInTheEndIff(steps: seq<Step>, id: nat)
    requires Run(FRESH, steps) && id in After(FRESH, steps).turns
    ensures var turn := After(FRESH, steps).turns[id];
            && turn.path != []
            && (Last(turn.path) == Cancelled <==> CancelsLast(steps, id))
            && (turn.phase in {Finished, Cleared} && !CancelsLast(steps, id) ==>
                  Last(turn.path) in {Completed, Failed})
  {
    RunKeepsInv(FRESH, steps);
    LastStatusFromUnsent(FRESH, steps, id);
    assert TurnOk(After(FRESH, steps).turns[id]);
  }

  lemma {:induction false} RunExtends(s: State, steps: seq<Step>, step: Step)
    requires Run(s, steps) && Enabled(After(s, steps), step)
    ensures Run(s, steps + [step]) && After(s, steps + [step]) == Next(After(s, steps), step)
    decreases |steps|
  {
    if steps != [] {
      RunExtends(Next(s, steps[0]), steps[1..], step);
      assert (steps + [step])[1..] == steps[1..] + [step];
    }
  }

  /** A running turn with a cancellation that has read its status. */
  lemma RunningAndRead() returns (steps: seq<Step>)
    ensures Run(FRESH, steps)
    ensures After(FRESH, steps)
         == State(map[1 := Turn([Queued, Sending, Running], Running, Watched)], None,
                  map[0 := Cancellation(1, HasRead(Running))])
  {
    RunExtends(FRESH, [], Send(1));
    steps := [] + [Send(1)];
    RunExtends(FRESH, steps, Spawned(1));
    steps := steps + [Spawned(1)];
    assert [Queued, Sending] + [Running] == [Queued, Sending, Running];
    RunExtends(FRESH, steps, Register(1));
    steps := steps + [Register(1)];
    RunExtends(FRESH, steps, PickUp(0, 1));
    steps := steps + [PickUp(0, 1)];
    RunExtends(FRESH, steps, Release(0));
    steps := steps + [Release(0)];
    RunExtends(FRESH, steps, ReadForCancel(0));
    steps := steps + [ReadForCancel(0)];
  }

  /** A turn that has completed can be cancelled afterwards: the status was read
      before the watcher wrote, and the cancellation is written after it. */
  lemma FinishedTurnCanBeCancelled() returns (steps: seq<Step>)
    ensures Run(FRESH, steps) && 1 in After(FRESH, steps).turns
    ensures After(FRESH, steps).turns[1].phase == Finished
    ensures After(FRESH, steps).turns[1].path == [Queued, Sending, Running, Completing, Completed, Cancelled]
    ensures !IsPath(After(FRESH, steps).turns[1].path)
  {
    steps := RunningAndRead();
    RunExtends(FRESH, steps, Exit(1, true));
    steps := steps + [Exit(1, true)];
    RunExtends(FRESH, steps, Finish(1));
    steps := steps + [Finish(1)];
    RunExtends(FRESH, steps, WriteCancelled(0, 1));
    steps := steps + [WriteCancelled(0, 1)];
    var path := After(FRESH, steps).turns[1].path;
    assert path == [Queued, Sending, Running] + [Completing] + [Completed] + [Cancelled];
    assert !Allowed(path[4], path[4 + 1]);
  }

  /** And a cancellation that is written first is written over. */
  lemma CancellationCanBeWrittenOver() returns (steps: seq<Step>)
    ensures Run(FRESH, steps) && 1 in After(FRESH, steps).turns
    ensures After(FRESH, steps).turns[1].path == [Queued, Sending, Running, Cancelled, Failed]
    ensures !IsPath(After(FRESH, steps).turns[1].path)
  {
    steps := RunningAndRead();
    RunExtends(FRESH, steps, WriteCancelled(0, 1));
    steps := steps + [WriteCancelled(0, 1)];
    RunExtends(FRESH, steps, Exit(1, false));
    steps := steps + [Exit(1, false)];
    var path := After(FRESH, steps).turns[1].path;
    assert path == [Queued, Sending, Running] + [Cancelled] + [Failed];
    assert !Allowed(path[3], path[3 + 1]);
  }

  /** A restart of the core fails every turn that has not ended, whatever its status. */
  function Recovered(path: seq<TurnState>): seq<TurnState> {
    if path == [] || IsTerminal(Last(path)) then path else path + [Failed]
  }

  /** That keeps to the table except for a turn that is still queued. */
  lemma RecoveryFollowsTableIff(path: seq<TurnState>)
    requires path != [] && IsPath(path)
    ensures IsPath(Recovered(path)) <==> Last(path) != Queued
    ensures IsTerminal(Last(Recovered(path)))
  {
    LastLink(path, Failed);
  }

  // One turn at a time.

  function InProgress(s: State): set<nat> {
    set id | id in s.turns && s.turns[id].phase != Cleared
  }

  ghost predicate AtMostOne(s: State) {
    forall i, j | i in InProgress(s) && j in InProgress(s) :: i == j
  }

  /** Turn `i` has been sent in the run, and neither failed to spawn nor been cleared. */
  ghost predicate Ongoing(steps: seq<Step>, i: nat) {
    exists k :: 0 <= k < |steps| && steps[k] == Send(i) && NotEndedSince(steps, i, k)
  }

  ghost predicate NotEndedSince(steps: seq<Step>, i: nat, k: int) {
    forall j | 0 <= j < |steps| && k < j :: steps[j] != SpawnFails(i) && steps[j] != Clear(i)
  }

  /** The step takes the handle out of the registry, whichever turn's it is. */
  predicate Drops(step: Step) { step.Clear? || step.Release? || step.Detach? }

  /** A handle has been registered in the run, and none dropped since. */
  ghost predicate HandleHeld(steps: seq<Step>) {
    exists k :: 0 <= k < |steps| && steps[k].Register? && NotDroppedSince(steps, k)
  }

  ghost predicate NotDroppedSince(steps: seq<Step>, k: int) {
    forall j | 0 <= j < |steps| && k < j :: !Drops(steps[j])
  }

  function Front(steps: seq<Step>): seq<Step>
    requires steps != []
  {
    steps[..|steps| - 1]
  }

  function Final(steps: seq<Step>): Step
    requires steps != []
  {
    steps[|steps| - 1]
  }

  lemma OneMoreOngoing(steps: seq<Step>, i: nat)
    requires steps != []
    ensures Ongoing(steps, i)
       <==> || Final(steps) == Send(i)
            || (Ongoing(Front(steps), i) && Final(steps) != SpawnFails(i) && Final(steps) != Clear(i))
  {
    var front, n := Front(steps), |steps| - 1;
    if k :| 0 <= k < n && steps[k] == Send(i) && NotEndedSince(steps, i, k) {
      assert front[k] == Send(i) && NotEndedSince(front, i, k);
    }
    if k :| 0 <= k < n && front[k] == Send(i) && NotEndedSince(front, i, k) {
      assert steps[k] == Send(i);
      if steps[n] != SpawnFails(i) && steps[n] != Clear(i) { assert NotEndedSince(steps, i, k); }
    }
    if steps[n] == Send(i) { assert NotEndedSince(steps, i, n); }
  }

  lemma OneMoreHeld(steps: seq<Step>)
    requires steps != []
    ensures HandleHeld(steps) <==> Final(steps).Register? || (HandleHeld(Front(steps)) && !Drops(Final(steps)))
  {
    var front, n := Front(steps), |steps| - 1;
    if k :| 0 <= k < n && steps[k].Register? && NotDroppedSince(steps, k) {
      assert front[k].Register? && NotDroppedSince(front, k);
    }
    if k :| 0 <= k < n && front[k].Register? && NotDroppedSince(front, k) {
      assert steps[k].Register?;
      if !Drops(steps[n]) { assert NotDroppedSince(steps, k); }
    }
    if steps[n].Register? { assert NotDroppedSince(steps, n); }
  }

  lemma FinalStep(steps: seq<Step>)
    requires Run(FRESH, steps) && steps != []
    ensures Run(FRESH, Front(steps)) && Enabled(After(FRESH, Front(steps)), Final(steps))
    ensures After(FRESH, steps) == Next(After(FRESH, Front(steps)), Final(steps))
  {
    RunSplits(FRESH, steps, |steps| - 1);
    assert steps[|steps| - 1..] == [Final(steps)];
  }

  lemma {:induction false} HandleIsHeldIff(steps: seq<Step>)
    requires Run(FRESH, steps)
    ensures After(FRESH, steps).active.Some? <==> HandleHeld(steps)
    decreases |steps|
  {
    if steps != [] {
      FinalStep(steps);
      HandleIsHeldIff(Front(steps));
      OneMoreHeld(steps);
    }
  }

  lemma {:induction false} InProgressIff(steps: seq<Step>, i: nat)
    requires Run(FRESH, steps)
    ensures i in InProgress(After(FRESH, steps)) <==> Ongoing(steps, i)
    decreases |steps|
  {
    if steps != [] {
      FinalStep(steps);
      InProgressIff(Front(steps), i);
      OneMoreOngoing(steps, i);
    }
  }

  /** The registry's check admits a second turn, in a run, exactly when a turn is going
      on and its handle is not there: it is not registered yet, or has been dropped
      since by a cancellation, a detachment or another turn's end. */
  lemma SecondTurnAdmittedIff(steps: seq<Step>, id: nat)
    requires Run(FRESH, steps) && id !in After(FRESH, steps).turns
    ensures var s := After(FRESH, steps);
            Enabled(s, Send(id)) && InProgress(s) != {}
            <==> !HandleHeld(steps) && exists i :: Ongoing(steps, i)
  {
    var s := After(FRESH, steps);
    HandleIsHeldIff(steps);
    forall i ensures i in InProgress(s) <==> Ongoing(steps, i) { InProgressIff(steps, i); }
    if i :| Ongoing(steps, i) { assert i in InProgress(s); }
    if InProgress(s) != {} { var i :| i in InProgress(s); }
  }

  lemma OneTurnAfterStepIff(s: State, step: Step)
    requires AtMostOne(s) && Enabled(s, step)
    ensures AtMostOne(Next(s, step)) <==> (step.Send? ==> InProgress(s) == {})
  {
    var t := Next(s, step);
    if step.Send? {
      assert InProgress(t) == InProgress(s) + {step.id};
      if i :| i in InProgress(s) { assert i in InProgress(t) && step.id in InProgress(t); }
    } else {
      assert InProgress(t) <= InProgress(s);
    }
  }

  /** No turn is sent while another is going on. */
  ghost predicate SendsApart(steps: seq<Step>) {
    forall k | 0 <= k < |steps| && steps[k].Send? :: forall i :: !Ongoing(steps[..k], i)
  }

  lemma OneMoreApart(steps: seq<Step>)
    requires steps != []
    ensures SendsApart(steps)
       <==> SendsApart(Front(steps)) && (Final(steps).Send? ==> forall i :: !Ongoing(Front(steps), i))
  {
    forall k | 0 <= k < |steps| - 1 ensures Front(steps)[..k] == steps[..k] && Front(steps)[k] == steps[k] {
    }
  }

  ghost predicate OneTurnThroughout(steps: seq<Step>)
    requires Run(FRESH, steps)
    decreases |steps|
  {
    AtMostOne(After(FRESH, steps))
    && (steps != [] ==> (FinalStep(steps); OneTurnThroughout(Front(steps))))
  }

  /** In a run there is at most one turn going on at every point exactly when no turn
      is sent while another is, which the check above does not ensure. */
  lemma {:induction false} OneTurnIff(steps: seq<Step>)
    requires Run(FRESH, steps)
    ensures OneTurnThroughout(steps) <==> SendsApart(steps)
    decreases |steps|
  {
    if steps != [] {
      FinalStep(steps);
      var s := After(FRESH, Front(steps));
      OneTurnIff(Front(steps));
      OneMoreApart(steps);
      forall i ensures i in InProgress(s) <==> Ongoing(Front(steps), i) { InProgressIff(Front(steps), i); }
      if OneTurnThroughout(Front(steps)) { OneTurnAfterStepIff(s, Final(steps)); }
    }
  }

  /** And such a send happens: the handle of a turn in progress can be gone. */
  lemma SecondTurnCanStart() returns (s: State)
    ensures Run(FRESH, [Send(1), Spawned(1), Register(1), Detach])
    ensures s == After(FRESH, [Send(1), Spawned(1), Register(1), Detach])
    ensures Enabled(s, Send(2)) && AtMostOne(s) && !AtMostOne(Next(s, Send(2)))
  {
    var a := Next(FRESH, Send(1));
    var b := Next(a, Spawned(1));
    var c := Next(b, Register(1));
    s := Next(c, Detach);
    Unrolled(c, Detach, []);
    Unrolled(b, Register(1), [Detach]);
    Unrolled(a, Spawned(1), [Register(1), Detach]);
    Unrolled(FRESH, Send(1), [Spawned(1), Register(1), Detach]);
    assert 1 in InProgress(s);
    OneTurnAfterStepIff(s, Send(2));
  }

  lemma Unrolled(s: State, step: Step, rest: seq<Step>)
    requires Enabled(s, step) && Run(Next(s, step), rest)
    ensures Run(s, [step] + rest) && After(s, [step] + rest) == After(Next(s, step), rest)
  {
    assert ([step] + rest)[1..] == rest;
  }

  class TurnMachine {
    var state: TurnState

    constructor (state: TurnState)
      ensures this.state == state
    {
      this.state := state;
    }

    method Transition(next: TurnState) returns (ok: bool)
      modifies this
      ensures ok == Allowed(old(state), next)
      ensures state == if ok then next else old(state)
    {
      ok := Allowed(state, next);
      if ok { state := next; }
    }
  }

  class TurnService {
    var turns: map<nat, Turn>
    var active: Option<nat>
    var cancels: map<nat, Cancellation>

    ghost function Now(): State
      reads this
    {
      State(turns, active, cancels)
    }

    constructor ()
      ensures Now() == FRESH && Inv(Now())
    {
      turns, active, cancels := map[], None, map[];
    }

    /** Writes a turn's next status if its machine allows it. */
    method TransitionTurn(id: nat, machine: TurnMachine, next: TurnState, phase: Phase) returns (ok: bool)
      requires id in turns
      modifies this`turns, machine
      ensures ok == Allowed(old(machine.state), next)
      ensures machine.state == if ok then next else old(machine.state)
      ensures turns == if ok then old(turns)[id := Moved(old(turns)[id], next, phase)] else old(turns)
    {
      ok := machine.Transition(next);
      if ok { turns := turns[id := Moved(turns[id], next, phase)]; }
    }

    method SendTurn(id: nat) returns (accepted: bool)
      requires id !in turns
      modifies this
      ensures accepted == old(active.None?)
      ensures Now() == if accepted then Next(old(Now()), Send(id)) else old(Now())
    {
      if active.Some? { return false; }
      turns := turns[id := Turn([Queued], Queued, Sent)];
      var machine := new TurnMachine(Queued);
      accepted := TransitionTurn(id, machine, Sending, Sent);
      assert [Queued] + [Sending] == [Queued, Sending];
    }

    method SpawnEnds(id: nat, spawned: bool)
      requires Inv(Now()) && InPhase(Now(), id, Sent)
      modifies this
      ensures Now() == Next(old(Now()), if spawned then Spawned(id) else SpawnFails(id))
    {
      var machine := new TurnMachine(turns[id].machine);
      if spawned { var _ := TransitionTurn(id, machine, Running, Launched); }
      else { var _ := TransitionTurn(id, machine, Failed, Cleared); }
    }

    method RegisterHandle(id: nat)
      requires InPhase(Now(), id, Launched)
      modifies this
      ensures Now() == Next(old(Now()), Register(id))
    {
      turns, active := turns[id := turns[id].(phase := Watched)], Some(id);
    }

    /** The watcher's first write. Its machine starts at Running, whatever the
        durable status is by now. */
    method ProviderExited(id: nat, success: bool)
      requires Inv(Now()) && InPhase(Now(), id, Watched)
      modifies this
      ensures Now() == Next(old(Now()), Exit(id, success))
    {
      assert TurnOk(turns[id]);
      var machine := new TurnMachine(Running);
      if success { var _ := TransitionTurn(id, machine, Completing, Exiting); }
      else { var _ := TransitionTurn(id, machine, Failed, Finished); }
    }

    method Complete(id: nat)
      requires Inv(Now()) && InPhase(Now(), id, Exiting)
      modifies this
      ensures Now() == Next(old(Now()), Finish(id))
    {
      assert TurnOk(turns[id]);
      var machine := new TurnMachine(Completing);
      var _ := TransitionTurn(id, machine, Completed, Finished);
    }

    /** The handle goes, whichever turn's it is. */
    method ClearHandle(id: nat)
      requires InPhase(Now(), id, Finished)
      modifies this
      ensures Now() == Next(old(Now()), Clear(id))
    {
      turns, active := turns[id := turns[id].(phase := Cleared)], None;
    }

    /** A request to cancel finds the handle, if one is registered. */
    method PickUpHandle(request: nat) returns (id: Option<nat>)
      requires request !in cancels
      modifies this
      ensures id == old(active)
      ensures Now() == if id.Some? then Next(old(Now()), PickUp(request, id.value)) else old(Now())
    {
      id := active;
      if id.Some? { cancels := cancels[request := Cancellation(id.value, PickedUp)]; }
    }

    /** It has locked the handle and cancelled the provider; the registry's
        handle goes, whichever turn's it is by now. */
    method ReleaseHandle(request: nat)
      requires Waits(Now(), request, PickedUp)
      modifies this
      ensures Now() == Next(old(Now()), Release(request))
    {
      active := None;
      cancels := cancels[request := cancels[request].(phase := Released)];
    }

    method ReadStatus(request: nat) returns (status: TurnState)
      requires Waits(Now(), request, Released)
      modifies this
      ensures Now() == Next(old(Now()), ReadForCancel(request))
      ensures var id := old(cancels[request].turn);
              && (id in old(turns) && old(turns[id].path) != [] ==>
                    status == old(turns[id].path)[|old(turns[id].path)| - 1])
              && (id !in old(turns) || old(turns[id].path) == [] ==> status == Running)
    {
      var id := cancels[request].turn;
      status := if id in turns && turns[id].path != [] then Last(turns[id].path) else Running;
      cancels := cancels[request :=
        cancels[request].(phase := if IsTerminal(status) then Answered else HasRead(status))];
    }

    /** The write goes by the status that was read, not by the one there is. */
    method WriteCancellation(request: nat, id: nat)
      requires Enabled(Now(), WriteCancelled(request, id))
      modifies this
      ensures Now() == Next(old(Now()), WriteCancelled(request, id))
    {
      var machine := new TurnMachine(cancels[request].phase.status);
      var ok := machine.Transition(Cancelled);
      if ok { turns := turns[id := turns[id].(path := turns[id].path + [Cancelled])]; }
      cancels := cancels[request := cancels[request].(phase := Answered)];
    }
  }
}
