/** What each request about a session writes, announces and answers, told from the
    session's history alone, and that nothing else changes. */
module SessionRequests {
  import opened Common
  import opened Sessions

  // What is written is announced.

  ghost function Announcements(id: Id, states: seq<SessionState>): seq<(Id, SessionState)> {
    seq(|states|, k requires 0 <= k < |states| => (id, states[k]))
  }

  /** From `w` to `t` exactly `states` are written for `id`, each announced as it is
      written, and the status is the text of the last. */
  ghost predicate Writes(w: World, t: World, id: Id, states: seq<SessionState>) {
    && Written(t, id) == Written(w, id) + states
    && t.emitted == w.emitted + Announcements(id, states)
    && id in w.statuses && id in t.statuses
    && t.statuses[id] == if states == [] then w.statuses[id] else AsText(states[|states| - 1])
  }

  /** Nothing changes for any other session. */
  ghost predicate OthersStay(w: World, t: World, id: Id) {
    forall other | other != id ::
      && (other in t.statuses <==> other in w.statuses)
      && (other in w.statuses ==> t.statuses[other] == w.statuses[other])
      && Written(t, other) == Written(w, other)
      && (other in t.registry <==> other in w.registry)
      && (other in w.registry ==> t.registry[other] == w.registry[other])
  }

  /** The longest beginning of `steps` that keeps to the table, from `from` on. */
  ghost function Legal(from: SessionState, steps: seq<SessionState>): seq<SessionState>
    decreases |steps|
  {
    if steps == [] || !Allowed(from, steps[0]) then [] else [steps[0]] + Legal(steps[0], steps[1..])
  }

  lemma WritesMore(w: World, m: World, t: World, id: Id, first: SessionState, rest: seq<SessionState>)
    requires Writes(w, m, id, [first]) && Writes(m, t, id, rest)
    ensures Writes(w, t, id, [first] + rest)
  {
    assert Announcements(id, [first] + rest) == Announcements(id, [first]) + Announcements(id, rest);
    assert Written(w, id) + [first] + rest == Written(w, id) + ([first] + rest);
    assert w.emitted + Announcements(id, [first]) + Announcements(id, rest)
        == w.emitted + (Announcements(id, [first]) + Announcements(id, rest));
  }

  lemma OthersStayOn(w: World, m: World, t: World, id: Id)
    requires OthersStay(w, m, id) && OthersStay(m, t, id)
    ensures OthersStay(w, t, id)
  {
  }

  lemma StepWrites(w: World, id: Id, s: SessionState)
    requires id in w.statuses
    ensures Writes(w, Stepped(w, id, s), id, [s]) && OthersStay(w, Stepped(w, id, s), id)
    ensures Stepped(w, id, s).registry == w.registry
  {
    assert Announcements(id, [s]) == [(id, s)];
  }

  lemma {:induction false} WalkWritesLegal(w: World, id: Id, from: SessionState, steps: seq<SessionState>)
    requires id in w.statuses
    ensures var t := Walked(w, id, from, steps);
            && Writes(w, t, id, Legal(from, steps)) && OthersStay(w, t, id) && t.registry == w.registry
    decreases |steps|
  {
    if steps == [] || !Allowed(from, steps[0]) {
      assert Announcements(id, []) == [];
    } else {
      var next := Stepped(w, id, steps[0]);
      StepWrites(w, id, steps[0]);
      WalkWritesLegal(next, id, steps[0], steps[1..]);
      var t := Walked(next, id, steps[0], steps[1..]);
      WritesMore(w, next, t, id, steps[0], Legal(steps[0], steps[1..]));
      OthersStayOn(w, next, t, id);
    }
  }

  /** Where the session is when a request about it comes in. */
  ghost function From(w: World, id: Id): SessionState
    requires SessionOk(w, id)
  {
    w.written[id][|w.written[id]| - 1]
  }

  lemma ActsFrom(w: World, r: Request)
    requires Inv(w) && r.id in w.statuses
    ensures SessionOk(w, r.id) && Current(w, r.id, Default(r)) == From(w, r.id)
  {
    CurrentIsLast(w, r.id, Default(r));
  }

  // The requests.

  /** A request about no session, or for a provider there is not, changes nothing. */
  lemma NotFoundChangesNothing(w: World, r: Request)
    requires !r.Create? && (r.id !in w.statuses || (r.Start? && !r.providerKnown))
    ensures Handled(w, r) == w && ReplyTo(w, r) == NotFound
  {
  }

  /** Creating a session writes "created", and of one that exists nothing. */
  lemma CreateWritesOnce(w: World, id: Id)
    ensures ReplyTo(w, Create(id)) == Replied("created")
    ensures id in w.statuses ==> Handled(w, Create(id)) == w
    ensures id !in w.statuses ==>
      var t := Handled(w, Create(id));
      && OthersStay(w, t, id) && id in t.statuses && t.statuses[id] == "created" && Written(t, id) == [Created]
      && t.registry == w.registry && t.emitted == w.emitted
  {
  }

  ghost predicate IsPathFrom(from: SessionState, steps: seq<SessionState>) {
    steps == [] || (Allowed(from, steps[0]) && IsPath(steps))
  }

  ghost predicate LeadsToRunning(from: SessionState, steps: seq<SessionState>) {
    steps != [] && steps[|steps| - 1] == Running && IsPathFrom(from, steps)
  }

  /** No other way to Running through the table is as short. */
  ghost predicate IsShortestWay(from: SessionState, steps: seq<SessionState>) {
    && LeadsToRunning(from, steps)
    && forall other | LeadsToRunning(from, other) && other != steps :: |other| > |steps|
  }

  lemma StartIsShortestWay(from: SessionState)
    requires !IsTerminal(from) && !IsActive(from)
    ensures IsShortestWay(from, StartSteps(from))
  {
    PathSteps(from, StartSteps(from));
    forall other | LeadsToRunning(from, other) && other != StartSteps(from)
      ensures |other| > |StartSteps(from)|
    {
      if |other| <= |StartSteps(from)| { ShortWay(from, other); }
    }
  }

  lemma PathSteps(from: SessionState, steps: seq<SessionState>)
    ensures IsPathFrom(from, steps) && steps != [] ==> Allowed(from, steps[0])
    ensures IsPathFrom(from, steps) && |steps| > 1 ==> Allowed(steps[0], steps[1])
    ensures IsPathFrom(from, steps) && |steps| > 2 ==> Allowed(steps[1], steps[2])
  {
    if IsPathFrom(from, steps) {
      assert |steps| > 1 ==> Allowed(steps[0], steps[0 + 1]);
      assert |steps| > 2 ==> Allowed(steps[1], steps[1 + 1]);
    }
  }

  lemma ShortWay(from: SessionState, steps: seq<SessionState>)
    requires !IsTerminal(from) && !IsActive(from) && LeadsToRunning(from, steps) && |steps| <= |StartSteps(from)|
    ensures steps == StartSteps(from)
  {
    PathSteps(from, steps);
  }

  /** Starting writes the shortest way to Running there is, and for a session that is
      active already nothing; it then registers the session with the directory. */
  lemma StartWrites(w: World, id: Id, cwd: string) returns (steps: seq<SessionState>)
    requires Inv(w) && id in w.statuses
    ensures SessionOk(w, id)
    ensures var t, from := Handled(w, Start(id, cwd, true)), From(w, id);
            && OthersStay(w, t, id) && Writes(w, t, id, steps)
            && (IsTerminal(from) ==> t == w && ReplyTo(w, Start(id, cwd, true)) == Ended)
            && (IsActive(from) ==> steps == [])
            && (!IsTerminal(from) && !IsActive(from) ==> IsShortestWay(from, steps))
            && (!IsTerminal(from) ==>
                  && ReplyTo(w, Start(id, cwd, true)) == Replied(t.statuses[id])
                  && id in t.registry && t.registry[id].cwd == cwd
                  && t.registry[id].activeTurn == if id in w.registry then w.registry[id].activeTurn else None)
  {
    var from := From(w, id);
    ActsFrom(w, Start(id, cwd, true));
    steps := StartSteps(from);
    StartIsLegal(from);
    if !IsTerminal(from) && !IsActive(from) { StartIsShortestWay(from); }
    StartWalks(w, id, cwd, from);
  }

  lemma StartWalks(w: World, id: Id, cwd: string, from: SessionState)
    requires id in w.statuses && Current(w, id, Created) == from && Refused(from, StartSteps(from)).None?
    ensures var t, steps := Handled(w, Start(id, cwd, true)), StartSteps(from);
            && OthersStay(w, t, id) && Writes(w, t, id, steps)
            && (IsTerminal(from) ==> t == w && ReplyTo(w, Start(id, cwd, true)) == Ended)
            && (!IsTerminal(from) ==>
                  && ReplyTo(w, Start(id, cwd, true)) == Replied(t.statuses[id])
                  && id in t.registry && t.registry[id].cwd == cwd
                  && t.registry[id].activeTurn == if id in w.registry then w.registry[id].activeTurn else None)
  {
    WalkWritesLegal(w, id, from, StartSteps(from));
    NotRefusedIsLegal(from, StartSteps(from));
  }

  lemma {:induction false} NotRefusedIsLegal(from: SessionState, steps: seq<SessionState>)
    requires Refused(from, steps).None?
    ensures Legal(from, steps) == steps
    decreases |steps|
  {
    if steps != [] { NotRefusedIsLegal(steps[0], steps[1..]); }
  }

  /** Pausing stops the turn in any case. It writes "paused" from the active states and
      from Recovering, and elsewhere says that this step is not in the table. */
  lemma PauseWrites(w: World, id: Id)
    requires Inv(w) && id in w.statuses
    ensures SessionOk(w, id)
    ensures var t, from := Handled(w, Pause(id)), From(w, id);
            var pauses := from in {Running, WaitingForApproval, WaitingForUser, Recovering};
            && OthersStay(w, t, id) && Writes(w, t, id, if pauses then [Paused] else [])
            && ReplyTo(w, Pause(id)) == (if pauses then Replied("paused") else InvalidTransition(from, Paused))
            && TurnIsOver(w, t, id)
  {
    ActsFrom(w, Pause(id));
    WalkWritesLegal(TurnStopped(w, id), id, From(w, id), [Paused]);
    WalkOne(TurnStopped(w, id), id, From(w, id), Paused);
  }

  /** A registered session is still registered, with no turn. */
  ghost predicate TurnIsOver(w: World, t: World, id: Id) {
    && (id in t.registry <==> id in w.registry)
    && (id in w.registry ==> t.registry[id].cwd == w.registry[id].cwd && t.registry[id].activeTurn == None)
  }

  /** Resuming writes "preparing" from Created and Paused, and is refused either way:
      there for the step from Preparing to Running, elsewhere for that to Preparing. */
  lemma ResumeWrites(w: World, id: Id)
    requires Inv(w) && id in w.statuses
    ensures SessionOk(w, id)
    ensures var t, from := Handled(w, Resume(id)), From(w, id);
            var begins := from == Created || from == Paused;
            && OthersStay(w, t, id) && Writes(w, t, id, if begins then [Preparing] else [])
            && t.registry == w.registry
            && ReplyTo(w, Resume(id)) ==
                 (if begins then InvalidTransition(Preparing, Running) else InvalidTransition(from, Preparing))
  {
    var from := From(w, id);
    ActsFrom(w, Resume(id));
    WalkWritesLegal(w, id, from, [Preparing, Running]);
    RefusedAtFirst(from, Preparing, [Running]);
    RefusedAtFirst(Preparing, Running, []);
    assert [Preparing, Running][1..] == [Running];
  }

  /** Cancelling stops the turn and writes "cancelled" unless the session had ended;
      "cancelled" is announced and answered in any case. */
  lemma CancelWrites(w: World, id: Id)
    requires Inv(w) && id in w.statuses
    ensures SessionOk(w, id)
    ensures var t, ended := Handled(w, Cancel(id)), IsTerminal(From(w, id));
            && OthersStay(w, t, id) && TurnIsOver(w, t, id)
            && Written(t, id) == Written(w, id) + (if ended then [] else [Cancelled])
            && id in t.statuses && t.statuses[id] == (if ended then w.statuses[id] else "cancelled")
            && t.emitted == w.emitted + [(id, Cancelled)]
            && ReplyTo(w, Cancel(id)) == Replied("cancelled")
  {
    ActsFrom(w, Cancel(id));
    WalkWritesLegal(TurnStopped(w, id), id, From(w, id), [Cancelled]);
    WalkOne(TurnStopped(w, id), id, From(w, id), Cancelled);
  }

  /** A status that is no state's text is taken as the state the request expects:
      Created to start or cancel from, Running to pause, Paused to resume. */
  lemma UnreadableStatus(w: World, id: Id, cwd: string)
    requires id in w.statuses && forall s: SessionState :: AsText(s) != w.statuses[id]
    ensures Writes(w, Handled(w, Start(id, cwd, true)), id, [Preparing, Starting, Running])
    ensures Writes(w, Handled(w, Pause(id)), id, [Paused])
    ensures Writes(w, Handled(w, Resume(id)), id, [Preparing])
    ensures Writes(w, Handled(w, Cancel(id)), id, [Cancelled])
  {
    if Parse(w.statuses[id]).Some? { ParseInvertsAsText(w.statuses[id], Parse(w.statuses[id]).value); }
    UnreadableStart(w, id, cwd);
    UnreadablePause(w, id);
    UnreadableResume(w, id);
    UnreadableCancel(w, id);
  }

  lemma UnreadableStart(w: World, id: Id, cwd: string)
    requires id in w.statuses && Parse(w.statuses[id]).None?
    ensures Writes(w, Handled(w, Start(id, cwd, true)), id, [Preparing, Starting, Running])
  {
    StartIsLegal(Created);
    StartWalks(w, id, cwd, Created);
  }

  lemma UnreadablePause(w: World, id: Id)
    requires id in w.statuses && Parse(w.statuses[id]).None?
    ensures Writes(w, Handled(w, Pause(id)), id, [Paused])
  {
    WalkOne(TurnStopped(w, id), id, Running, Paused);
    StepWrites(TurnStopped(w, id), id, Paused);
  }

  lemma UnreadableResume(w: World, id: Id)
    requires id in w.statuses && Parse(w.statuses[id]).None?
    ensures Writes(w, Handled(w, Resume(id)), id, [Preparing])
  {
    var steps := [Preparing, Running];
    assert steps[1..] == [Running];
    StepWrites(w, id, Preparing);
    WalkOne(Stepped(w, id, Preparing), id, Preparing, Running);
  }

  lemma UnreadableCancel(w: World, id: Id)
    requires id in w.statuses && Parse(w.statuses[id]).None?
    ensures Writes(w, Handled(w, Cancel(id)), id, [Cancelled])
  {
    WalkOne(TurnStopped(w, id), id, Created, Cancelled);
    StepWrites(TurnStopped(w, id), id, Cancelled);
  }
}
