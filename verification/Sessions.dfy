/** The session lifecycle: the transition table, its durable strings, and the
    request handlers that drive durable status through it. */
module Sessions {
  import opened Common

  type Id = nat

  datatype SessionState =
    | Created | Preparing | Starting | Running | WaitingForApproval | WaitingForUser
    | Paused | Completed | Failed | Cancelled | Disconnected | Recovering

  predicate IsTerminal(s: SessionState) { s in {Completed, Failed, Cancelled} }

  predicate IsActive(s: SessionState) { s in {Running, WaitingForApproval, WaitingForUser} }

  function AsText(s: SessionState): string {
    match s
    case Created => "created"
    case Preparing => "preparing"
    case Starting => "starting"
    case Running => "running"
    case WaitingForApproval => "waiting_for_approval"
    case WaitingForUser => "waiting_for_user"
    case Paused => "paused"
    case Completed => "completed"
    case Failed => "failed"
    case Cancelled => "cancelled"
    case Disconnected => "disconnected"
    case Recovering => "recovering"
  }

  function Parse(text: string): Option<SessionState> {
    match text
    case "created" => Some(Created)
    case "preparing" => Some(Preparing)
    case "starting" => Some(Starting)
    case "running" => Some(Running)
    case "waiting_for_approval" => Some(WaitingForApproval)
    case "waiting_for_user" => Some(WaitingForUser)
    case "paused" => Some(Paused)
    case "completed" => Some(Completed)
    case "failed" => Some(Failed)
    case "cancelled" => Some(Cancelled)
    case "disconnected" => Some(Disconnected)
    case "recovering" => Some(Recovering)
    case _ => None
  }

  /** A text stands for a state exactly when it is that state's text. */
  lemma ParseInvertsAsText(text: string, s: SessionState)
    ensures Parse(text) == Some(s) <==> text == AsText(s)
  {
  }

  predicate Allowed(from: SessionState, next: SessionState) {
    match from
    case Created => next in {Preparing, Cancelled}
    case Preparing => next in {Starting, Failed, Cancelled}
    case Starting => next in {Running, Disconnected, Failed, Cancelled}
    case Running =>
      next in {WaitingForApproval, WaitingForUser, Paused, Completed, Failed, Cancelled, Disconnected}
    case WaitingForApproval => next in {Running, Paused, Cancelled, Disconnected}
    case WaitingForUser => next in {Running, Paused, Cancelled, Disconnected}
    case Paused => next in {Preparing, Cancelled}
    case Disconnected => next in {Recovering, Failed, Cancelled}
    case Recovering =>
      next in {Running, WaitingForApproval, WaitingForUser, Paused, Failed, Disconnected, Cancelled}
    case _ => false
  }

  /** The table read by destination: from where each state can be entered. */
  lemma EnteredFrom(from: SessionState)
    ensures !Allowed(from, Created)
    ensures Allowed(from, Preparing) <==> from == Created || from == Paused
    ensures Allowed(from, Starting) <==> from == Preparing
    ensures Allowed(from, Running) <==>
      from == Starting || from == WaitingForApproval || from == WaitingForUser || from == Recovering
    ensures Allowed(from, WaitingForApproval) <==> from == Running || from == Recovering
    ensures Allowed(from, WaitingForUser) <==> from == Running || from == Recovering
    ensures Allowed(from, Paused) <==>
      from == Running || from == WaitingForApproval || from == WaitingForUser || from == Recovering
    ensures Allowed(from, Completed) <==> from == Running
    ensures Allowed(from, Failed) <==>
      from == Preparing || from == Starting || from == Running || from == Disconnected || from == Recovering
    ensures Allowed(from, Cancelled) <==> from != Completed && from != Failed && from != Cancelled
    ensures Allowed(from, Disconnected) <==>
      || from == Starting || from == Running || from == WaitingForApproval || from == WaitingForUser
      || from == Recovering
    ensures Allowed(from, Recovering) <==> from == Disconnected
  {
  }

  class SessionMachine {
    var state: SessionState

    constructor (state: SessionState)
      ensures this.state == state
    {
      this.state := state;
    }

    method Transition(next: SessionState) returns (ok: bool)
      modifies this
      ensures ok == Allowed(old(state), next)
      ensures state == if ok then next else old(state)
    {
      ok := Allowed(state, next);
      if ok { state := next; }
    }
  }

  // Paths through the table.

  ghost predicate IsPath(states: seq<SessionState>) {
    forall i | 0 <= i < |states| - 1 :: Allowed(states[i], states[i + 1])
  }

  /** Nothing comes after a terminal state. */
  lemma TerminalIsLast(states: seq<SessionState>, i: nat)
    requires IsPath(states) && i < |states| && IsTerminal(states[i])
    ensures i == |states| - 1
  {
    assert i + 1 < |states| ==> Allowed(states[i], states[i + 1]);
  }

  lemma {:induction false} PausedStaysBehindStarting(states: seq<SessionState>, i: nat, j: nat)
    requires IsPath(states) && i <= j < |states| && states[i] == Paused
    requires forall k | i < k <= j :: states[k] != Starting
    ensures states[j] in {Paused, Preparing, Cancelled, Failed}
    decreases j
  {
    if i < j {
      PausedStaysBehindStarting(states, i, j - 1);
      assert Allowed(states[j - 1], states[j - 1 + 1]);
    }
  }

  /** A paused session runs again only by way of Starting. */
  lemma PausedRunsThroughStarting(states: seq<SessionState>, i: nat, j: nat)
    requires IsPath(states) && i < j < |states| && states[i] == Paused && states[j] == Running
    ensures exists k :: i < k < j && states[k] == Starting
  {
    if forall k | i < k < j :: states[k] != Starting {
      PausedStaysBehindStarting(states, i, j);
    }
  }

  // The handlers.

  /** What the registry remembers of a session. */
  datatype Entry = Entry(cwd: string, activeTurn: Option<nat>)

  /** `statuses` is the durable table. The histories, of what was written to it
      and of what was emitted, go with it. */
  datatype World = World(
    statuses: map<Id, string>, registry: map<Id, Entry>,
    written: map<Id, seq<SessionState>>, emitted: seq<(Id, SessionState)>)

  datatype Request =
    | Create(id: Id)
    | Start(id: Id, cwd: string, providerKnown: bool)
    | Pause(id: Id)
    | Resume(id: Id)
    | Cancel(id: Id)

  datatype Reply =
    | Replied(status: string)
    | NotFound
    | Ended
    | InvalidTransition(from: SessionState, next: SessionState)

  function Last(states: seq<SessionState>): SessionState
    requires states != []
  {
    states[|states| - 1]
  }

  function Current(w: World, id: Id, default_: SessionState): SessionState
    requires id in w.statuses
  {
    StateOf(w.statuses[id], default_)
  }

  function StateOf(text: string, default_: SessionState): SessionState {
    if Parse(text).Some? then Parse(text).value else default_
  }

  function Written(w: World, id: Id): seq<SessionState> {
    if id in w.written then w.written[id] else []
  }

  function Persisted(w: World, id: Id, s: SessionState): World {
    w.(statuses := w.statuses[id := AsText(s)], written := w.written[id := Written(w, id) + [s]])
  }

  function Announced(w: World, id: Id, s: SessionState): World {
    w.(emitted := w.emitted + [(id, s)])
  }

  function Stepped(w: World, id: Id, s: SessionState): World {
    Announced(Persisted(w, id, s), id, s)
  }

  /** Steps are taken, written and announced one by one until one is not allowed. */
  function Walked(w: World, id: Id, from: SessionState, steps: seq<SessionState>): World
    decreases |steps|
  {
    if steps == [] || !Allowed(from, steps[0]) then w
    else Walked(Stepped(w, id, steps[0]), id, steps[0], steps[1..])
  }

  /** The step that is not allowed, if there is one. */
  function Refused(from: SessionState, steps: seq<SessionState>): Option<Reply>
    decreases |steps|
  {
    if steps == [] then None
    else if !Allowed(from, steps[0]) then Some(InvalidTransition(from, steps[0]))
    else Refused(steps[0], steps[1..])
  }

  function StartSteps(current: SessionState): seq<SessionState> {
    match current
    case Created => [Preparing, Starting, Running]
    case Paused => [Preparing, Starting, Running]
    case Disconnected => [Recovering, Running]
    case Recovering => [Running]
    case Preparing => [Starting, Running]
    case Starting => [Running]
    case _ => []
  }

  function Registered(w: World, id: Id, cwd: string): World {
    w.(registry := w.registry[id :=
      if id in w.registry then w.registry[id].(cwd := cwd) else Entry(cwd, None)])
  }

  /** Pausing and cancelling first stop the turn in progress. */
  function TurnStopped(w: World, id: Id): World {
    if id in w.registry then w.(registry := w.registry[id := w.registry[id].(activeTurn := None)]) else w
  }

  /** The state a handler assumes when the durable text is none it knows. */
  function Default(r: Request): SessionState {
    match r
    case Pause(_) => Running
    case Resume(_) => Paused
    case _ => Created
  }

  function Steps(r: Request, current: SessionState): seq<SessionState> {
    match r
    case Start(_, _, _) => StartSteps(current)
    case Pause(_) => [Paused]
    case Resume(_) => [Preparing, Running]
    case Cancel(_) => if IsTerminal(current) then [] else [Cancelled]
    case Create(_) => []
  }

  function Opened(w: World, id: Id): World {
    if id in w.statuses then w
    else w.(statuses := w.statuses[id := AsText(Created)], written := w.written[id := [Created]])
  }

  /** A request about a session that exists. */
  function Acted(w: World, r: Request): World
    requires r.id in w.statuses
  {
    var current := Current(w, r.id, Default(r));
    Concluded(Walked(Stopped(w, r), r.id, current, Steps(r, current)), r, current)
  }

  function Stopped(w: World, r: Request): World {
    if r.Pause? || r.Cancel? then TurnStopped(w, r.id) else w
  }

  /** A started session is registered; a cancelled one is announced in any case. */
  function Concluded(w: World, r: Request, from: SessionState): World {
    if r.Start? && !IsTerminal(from) && Refused(from, Steps(r, from)).None? then Registered(w, r.id, r.cwd)
    else if r.Cancel? && IsTerminal(from) then Announced(w, r.id, Cancelled)
    else w
  }

  function Handled(w: World, r: Request): World {
    if r.Create? then Opened(w, r.id)
    else if r.id !in w.statuses || (r.Start? && !r.providerKnown) then w
    else Acted(w, r)
  }

  function ReplyTo(w: World, r: Request): Reply {
    if r.Create? then Replied(AsText(Created))
    else if r.id !in w.statuses || (r.Start? && !r.providerKnown) then NotFound
    else
      var current := Current(w, r.id, Default(r));
      var refused := Refused(current, Steps(r, current));
      if r.Start? && IsTerminal(current) then Ended
      else if refused.Some? then refused.value
      else match r
           case Start(_, _, _) =>
             Replied(if Steps(r, current) == [] then w.statuses[r.id] else AsText(Last(Steps(r, current))))
           case Pause(_) => Replied("paused")
           case Resume(_) => Replied("running")
           case _ => Replied("cancelled")
  }

  // What the handlers keep.

  const EMPTY: World := World(map[], map[], map[], [])

  /** A session's history is a path from Created to its durable state. */
  ghost predicate SessionOk(w: World, id: Id) {
    && id in w.statuses && id in w.written && w.written[id] != [] && w.written[id][0] == Created
    && IsPath(w.written[id]) && w.statuses[id] == AsText(Last(w.written[id]))
  }

  ghost predicate Inv(w: World) {
    forall id | id in w.statuses :: SessionOk(w, id)
  }

  /** Only `id` changes, and its history only grows. */
  ghost predicate Extends(w: World, after: World, id: Id) {
    && after.statuses.Keys == w.statuses.Keys
    && (forall i | i in w.statuses && i != id ::
          after.statuses[i] == w.statuses[i] && Written(after, i) == Written(w, i))
    && Written(w, id) <= Written(after, id)
  }

  lemma ExtendsIsTransitive(w: World, m: World, t: World, id: Id)
    requires Extends(w, m, id) && Extends(m, t, id)
    ensures Extends(w, t, id)
  {
  }

  lemma PathGrows(states: seq<SessionState>, s: SessionState)
    requires IsPath(states) && states != [] && Allowed(Last(states), s)
    ensures IsPath(states + [s])
  {
    forall i | 0 <= i < |states + [s]| - 1 ensures Allowed((states + [s])[i], (states + [s])[i + 1]) {
      assert i + 1 < |states| ==> Allowed(states[i], states[i + 1]);
    }
  }

  lemma StepKeepsSession(w: World, id: Id, s: SessionState, i: Id)
    requires SessionOk(w, id) && SessionOk(w, i) && Allowed(Last(w.written[id]), s)
    ensures SessionOk(Stepped(w, id, s), i)
  {
    if i == id { PathGrows(w.written[id], s); }
  }

  lemma StepKeepsInv(w: World, id: Id, s: SessionState)
    requires Inv(w) && SessionOk(w, id) && Allowed(Last(w.written[id]), s)
    ensures Inv(Stepped(w, id, s)) && Extends(w, Stepped(w, id, s), id)
  {
    forall i | i in Stepped(w, id, s).statuses ensures SessionOk(Stepped(w, id, s), i) {
      StepKeepsSession(w, id, s, i);
    }
  }

  lemma {:induction false} WalkKeepsInv(w: World, id: Id, steps: seq<SessionState>)
    requires Inv(w) && SessionOk(w, id)
    ensures var t := Walked(w, id, Last(w.written[id]), steps);
            Inv(t) && Extends(w, t, id)
    decreases |steps|
  {
    var from := Last(w.written[id]);
    if steps != [] && Allowed(from, steps[0]) {
      var next := Stepped(w, id, steps[0]);
      StepKeepsInv(w, id, steps[0]);
      WalkKeepsInv(next, id, steps[1..]);
      ExtendsIsTransitive(w, next, Walked(next, id, steps[0], steps[1..]), id);
    }
  }

  lemma {:induction false} WalkWrites(w: World, id: Id, from: SessionState, steps: seq<SessionState>)
    ensures Walked(w, id, from, steps).registry == w.registry
    ensures Refused(from, steps).None? ==> Written(Walked(w, id, from, steps), id) == Written(w, id) + steps
    decreases |steps|
  {
    if steps != [] && Allowed(from, steps[0]) {
      WalkWrites(Stepped(w, id, steps[0]), id, steps[0], steps[1..]);
      assert Written(w, id) + [steps[0]] + steps[1..] == Written(w, id) + steps;
    }
  }

  lemma CurrentIsLast(w: World, id: Id, d: SessionState)
    requires Inv(w) && id in w.statuses
    ensures SessionOk(w, id) && Current(w, id, d) == Last(w.written[id])
  {
    assert SessionOk(w, id);
    ParseInvertsAsText(w.statuses[id], Last(w.written[id]));
  }

  ghost predicate SameTable(w: World, t: World) {
    t.statuses == w.statuses && t.written == w.written
  }

  lemma SameTableKeepsInv(w: World, t: World)
    requires Inv(w) && SameTable(w, t)
    ensures Inv(t)
  {
    forall id | id in t.statuses ensures SessionOk(t, id) { assert SessionOk(w, id); }
  }

  lemma SameTableExtends(w: World, s: World, t: World, u: World, id: Id)
    requires SameTable(w, s) && Extends(s, t, id) && SameTable(t, u)
    ensures Extends(w, u, id)
  {
  }

  lemma OpenedKeepsInv(w: World, id: Id)
    requires Inv(w)
    ensures Inv(Opened(w, id))
  {
    forall i | i in Opened(w, id).statuses ensures SessionOk(Opened(w, id), i) {
      assert i in w.statuses ==> SessionOk(w, i);
    }
  }

  lemma SidesKeepTable(w: World, r: Request, from: SessionState)
    ensures SameTable(w, Stopped(w, r)) && SameTable(w, Concluded(w, r, from))
  {
  }

  lemma ActedKeepsInv(w: World, r: Request)
    requires Inv(w) && r.id in w.statuses
    ensures Inv(Acted(w, r)) && Extends(w, Acted(w, r), r.id)
  {
    var current := Current(w, r.id, Default(r));
    var stopped := Stopped(w, r);
    SidesKeepTable(w, r, current);
    SameTableKeepsInv(w, stopped);
    CurrentIsLast(w, r.id, Default(r));
    assert SessionOk(stopped, r.id);
    WalkKeepsInv(stopped, r.id, Steps(r, current));
    var walked := Walked(stopped, r.id, current, Steps(r, current));
    SidesKeepTable(walked, r, current);
    SameTableKeepsInv(walked, Acted(w, r));
    SameTableExtends(w, stopped, walked, Acted(w, r), r.id);
  }

  lemma HandledKeepsInv(w: World, r: Request)
    requires Inv(w)
    ensures Inv(Handled(w, r))
    ensures r.id in w.statuses ==> Extends(w, Handled(w, r), r.id)
  {
    OpenedKeepsInv(w, r.id);
    if r.id in w.statuses { ActedKeepsInv(w, r); }
  }

  // Restarts.

  /** A status that says a process of the core is at work on the session. */
  predicate Interrupted(text: string) {
    text in {"starting", "running", "waiting_for_approval", "waiting_for_user"}
  }

  /** A restart of the core: such sessions are marked disconnected in the table,
      with nothing announced, and the registry is gone. */
  function Restarted(w: World): World {
    w.(statuses := map id | id in w.statuses ::
         if Interrupted(w.statuses[id]) then AsText(Disconnected) else w.statuses[id],
       written := map id | id in w.written ::
         if id in w.statuses && Interrupted(w.statuses[id]) then w.written[id] + [Disconnected] else w.written[id],
       registry := map[])
  }

  lemma InterruptedIff(s: SessionState)
    ensures Interrupted(AsText(s)) <==> s in {Starting, Running, WaitingForApproval, WaitingForUser}
  {
  }

  /** A restart keeps to the table: where it writes, the step is one of it. */
  lemma RestartKeepsInv(w: World)
    requires Inv(w)
    ensures Inv(Restarted(w)) && Grows(w, Restarted(w))
  {
    forall id | id in w.statuses ensures SessionOk(Restarted(w), id) && Written(w, id) <= Written(Restarted(w), id) {
      RestartKeepsSession(w, id);
    }
  }

  lemma RestartKeepsSession(w: World, id: Id)
    requires SessionOk(w, id)
    ensures SessionOk(Restarted(w), id) && Written(w, id) <= Written(Restarted(w), id)
  {
    InterruptedIff(Last(w.written[id]));
    if Interrupted(w.statuses[id]) { PathGrows(w.written[id], Disconnected); }
  }

  /** Afterwards no session claims to be at work, and exactly those that did are
      disconnected by it. */
  lemma RestartDisconnectsIff(w: World, id: Id)
    requires Inv(w) && id in w.statuses
    ensures var now := Current(Restarted(w), id, Created);
            && !IsActive(now) && now != Starting
            && (now == Disconnected <==>
                  (Current(w, id, Created) in {Starting, Running, WaitingForApproval, WaitingForUser, Disconnected}))
            && (now != Disconnected ==> now == Current(w, id, Created))
    ensures Restarted(w).registry == map[] && Restarted(w).emitted == w.emitted
  {
    CurrentIsLast(w, id, Created);
    RestartKeepsInv(w);
    CurrentIsLast(Restarted(w), id, Created);
    InterruptedIff(Last(w.written[id]));
  }

  /** What happens to the sessions: requests, one at a time, and restarts. */
  datatype Occurrence = Ask(request: Request) | Restart

  function Step(w: World, o: Occurrence): World {
    match o
    case Ask(request) => Handled(w, request)
    case Restart => Restarted(w)
  }

  function AfterAll(w: World, run: seq<Occurrence>): World
    decreases |run|
  {
    if run == [] then w else AfterAll(Step(w, run[0]), run[1..])
  }

  /** No session is lost and no history is rewritten. */
  ghost predicate Grows(w: World, t: World) {
    forall id | id in w.statuses :: id in t.statuses && Written(w, id) <= Written(t, id)
  }

  lemma HandledGrows(w: World, r: Request)
    requires Inv(w)
    ensures Grows(w, Handled(w, r))
  {
    HandledKeepsInv(w, r);
  }

  lemma GrowsIsTransitive(w: World, m: World, t: World)
    requires Grows(w, m) && Grows(m, t)
    ensures Grows(w, t)
  {
  }

  lemma {:induction false} RunKeepsInv(w: World, run: seq<Occurrence>)
    requires Inv(w)
    ensures Inv(AfterAll(w, run)) && Grows(w, AfterAll(w, run))
    decreases |run|
  {
    if run != [] {
      var next := Step(w, run[0]);
      match run[0] {
        case Ask(request) =>
          HandledKeepsInv(w, request);
          HandledGrows(w, request);
        case Restart => RestartKeepsInv(w);
      }
      RunKeepsInv(next, run[1..]);
      GrowsIsTransitive(w, next, AfterAll(w, run));
    }
  }

  /** For every run of requests and restarts: each session's durable status has
      only ever moved along the table, starting from Created. */
  lemma DurableStatusFollowsTable(run: seq<Occurrence>, id: Id)
    requires id in AfterAll(EMPTY, run).statuses
    ensures SessionOk(AfterAll(EMPTY, run), id)
  {
    RunKeepsInv(EMPTY, run);
  }

  /** An ended session keeps its status whatever is asked of it, restarts or not. */
  lemma EndedSessionsStay(w: World, run: seq<Occurrence>, id: Id)
    requires Inv(w) && id in w.statuses && IsTerminal(Current(w, id, Created))
    ensures id in AfterAll(w, run).statuses
    ensures AfterAll(w, run).statuses[id] == w.statuses[id]
    ensures Written(AfterAll(w, run), id) == Written(w, id)
  {
    var t := AfterAll(w, run);
    RunKeepsInv(w, run);
    CurrentIsLast(w, id, Created);
    assert SessionOk(w, id) && SessionOk(t, id);
    TerminalIsLast(t.written[id], |w.written[id]| - 1);
  }

  lemma RefusedAtFirst(from: SessionState, first: SessionState, rest: seq<SessionState>)
    ensures Refused(from, [first] + rest)
         == if Allowed(from, first) then Refused(first, rest) else Some(InvalidTransition(from, first))
  {
    assert ([first] + rest)[1..] == rest;
  }

  lemma StartIsLegal(from: SessionState)
    ensures Refused(from, StartSteps(from)).None?
    ensures StartSteps(from) == [] <==> IsTerminal(from) || IsActive(from)
    ensures StartSteps(from) != [] ==> Last(StartSteps(from)) == Running
  {
    RefusedAtFirst(Starting, Running, []);
    RefusedAtFirst(Recovering, Running, []);
    RefusedAtFirst(Preparing, Starting, [Running]);
    RefusedAtFirst(Disconnected, Recovering, [Running]);
    RefusedAtFirst(from, Preparing, [Starting, Running]);
  }

  /** Starting a session that has not ended succeeds, writes only legal steps,
      and leaves it active; starting one that has ended changes nothing. */
  lemma StartEndsActive(w: World, id: Id, cwd: string)
    requires Inv(w) && id in w.statuses
    ensures var r := Start(id, cwd, true);
            var t := Handled(w, r);
            && id in t.statuses
            && (IsTerminal(Current(w, id, Created)) ==> ReplyTo(w, r) == Ended && t == w)
            && (!IsTerminal(Current(w, id, Created)) ==>
                  (&& ReplyTo(w, r) == Replied(t.statuses[id]) && IsActive(Current(t, id, Created))
                   && id in t.registry && t.registry[id].cwd == cwd))
  {
    var r := Start(id, cwd, true);
    var t := Handled(w, r);
    HandledKeepsInv(w, r);
    CurrentIsLast(w, id, Created);
    CurrentIsLast(t, id, Created);
    var from := Current(w, id, Created);
    StartIsLegal(from);
    WalkWrites(w, id, from, StartSteps(from));
    assert t.written[id] == w.written[id] + StartSteps(from);
  }

  /** Cancelling is legal in every state and leaves a session that had not ended
      cancelled; it answers "cancelled" and announces it even of one that had. */
  lemma CancelAlwaysAnswers(w: World, id: Id)
    requires Inv(w) && id in w.statuses
    ensures ReplyTo(w, Cancel(id)) == Replied("cancelled")
    ensures var t := Handled(w, Cancel(id));
            && t.emitted == w.emitted + [(id, Cancelled)] && id in t.statuses
            && t.statuses[id] == (if IsTerminal(Current(w, id, Created)) then w.statuses[id] else "cancelled")
            && (id in t.registry ==> t.registry[id].activeTurn.None?)
  {
    var from := Current(w, id, Created);
    if !IsTerminal(from) {
      assert Allowed(from, Cancelled);
      assert Refused(Cancelled, [Cancelled][1..]).None?;
    }
  }

  /** Pausing succeeds from the active states and from Recovering, and nowhere else. */
  lemma PauseSucceedsIff(w: World, id: Id)
    requires Inv(w) && id in w.statuses
    ensures ReplyTo(w, Pause(id)).Replied? <==>
      IsActive(Current(w, id, Running)) || Current(w, id, Running) == Recovering
    ensures id in Handled(w, Pause(id)).statuses
    ensures Handled(w, Pause(id)).statuses[id] ==
      if ReplyTo(w, Pause(id)).Replied? then "paused" else w.statuses[id]
  {
    assert Refused(Paused, [Paused][1..]).None?;
  }

  /** Resuming never succeeds: where its first step is legal, from Paused or
      Created, that step is written and the second is refused. */
  lemma ResumeNeverSucceeds(w: World, id: Id)
    requires Inv(w) && id in w.statuses
    ensures ReplyTo(w, Resume(id)).InvalidTransition?
    ensures id in Handled(w, Resume(id)).statuses
    ensures Handled(w, Resume(id)).statuses[id] ==
      if Current(w, id, Paused) in {Paused, Created} then "preparing" else w.statuses[id]
  {
    var steps := [Preparing, Running];
    var from := Current(w, id, Paused);
    assert steps[1..] == [Running];
    assert !Allowed(Preparing, Running);
    assert Refused(Preparing, [Running]) == Some(InvalidTransition(Preparing, Running));
    if Allowed(from, Preparing) {
      var next := Announced(Persisted(w, id, Preparing), id, Preparing);
      assert Walked(next, id, Preparing, [Running]) == next;
    }
  }

  /** The request handlers, one request at a time. */
  class SessionService {
    var statuses: map<Id, string>
    var registry: map<Id, Entry>
    ghost var written: map<Id, seq<SessionState>>
    ghost var emitted: seq<(Id, SessionState)>

    ghost function Now(): World
      reads this
    {
      World(statuses, registry, written, emitted)
    }

    constructor ()
      ensures Now() == EMPTY && Inv(Now())
    {
      statuses, registry, written, emitted := map[], map[], map[], [];
    }

    method CreateSession(id: Id) returns (reply: Reply)
      modifies this
      ensures Now() == Handled(old(Now()), Create(id)) && reply == ReplyTo(old(Now()), Create(id))
    {
      if id !in statuses {
        statuses := statuses[id := AsText(Created)];
        written := written[id := [Created]];
      }
      reply := Replied(AsText(Created));
    }

    /** One step of the machine, written and announced if it is legal. */
    method TransitionSession(id: Id, machine: SessionMachine, next: SessionState) returns (error: Option<Reply>)
      modifies this, machine
      ensures Now() == if Allowed(old(machine.state), next) then Stepped(old(Now()), id, next) else old(Now())
      ensures machine.state == if Allowed(old(machine.state), next) then next else old(machine.state)
      ensures error == if Allowed(old(machine.state), next) then None
                       else Some(InvalidTransition(old(machine.state), next))
    {
      var ok := machine.Transition(next);
      if !ok { return Some(InvalidTransition(machine.state, next)); }
      written := written[id := Written(Now(), id) + [next]];
      statuses := statuses[id := AsText(next)];
      emitted := emitted + [(id, next)];
      error := None;
    }

    method StartSession(id: Id, cwd: string, providerKnown: bool) returns (reply: Reply)
      modifies this
      ensures Now() == Handled(old(Now()), Start(id, cwd, providerKnown))
      ensures reply == ReplyTo(old(Now()), Start(id, cwd, providerKnown))
    {
      if id !in statuses || !providerKnown { return NotFound; }
      var current := StateOf(statuses[id], Created);
      if IsTerminal(current) { return Ended; }
      var steps := StartSteps(current);
      var machine := new SessionMachine(current);
      var k: nat := 0;
      while k < |steps|
        invariant k <= |steps| && machine.state == (if k == 0 then current else steps[k - 1])
        invariant Walked(Now(), id, machine.state, steps[k..]) == Walked(old(Now()), id, current, steps)
        invariant Refused(machine.state, steps[k..]) == Refused(current, steps)
        invariant id in statuses && statuses[id] == if k == 0 then old(statuses)[id] else AsText(steps[k - 1])
      {
        var error := TransitionSession(id, machine, steps[k]);
        if error.Some? { return error.value; }
        assert steps[k..][1..] == steps[k + 1..];
        k := k + 1;
      }
      registry := registry[id := if id in registry then registry[id].(cwd := cwd) else Entry(cwd, None)];
      reply := Replied(statuses[id]);
    }

    /** The core starts again over the same table. */
    method RecoverInterrupted()
      modifies this
      ensures Now() == Restarted(old(Now()))
    {
      written := map id | id in written ::
        if id in statuses && Interrupted(statuses[id]) then written[id] + [Disconnected] else written[id];
      statuses := map id | id in statuses ::
        if Interrupted(statuses[id]) then AsText(Disconnected) else statuses[id];
      registry := map[];
    }

    method StopTurn(id: Id)
      modifies this`registry
      ensures Now() == TurnStopped(old(Now()), id)
    {
      if id in registry { registry := registry[id := registry[id].(activeTurn := None)]; }
    }

    method CancelSession(id: Id) returns (reply: Reply)
      modifies this
      ensures Now() == Handled(old(Now()), Cancel(id)) && reply == ReplyTo(old(Now()), Cancel(id))
    {
      if id !in statuses { return NotFound; }
      var current := StateOf(statuses[id], Created);
      StopTurn(id);
      if IsTerminal(current) {
        emitted := emitted + [(id, Cancelled)];
      } else {
        ghost var stopped := Now();
        var machine := new SessionMachine(current);
        var error := TransitionSession(id, machine, Cancelled);
        assert Now() == Walked(stopped, id, current, [Cancelled]) by { WalkOne(stopped, id, current, Cancelled); }
        if error.Some? { return error.value; }
      }
      reply := Replied("cancelled");
    }

    method PauseSession(id: Id) returns (reply: Reply)
      modifies this
      ensures Now() == Handled(old(Now()), Pause(id)) && reply == ReplyTo(old(Now()), Pause(id))
    {
      if id !in statuses { return NotFound; }
      var current := StateOf(statuses[id], Running);
      StopTurn(id);
      WalkOne(Now(), id, current, Paused);
      var machine := new SessionMachine(current);
      var error := TransitionSession(id, machine, Paused);
      if error.Some? { return error.value; }
      reply := Replied("paused");
    }

    method ResumeSession(id: Id) returns (reply: Reply)
      modifies this
      ensures Now() == Handled(old(Now()), Resume(id)) && reply == ReplyTo(old(Now()), Resume(id))
    {
      if id !in statuses { return NotFound; }
      var current := StateOf(statuses[id], Paused);
      assert [Preparing, Running][1..] == [Running];
      var machine := new SessionMachine(current);
      var error := TransitionSession(id, machine, Preparing);
      if error.Some? { return error.value; }
      WalkOne(Now(), id, Preparing, Running);
      error := TransitionSession(id, machine, Running);
      if error.Some? { return error.value; }
      reply := Replied("running");
    }
  }

  lemma WalkOne(w: World, id: Id, from: SessionState, next: SessionState)
    ensures Walked(w, id, from, [next]) == if Allowed(from, next) then Stepped(w, id, next) else w
    ensures Refused(from, [next]) == if Allowed(from, next) then None else Some(InvalidTransition(from, next))
  {
    assert [next][1..] == [];
  }
}
