/** The browser service's request loop over standard input and output: admission,
    cancellation, one mutation at a time, and one reply per line. */
module StdioServer {
  import opened Common
  import opened JsonValue
  import opened Utf16

  const MAX_ACTIVE_REQUESTS: nat := 64
  const PROTOCOL_VERSION: int := 1

  datatype Method = ReadOnly | Mutating | VerificationRun(runId: Option<string>)

  /** A line of input, as far as the loop looks at it. `closes` is whether closing
      the browser, which a shutdown waits for, goes through. */
  datatype Line =
    | Unreadable
    | Hello(id: nat, token: Units, version: Option<Json>)
    | Immediate(id: nat)
    | Shutdown(id: nat, closes: bool)
    | CancelRequest(id: nat, target: Option<nat>)
    | CancelRun(id: nat, runId: Option<string>)
    | Invoke(id: nat, kind: Method)

  datatype Phase = Waiting | Running | Replied

  /** An admitted call; `token` identifies its abort controller. */
  datatype Call = Call(mutating: bool, run: Option<string>, token: nat, phase: Phase, aborted: bool)

  /** A reply the loop itself is about to write; `last` ends the loop. */
  datatype Owed = Owed(id: nat, last: bool)

  /** What a process is started with: the token it requires, empty for none, and how
      many nested arrays its stack has room for. */
  datatype Config = Config(required: Units, nesting: nat)

  /** `crashed` is whether an exception has ended the process. `chain` lists the
      mutating calls not yet settled, in order of arrival. The last five fields are
      the history of the connection: the id each line is answered under, the ids of
      the replies written and of the line lost to a crash, and the mutating ids in
      the order they arrived and started. */
  datatype State = State(
    config: Config, crashed: bool, authenticated: bool, reading: bool, owed: Option<Owed>,
    active: map<nat, Call>, verifications: map<string, nat>, chain: seq<nat>, nextToken: nat,
    received: seq<nat>, replies: seq<nat>, lost: seq<nat>, arrived: seq<nat>, started: seq<nat>)

  datatype Step =
    | Receive(line: Line)
    | WriteOwed
    | StartMutation
    | Reply(id: nat)
    | Retire(id: nat)
    | EndOfInput

  function Fresh(config: Config): State {
    State(config, false, config.required == [], true, None, map[], map[], [], 0, [], [], [], [], [])
  }

  function LineId(line: Line): nat {
    if line.Unreadable? then 0 else line.id
  }

  function RunOf(kind: Method): Option<string> {
    if kind.VerificationRun? && kind.runId.Some? && kind.runId.value != ""
    then kind.runId else None
  }

  /** Aborts the calls whose controller is `token`. */
  function Aborted(active: map<nat, Call>, token: nat): map<nat, Call> {
    map id | id in active ::
      if active[id].token == token then active[id].(aborted := true) else active[id]
  }

  function Owing(s: State, id: nat): State { s.(owed := Some(Owed(id, false))) }

  function Admitted(s: State, id: nat, kind: Method): State {
    var run := RunOf(kind);
    var mutating := !kind.ReadOnly?;
    s.(active := s.active[id := Call(mutating, run, s.nextToken,
                                     if mutating then Waiting else Running, false)],
       verifications := if run.Some? then s.verifications[run.value := s.nextToken] else s.verifications,
       chain := if mutating then s.chain + [id] else s.chain,
       arrived := if mutating then s.arrived + [id] else s.arrived,
       nextToken := s.nextToken + 1)
  }

  predicate Refused(s: State, id: nat, kind: Method) {
    || |s.active| >= MAX_ACTIVE_REQUESTS || id in s.active
    || (RunOf(kind).Some? && RunOf(kind).value in s.verifications)
  }

  /** An exception leaves the loop while line `id` is being handled. */
  function Crashed(s: State, id: nat): State {
    s.(crashed := true, reading := false, lost := s.lost + [id])
  }

  /** The version a client speaks: the right one, another, which the reply names, or
      one that cannot be turned into a text. */
  datatype Version = Right | Wrong | Unnamable

  function Supplied(version: Option<Json>, nesting: nat): Version {
    if version == Some(Number(PROTOCOL_VERSION)) then Right
    else if version.None? || HasText(version.value, nesting) then Wrong
    else Unnamable
  }

  datatype Greeting = Welcome | Rebuff | Exception

  /** What comes of a hello line: the token is compared first, and only a client
      with the right one is told that its version is wrong. */
  function GreetingOf(token: Units, version: Option<Json>, config: Config): Greeting {
    match Compared(token, config.required)
    case Throws => Exception
    case Differs => Rebuff
    case Matches =>
      match Supplied(version, config.nesting)
      case Right => Welcome
      case Wrong => Rebuff
      case Unnamable => Exception
  }

  /** A hello line; an exception leaves the loop at once. */
  function Greeted(s: State, id: nat, token: Units, version: Option<Json>): State {
    match GreetingOf(token, version, s.config)
    case Welcome => Owing(s.(authenticated := true), id)
    case Rebuff => Owing(s, id)
    case Exception => Crashed(s, id)
  }

  function RequestAborted(s: State, target: Option<nat>): State {
    if target.Some? && target.value in s.active
    then s.(active := Aborted(s.active, s.active[target.value].token)) else s
  }

  function RunAborted(s: State, runId: Option<string>): State {
    if runId.Some? && runId.value in s.verifications
    then s.(active := Aborted(s.active, s.verifications[runId.value])) else s
  }

  function Received(s: State, line: Line): State {
    var t := s.(received := s.received + [LineId(line)]);
    match line
    case Unreadable => Owing(t, 0)
    case Hello(id, token, version) => Greeted(t, id, token, version)
    case _ => if s.authenticated then Commanded(t, line) else Owing(t, LineId(line))
  }

  function Commanded(s: State, line: Line): State {
    match line
    case Shutdown(id, closes) => if closes then s.(owed := Some(Owed(id, true))) else Crashed(s, id)
    case CancelRequest(id, target) => Owing(RequestAborted(s, target), id)
    case CancelRun(id, runId) => Owing(RunAborted(s, runId), id)
    case Invoke(id, kind) => if Refused(s, id, kind) then Owing(s, id) else Admitted(s, id, kind)
    case _ => Owing(s, LineId(line))
  }

  /** Leaving the loop: abort everything and forget the verification runs. */
  function Closed(s: State): State {
    s.(reading := false, verifications := map[],
       active := map id | id in s.active :: s.active[id].(aborted := true))
  }

  /** An exception out of the loop ends the process, and everything with it. */
  predicate Enabled(s: State, step: Step) {
    !s.crashed &&
    match step
    case Receive(_) => s.reading && s.owed.None?
    case WriteOwed => s.owed.Some?
    case StartMutation =>
      s.chain != [] && s.chain[0] in s.active && s.active[s.chain[0]].phase == Waiting
    case Reply(id) => id in s.active && s.active[id].phase == Running
    case Retire(id) => id in s.active && s.active[id].phase == Replied
    case EndOfInput => s.reading && s.owed.None?
  }

  function SetPhase(s: State, id: nat, phase: Phase): State
    requires id in s.active
  {
    s.(active := s.active[id := s.active[id].(phase := phase)])
  }

  function Retired(s: State, id: nat): State
    requires id in s.active
  {
    var call := s.active[id];
    s.(active := s.active - {id},
       verifications := if call.run.Some? && call.run.value in s.verifications
                           && s.verifications[call.run.value] == call.token
                        then s.verifications - {call.run.value} else s.verifications,
       chain := if call.mutating then Behind(s.chain) else s.chain)
  }

  function Next(s: State, step: Step): State
    requires Enabled(s, step)
  {
    match step
    case Receive(line) => Received(s, line)
    case WriteOwed =>
      var t := s.(owed := None, replies := s.replies + [s.owed.value.id]);
      if s.owed.value.last then Closed(t) else t
    case StartMutation =>
      SetPhase(s.(started := s.started + [s.chain[0]]), s.chain[0], Running)
    case Reply(id) => SetPhase(s.(replies := s.replies + [id]), id, Replied)
    case Retire(id) => Retired(s, id)
    case EndOfInput => Closed(s)
  }

  // Invariants.

  function Unreplied(active: map<nat, Call>): set<nat> {
    set id | id in active && active[id].phase != Replied
  }

  function OwedIds(owed: Option<Owed>): multiset<nat> {
    if owed.Some? then multiset{owed.value.id} else multiset{}
  }

  /** Every line is answered once, is still owed an answer, or is lost to a crash. */
  ghost predicate Conserved(s: State) {
    && multiset(s.received)
       == multiset(s.replies) + multiset(Unreplied(s.active)) + OwedIds(s.owed) + multiset(s.lost)
    && |s.lost| == if s.crashed then 1 else 0
  }

  ghost predicate TokensOk(active: map<nat, Call>, nextToken: nat) {
    && (forall i | i in active :: active[i].token < nextToken)
    && (forall i, j | i in active && j in active :: active[i].token == active[j].token ==> i == j)
  }

  predicate Holds(active: map<nat, Call>, i: nat, r: string, token: nat) {
    i in active && active[i].run == Some(r) && active[i].token == token
  }

  /** The verification map gives each run the one active call that has it. */
  ghost predicate RunsOk(active: map<nat, Call>, verifications: map<string, nat>, reading: bool) {
    && (forall r | r in verifications :: exists i :: Holds(active, i, r, verifications[r]))
    && (reading ==> forall i | i in active && active[i].run.Some? ::
          var r := active[i].run.value;
          r in verifications && verifications[r] == active[i].token)
  }

  function Behind(chain: seq<nat>): seq<nat> {
    if chain == [] then [] else chain[1..]
  }

  ghost predicate Distinct(chain: seq<nat>)
    decreases |chain|
  {
    chain == [] || (chain[0] !in chain[1..] && Distinct(chain[1..]))
  }

  /** Mutating calls form a queue of which only the front has begun. */
  ghost predicate ChainOk(active: map<nat, Call>, chain: seq<nat>) {
    && Distinct(chain)
    && (forall id | id in chain :: id in active && active[id].mutating)
    && (forall id | id in active && active[id].mutating :: id in chain)
    && (forall id | id in Behind(chain) :: id in active && active[id].phase == Waiting)
    && (forall id | id in active && !active[id].mutating :: active[id].phase != Waiting)
  }

  predicate FrontBegun(active: map<nat, Call>, chain: seq<nat>) {
    chain != [] && chain[0] in active && active[chain[0]].phase != Waiting
  }

  /** The mutating calls that have not started. */
  function Unstarted(active: map<nat, Call>, chain: seq<nat>): seq<nat> {
    if FrontBegun(active, chain) then Behind(chain) else chain
  }

  ghost predicate FifoOk(s: State) {
    s.arrived == s.started + Unstarted(s.active, s.chain)
  }

  ghost predicate Inv(s: State) {
    && |s.active| <= MAX_ACTIVE_REQUESTS && Conserved(s)
    && TokensOk(s.active, s.nextToken) && RunsOk(s.active, s.verifications, s.reading)
    && ChainOk(s.active, s.chain) && FifoOk(s)
  }

  /** The same calls at the same point, whether aborted or not. */
  ghost predicate SameButAborts(a: map<nat, Call>, b: map<nat, Call>) {
    a.Keys == b.Keys && forall id | id in a :: b[id] == a[id].(aborted := b[id].aborted)
  }

  lemma AbortsKeepRuns(a: map<nat, Call>, b: map<nat, Call>, verifications: map<string, nat>, reading: bool)
    requires SameButAborts(a, b) && RunsOk(a, verifications, reading)
    ensures RunsOk(b, verifications, reading)
  {
    forall r | r in verifications ensures exists i :: Holds(b, i, r, verifications[r]) {
      var i :| Holds(a, i, r, verifications[r]);
      assert Holds(b, i, r, verifications[r]);
    }
  }

  lemma AbortsKeepInv(s: State, active: map<nat, Call>)
    requires Inv(s) && SameButAborts(s.active, active)
    ensures Inv(s.(active := active))
  {
    assert |active.Keys| == |s.active.Keys|;
    assert Unreplied(active) == Unreplied(s.active);
    AbortsKeepRuns(s.active, active, s.verifications, s.reading);
    assert Unstarted(active, s.chain) == Unstarted(s.active, s.chain);
  }

  lemma OweKeepsInv(s: State, id: nat, last: bool)
    requires Inv(s) && s.owed.None?
    ensures Inv(s.(received := s.received + [id], owed := Some(Owed(id, last))))
  {
  }

  lemma InsertIntoMultiset(ids: set<nat>, id: nat)
    requires id !in ids
    ensures multiset(ids + {id}) == multiset(ids) + multiset{id}
  {
  }

  lemma CallsGrowByOne(active: map<nat, Call>, id: nat, call: Call)
    requires id !in active
    ensures |active[id := call]| == |active| + 1
  {
    assert active[id := call].Keys == active.Keys + {id};
  }

  lemma AdmitCounts(active: map<nat, Call>, id: nat, call: Call)
    requires id !in active && call.phase != Replied
    ensures multiset(Unreplied(active[id := call])) == multiset(Unreplied(active)) + multiset{id}
  {
    assert Unreplied(active[id := call]) == Unreplied(active) + {id};
    InsertIntoMultiset(Unreplied(active), id);
  }

  lemma ReplyCounts(active: map<nat, Call>, id: nat)
    requires id in active && active[id].phase != Replied
    ensures var after := active[id := active[id].(phase := Replied)];
            multiset(Unreplied(active)) == multiset(Unreplied(after)) + multiset{id}
  {
    var after := active[id := active[id].(phase := Replied)];
    assert Unreplied(active) == Unreplied(after) + {id};
    InsertIntoMultiset(Unreplied(after), id);
  }

  lemma AdmitConserves(s: State, id: nat, kind: Method)
    requires Conserved(s) && s.owed.None? && id !in s.active
    ensures Conserved(Admitted(s.(received := s.received + [id]), id, kind))
  {
    AdmitCounts(s.active, id, Admitted(s, id, kind).active[id]);
  }

  lemma AdmitKeepsTokens(active: map<nat, Call>, id: nat, call: Call)
    requires TokensOk(active, call.token) && id !in active
    ensures TokensOk(active[id := call], call.token + 1)
  {
  }

  lemma AdmitKeepsRuns(s: State, id: nat, kind: Method)
    requires RunsOk(s.active, s.verifications, s.reading) && !Refused(s, id, kind)
    ensures var t := Admitted(s, id, kind); RunsOk(t.active, t.verifications, s.reading)
  {
    var t := Admitted(s, id, kind);
    forall r | r in t.verifications ensures exists i :: Holds(t.active, i, r, t.verifications[r]) {
      if RunOf(kind) == Some(r) {
        assert Holds(t.active, id, r, t.verifications[r]);
      } else {
        var i :| Holds(s.active, i, r, s.verifications[r]);
        assert Holds(t.active, i, r, t.verifications[r]);
      }
    }
  }

  lemma {:induction false} AppendDistinct(chain: seq<nat>, id: nat)
    requires Distinct(chain) && id !in chain
    ensures Distinct(chain + [id])
    decreases |chain|
  {
    if chain != [] {
      AppendDistinct(chain[1..], id);
      assert (chain + [id])[1..] == chain[1..] + [id];
    }
  }

  lemma AdmitKeepsChain(active: map<nat, Call>, chain: seq<nat>, id: nat, call: Call)
    requires ChainOk(active, chain) && id !in active
    requires call.phase == (if call.mutating then Waiting else Running)
    ensures ChainOk(active[id := call], if call.mutating then chain + [id] else chain)
  {
    if call.mutating {
      AppendDistinct(chain, id);
      assert chain != [] ==> Behind(chain + [id]) == Behind(chain) + [id];
    }
  }

  lemma AdmitKeepsFifo(active: map<nat, Call>, chain: seq<nat>, id: nat, call: Call)
    requires ChainOk(active, chain) && id !in active
    requires call.phase == (if call.mutating then Waiting else Running)
    ensures Unstarted(active[id := call], if call.mutating then chain + [id] else chain)
         == if call.mutating then Unstarted(active, chain) + [id] else Unstarted(active, chain)
  {
    assert chain != [] ==> chain[0] in active;
    assert chain != [] ==> Behind(chain + [id]) == Behind(chain) + [id];
  }

  lemma AdmitKeepsInv(s: State, id: nat, kind: Method)
    requires Inv(s) && s.owed.None? && !Refused(s, id, kind)
    ensures Inv(Admitted(s.(received := s.received + [id]), id, kind))
  {
    var t := Admitted(s.(received := s.received + [id]), id, kind);
    AdmitConserves(s, id, kind);
    CallsGrowByOne(s.active, id, t.active[id]);
    AdmitKeepsTokens(s.active, id, t.active[id]);
    AdmitKeepsRuns(s, id, kind);
    AdmitKeepsChain(s.active, s.chain, id, t.active[id]);
    AdmitKeepsFifo(s.active, s.chain, id, t.active[id]);
  }

  lemma RequestAbortedKeepsInv(s: State, target: Option<nat>)
    requires Inv(s)
    ensures Inv(RequestAborted(s, target)) && RequestAborted(s, target).owed == s.owed
  {
    if target.Some? && target.value in s.active { AbortsKeepInv(s, RequestAborted(s, target).active); }
  }

  lemma RunAbortedKeepsInv(s: State, runId: Option<string>)
    requires Inv(s)
    ensures Inv(RunAborted(s, runId)) && RunAborted(s, runId).owed == s.owed
  {
    if runId.Some? && runId.value in s.verifications { AbortsKeepInv(s, RunAborted(s, runId).active); }
  }

  lemma CancelRequestKeepsInv(s: State, id: nat, target: Option<nat>)
    requires Inv(s) && s.owed.None?
    ensures Inv(Owing(RequestAborted(s.(received := s.received + [id]), target), id))
  {
    RequestAbortedKeepsInv(s, target);
    OweKeepsInv(RequestAborted(s, target), id, false);
  }

  lemma CancelRunKeepsInv(s: State, id: nat, runId: Option<string>)
    requires Inv(s) && s.owed.None?
    ensures Inv(Owing(RunAborted(s.(received := s.received + [id]), runId), id))
  {
    RunAbortedKeepsInv(s, runId);
    OweKeepsInv(RunAborted(s, runId), id, false);
  }

  lemma CrashKeepsInv(s: State, id: nat)
    requires Inv(s) && !s.crashed
    ensures Inv(Crashed(s.(received := s.received + [id]), id))
  {
  }

  lemma HelloKeepsInv(s: State, id: nat, token: Units, version: Option<Json>)
    requires Inv(s) && !s.crashed && s.owed.None?
    ensures Inv(Greeted(s.(received := s.received + [id]), id, token, version))
  {
    OweKeepsInv(s, id, false);
    CrashKeepsInv(s, id);
  }

  lemma CommandKeepsInv(s: State, line: Line)
    requires Inv(s) && !s.crashed && s.reading && s.owed.None? && !line.Hello? && !line.Unreadable?
    ensures Inv(Commanded(s.(received := s.received + [LineId(line)]), line))
  {
    match line
    case Shutdown(id, closes) => if closes { OweKeepsInv(s, id, true); } else { CrashKeepsInv(s, id); }
    case CancelRequest(id, target) => CancelRequestKeepsInv(s, id, target);
    case CancelRun(id, runId) => CancelRunKeepsInv(s, id, runId);
    case Invoke(id, kind) => if Refused(s, id, kind) { OweKeepsInv(s, id, false); } else { AdmitKeepsInv(s, id, kind); }
    case _ => OweKeepsInv(s, LineId(line), false);
  }

  lemma ReceiveKeepsInv(s: State, line: Line)
    requires Inv(s) && Enabled(s, Receive(line))
    ensures Inv(Received(s, line))
  {
    match line
    case Unreadable => OweKeepsInv(s, 0, false);
    case Hello(id, token, version) => HelloKeepsInv(s, id, token, version);
    case _ => if s.authenticated { CommandKeepsInv(s, line); } else { OweKeepsInv(s, LineId(line), false); }
  }

  lemma CloseKeepsInv(s: State)
    requires Inv(s)
    ensures Inv(Closed(s))
  {
    AbortsKeepInv(s, Closed(s).active);
  }

  lemma PaidKeepsInv(s: State)
    requires Inv(s) && s.owed.Some?
    ensures Inv(s.(owed := None, replies := s.replies + [s.owed.value.id]))
  {
  }

  lemma WriteOwedKeepsInv(s: State)
    requires Inv(s) && Enabled(s, WriteOwed)
    ensures Inv(Next(s, WriteOwed))
  {
    PaidKeepsInv(s);
    CloseKeepsInv(s.(owed := None, replies := s.replies + [s.owed.value.id]));
  }

  lemma PhaseKeepsRuns(s: State, id: nat, phase: Phase)
    requires TokensOk(s.active, s.nextToken) && RunsOk(s.active, s.verifications, s.reading) && id in s.active
    ensures var t := SetPhase(s, id, phase);
            TokensOk(t.active, t.nextToken) && RunsOk(t.active, t.verifications, t.reading)
            && |t.active| == |s.active|
  {
    var t := SetPhase(s, id, phase);
    assert t.active.Keys == s.active.Keys;
    assert |t.active.Keys| == |s.active.Keys|;
    forall r | r in t.verifications ensures exists i :: Holds(t.active, i, r, t.verifications[r]) {
      var i :| Holds(s.active, i, r, s.verifications[r]);
      assert Holds(t.active, i, r, t.verifications[r]);
    }
  }

  lemma StartKeepsChain(active: map<nat, Call>, chain: seq<nat>)
    requires ChainOk(active, chain) && chain != [] && chain[0] in active && active[chain[0]].phase == Waiting
    ensures var after := active[chain[0] := active[chain[0]].(phase := Running)];
            ChainOk(after, chain) && [chain[0]] + Unstarted(after, chain) == Unstarted(active, chain)
  {
    assert chain[0] !in Behind(chain);
    assert chain == [chain[0]] + Behind(chain);
  }

  lemma StartKeepsFifo(s: State)
    requires ChainOk(s.active, s.chain) && FifoOk(s) && Enabled(s, StartMutation)
    ensures FifoOk(Next(s, StartMutation))
  {
    StartKeepsChain(s.active, s.chain);
    var t := Next(s, StartMutation);
    assert t.started + Unstarted(t.active, t.chain) == s.started + ([s.chain[0]] + Unstarted(t.active, t.chain));
  }

  lemma StartConserves(active: map<nat, Call>, id: nat)
    requires id in active && active[id].phase == Waiting
    ensures Unreplied(active[id := active[id].(phase := Running)]) == Unreplied(active)
  {
  }

  lemma StartKeepsInv(s: State)
    requires Inv(s) && Enabled(s, StartMutation)
    ensures Inv(Next(s, StartMutation))
  {
    var front := s.chain[0];
    PhaseKeepsRuns(s, front, Running);
    StartKeepsChain(s.active, s.chain);
    StartKeepsFifo(s);
    StartConserves(s.active, front);
    assert Conserved(Next(s, StartMutation));
  }

  lemma ReplyKeepsChain(active: map<nat, Call>, chain: seq<nat>, id: nat)
    requires ChainOk(active, chain) && id in active && active[id].phase == Running
    ensures var after := active[id := active[id].(phase := Replied)];
            ChainOk(after, chain) && Unstarted(after, chain) == Unstarted(active, chain)
  {
    assert id !in Behind(chain);
  }

  lemma ReplyKeepsInv(s: State, id: nat)
    requires Inv(s) && Enabled(s, Reply(id))
    ensures Inv(Next(s, Reply(id)))
  {
    var t := Next(s, Reply(id));
    PhaseKeepsRuns(s, id, Replied);
    ReplyKeepsChain(s.active, s.chain, id);
    ReplyCounts(s.active, id);
    assert Conserved(t);
  }

  lemma RetireKeepsRuns(s: State, id: nat)
    requires TokensOk(s.active, s.nextToken) && RunsOk(s.active, s.verifications, s.reading) && id in s.active
    ensures var t := Retired(s, id);
            TokensOk(t.active, t.nextToken) && RunsOk(t.active, t.verifications, t.reading)
  {
    var t := Retired(s, id);
    forall r | r in t.verifications ensures exists i :: Holds(t.active, i, r, t.verifications[r]) {
      var i :| Holds(s.active, i, r, s.verifications[r]);
      assert Holds(t.active, i, r, t.verifications[r]);
    }
  }

  lemma RetireKeepsChain(s: State, id: nat)
    requires ChainOk(s.active, s.chain) && Enabled(s, Retire(id))
    ensures var t := Retired(s, id);
            ChainOk(t.active, t.chain) && Unstarted(t.active, t.chain) == Unstarted(s.active, s.chain)
  {
    var t := Retired(s, id);
    if s.active[id].mutating {
      assert s.chain == [s.chain[0]] + Behind(s.chain);
      assert s.chain[0] == id;
      assert t.chain == Behind(s.chain);
      if t.chain != [] {
        assert t.chain == [t.chain[0]] + Behind(t.chain);
        assert t.chain[0] in t.chain;
      }
    } else {
      assert id !in s.chain;
      assert FrontBegun(t.active, t.chain) == FrontBegun(s.active, s.chain);
    }
  }

  lemma RetireKeepsInv(s: State, id: nat)
    requires Inv(s) && Enabled(s, Retire(id))
    ensures Inv(Next(s, Retire(id)))
  {
    var t := Retired(s, id);
    RetireKeepsRuns(s, id);
    RetireKeepsChain(s, id);
    assert Unreplied(t.active) == Unreplied(s.active);
    assert t.active.Keys == s.active.Keys - {id};
    assert |t.active.Keys| <= |s.active.Keys|;
  }

  lemma StepKeepsInv(s: State, step: Step)
    requires Inv(s) && Enabled(s, step)
    ensures Inv(Next(s, step))
  {
    match step
    case Receive(line) => ReceiveKeepsInv(s, line);
    case WriteOwed => WriteOwedKeepsInv(s);
    case StartMutation => StartKeepsInv(s);
    case Reply(id) => ReplyKeepsInv(s, id);
    case Retire(id) => RetireKeepsInv(s, id);
    case EndOfInput => CloseKeepsInv(s);
  }

  // Whole connections.

  lemma FreshIsInv(config: Config)
    ensures Inv(Fresh(config))
  {
    assert Unreplied(Fresh(config).active) == {};
  }

  ghost predicate Run(s: State, steps: seq<Step>)
    decreases |steps|
  {
    steps == [] || (Enabled(s, steps[0]) && Run(Next(s, steps[0]), steps[1..]))
  }

  ghost function After(s: State, steps: seq<Step>): State
    requires Run(s, steps)
    decreases |steps|
  {
    if steps == [] then s else After(Next(s, steps[0]), steps[1..])
  }

  lemma {:induction false} RunKeepsInv(s: State, steps: seq<Step>)
    requires Inv(s) && Run(s, steps)
    ensures Inv(After(s, steps))
    decreases |steps|
  {
    if steps != [] {
      StepKeepsInv(s, steps[0]);
      RunKeepsInv(Next(s, steps[0]), steps[1..]);
    }
  }

  /** A mutating call that has begun and not settled. */
  predicate Begun(s: State, id: nat) {
    id in s.active && s.active[id].mutating && s.active[id].phase != Waiting
  }

  lemma CountsAgree(s: State)
    requires Conserved(s)
    ensures |s.received| == |s.replies| + |Unreplied(s.active)| + (if s.owed.Some? then 1 else 0)
                            + (if s.crashed then 1 else 0)
  {
    assert |multiset(s.received)|
        == |multiset(s.replies) + multiset(Unreplied(s.active)) + OwedIds(s.owed) + multiset(s.lost)|;
  }

  lemma OneHasBegun(s: State)
    requires ChainOk(s.active, s.chain)
    ensures forall i, j | Begun(s, i) && Begun(s, j) :: i == j
  {
    forall i, j | Begun(s, i) && Begun(s, j) ensures i == j {
      assert s.chain == [s.chain[0]] + Behind(s.chain);
      assert i == s.chain[0] && j == s.chain[0];
    }
  }

  /** At every point of every connection: lines read equal replies written plus
      calls still to be answered plus the reply the loop is writing plus the line,
      if any, lost to a crash, id by id; at most 64 calls are active; at most one
      mutating call has begun and not settled; and mutating calls start in order
      of arrival. */
  lemma EveryLineAnsweredOnce(config: Config, steps: seq<Step>)
    requires Run(Fresh(config), steps)
    ensures var s := After(Fresh(config), steps);
            && multiset(s.received)
               == multiset(s.replies) + multiset(Unreplied(s.active)) + OwedIds(s.owed) + multiset(s.lost)
            && |s.received| == |s.replies| + |Unreplied(s.active)| + (if s.owed.Some? then 1 else 0)
                               + (if s.crashed then 1 else 0)
            && |s.active| <= MAX_ACTIVE_REQUESTS
            && s.started <= s.arrived
            && (forall i, j | Begun(s, i) && Begun(s, j) :: i == j)
  {
    var s := After(Fresh(config), steps);
    FreshIsInv(config);
    RunKeepsInv(Fresh(config), steps);
    CountsAgree(s);
    OneHasBegun(s);
  }

  /** A hello line that makes the loop throw. */
  predicate Throwing(step: Step, config: Config) {
    step.Receive? && step.line.Hello? && GreetingOf(step.line.token, step.line.version, config) == Exception
  }

  /** A line that ends the process: such a hello, or, after the handshake, a
      shutdown that fails to close the browser. */
  predicate Crashing(step: Step, authenticated: bool, config: Config) {
    || Throwing(step, config)
    || (authenticated && step.Receive? && step.line.Shutdown? && !step.line.closes)
  }

  predicate Handshake(step: Step, config: Config) {
    step.Receive? && step.line.Hello? && GreetingOf(step.line.token, step.line.version, config) == Welcome
  }

  /** Among the lines there is one that ends the process. */
  predicate SomeLineCrashes(steps: seq<Step>, authenticated: bool, config: Config)
    decreases |steps|
  {
    steps != [] && (|| Crashing(steps[0], authenticated, config)
                    || SomeLineCrashes(steps[1..], authenticated || Handshake(steps[0], config), config))
  }

  lemma CrashOfLine(s: State, line: Line)
    requires Enabled(s, Receive(line))
    ensures var t, step := Received(s, line), Receive(line);
            && t.config == s.config && (t.crashed <==> Crashing(step, s.authenticated, s.config))
            && (t.authenticated <==> s.authenticated || Handshake(step, s.config))
  {
    if !line.Hello? && !line.Unreadable? && s.authenticated {
      CrashOfCommand(s.(received := s.received + [LineId(line)]), line);
    }
  }

  lemma CrashOfCommand(s: State, line: Line)
    requires !s.crashed && s.authenticated && !line.Hello?
    ensures var t := Commanded(s, line);
            && t.config == s.config && t.authenticated
            && (t.crashed <==> Crashing(Receive(line), true, s.config))
  {
  }

  lemma CrashOfStep(s: State, step: Step)
    requires Enabled(s, step)
    ensures var t := Next(s, step);
            && t.config == s.config && (t.crashed <==> Crashing(step, s.authenticated, s.config))
            && (t.authenticated <==> s.authenticated || Handshake(step, s.config))
  {
    if step.Receive? { CrashOfLine(s, step.line); }
  }

  lemma {:induction false} CrashesIff(s: State, steps: seq<Step>)
    requires Run(s, steps) && !s.crashed
    ensures After(s, steps).crashed <==> SomeLineCrashes(steps, s.authenticated, s.config)
    decreases |steps|
  {
    if steps != [] {
      CrashOfStep(s, steps[0]);
      if !Next(s, steps[0]).crashed { CrashesIff(Next(s, steps[0]), steps[1..]); }
    }
  }

  /** So every line is answered, or still owed an answer, exactly when no line
      ends the process. */
  lemma EveryLineAnsweredIff(config: Config, steps: seq<Step>)
    requires Run(Fresh(config), steps)
    ensures var s := After(Fresh(config), steps);
            multiset(s.received) == multiset(s.replies) + multiset(Unreplied(s.active)) + OwedIds(s.owed)
            <==> !SomeLineCrashes(steps, config.required == [], config)
  {
    var s := After(Fresh(config), steps);
    FreshIsInv(config);
    RunKeepsInv(Fresh(config), steps);
    CrashesIff(Fresh(config), steps);
    LostMatters(multiset(s.replies) + multiset(Unreplied(s.active)) + OwedIds(s.owed), s.lost);
  }

  lemma LostMatters(answered: multiset<nat>, lost: seq<nat>)
    ensures answered + multiset(lost) == answered <==> lost == []
  {
    assert |answered + multiset(lost)| == |answered| + |lost|;
  }

  /** Where the token required is ASCII, that takes a token of just its length that
      is not, or the right token with a version that has no text. */
  lemma ThrowingIff(step: Step, config: Config)
    requires IsAscii(config.required)
    ensures Throwing(step, config)
       <==> && step.Receive? && step.line.Hello?
            && (|| (config.required != [] && |step.line.token| == |config.required| && !IsAscii(step.line.token))
                || (&& config.required in {[], step.line.token}
                    && Supplied(step.line.version, config.nesting) == Unnamable))
  {
    if step.Receive? && step.line.Hello? && config.required != [] {
      ComparedWithAscii(step.line.token, config.required);
    }
  }

  /** Line `id` is read and never answered, and no call in flight is told to stop, or
      does anything more. */
  ghost predicate EndsUnanswered(s: State, t: State, id: nat) {
    && t.received == s.received + [id] && t.replies == s.replies && t.lost == s.lost + [id]
    && t.active == s.active && forall step :: !Enabled(t, step)
  }

  /** One such line, whatever its version. */
  lemma OneCharacterTokenCrashes(s: State, id: nat, version: Option<Json>)
    requires !s.crashed && s.reading && s.owed.None? && s.config.required == [0x61]
    ensures EndsUnanswered(s, Next(s, Receive(Hello(id, [0xE9], version))), id)
  {
    var token: Units := [0xE9];
    assert !IsAscii(token) by { assert token[0] in token; }
    assert IsAscii([0x61]);
    ComparedWithAscii(token, s.config.required);
  }

  /** `value` inside `wraps` arrays. */
  function Wrapped(value: Json, wraps: nat): Json {
    if wraps == 0 then value else Array([Wrapped(value, wraps - 1)])
  }

  lemma {:induction false} WrappedHasNoText(fields: Fields, wraps: nat, depth: nat)
    requires "toString" in fields
    ensures !HasText(Wrapped(Object(fields), wraps), depth)
  {
    if wraps > 0 && depth > 0 {
      WrappedHasNoText(fields, wraps - 1, depth - 1);
      assert !HasText(Wrapped(Object(fields), wraps).items[0], depth - 1);
    }
  }

  /** Another, with the right token: its version is an object that brings its own
      "toString", however many arrays it is wrapped in. */
  lemma ObjectVersionCrashes(s: State, id: nat, fields: Fields, wraps: nat)
    requires !s.crashed && s.reading && s.owed.None? && "toString" in fields
    ensures var line := Hello(id, s.config.required, Some(Wrapped(Object(fields), wraps)));
            EndsUnanswered(s, Next(s, Receive(line)), id)
  {
    WrappedHasNoText(fields, wraps, s.config.nesting);
  }

  /** `after` differs from `before` in that call `target` is aborted. */
  ghost predicate AbortsOnly(before: map<nat, Call>, after: map<nat, Call>, target: nat) {
    && target in before && after.Keys == before.Keys
    && after[target] == before[target].(aborted := true)
    && forall j | j in before && j != target :: after[j] == before[j]
  }

  lemma AbortsOnlyHolder(s: State, target: nat)
    requires TokensOk(s.active, s.nextToken) && target in s.active
    ensures AbortsOnly(s.active, Aborted(s.active, s.active[target].token), target)
  {
  }

  /** Cancelling a request aborts that call and no other; cancelling one that is
      not active aborts nothing. */
  lemma CancelRequestAbortsOne(s: State, id: nat, target: nat)
    requires Inv(s) && s.authenticated && Enabled(s, Receive(CancelRequest(id, Some(target))))
    ensures var t := Next(s, Receive(CancelRequest(id, Some(target))));
            && t.owed == Some(Owed(id, false))
            && if target in s.active then AbortsOnly(s.active, t.active, target) else t.active == s.active
  {
    if target in s.active { AbortsOnlyHolder(s, target); }
  }

  /** A run in the verification map belongs to an active call, and cancelling
      the run aborts that call and no other. */
  lemma CancelRunAbortsOne(s: State, id: nat, r: string)
    requires Inv(s) && s.authenticated && Enabled(s, Receive(CancelRun(id, Some(r))))
    ensures var t := Next(s, Receive(CancelRun(id, Some(r))));
            && t.owed == Some(Owed(id, false))
            && if r in s.verifications
               then exists i :: Holds(s.active, i, r, s.verifications[r]) && AbortsOnly(s.active, t.active, i)
               else t.active == s.active
  {
    if r in s.verifications {
      var i :| Holds(s.active, i, r, s.verifications[r]);
      AbortsOnlyHolder(s, i);
    }
  }

  /** Once the loop has ended no line is read and every call that was in flight
      then has been told to stop. */
  lemma {:induction false} NothingAfterTheLoop(s: State, steps: seq<Step>)
    requires Run(s, steps) && !s.reading && s.owed.None? && forall id | id in s.active :: s.active[id].aborted
    ensures var t := After(s, steps);
            && t.received == s.received && t.active.Keys <= s.active.Keys && !t.reading && t.owed.None?
            && forall id | id in t.active :: t.active[id].aborted
    decreases |steps|
  {
    if steps != [] { NothingAfterTheLoop(Next(s, steps[0]), steps[1..]); }
  }

  function InPhase(s: State, phase: Phase): set<nat> {
    set id | id in s.active && s.active[id].phase == phase
  }

  // A client that never uses an id twice.

  ghost predicate AllReceived(s: State) {
    forall id | id in s.active :: id in s.received
  }

  lemma {:induction false} ActiveWasReceived(s: State, steps: seq<Step>)
    requires Run(s, steps) && AllReceived(s)
    ensures AllReceived(After(s, steps))
    decreases |steps|
  {
    if steps != [] {
      StepKeepsReceived(s, steps[0]);
      ActiveWasReceived(Next(s, steps[0]), steps[1..]);
    }
  }

  lemma StepKeepsReceived(s: State, step: Step)
    requires Enabled(s, step) && AllReceived(s)
    ensures AllReceived(Next(s, step))
  {
    if step.Receive? {
      assert forall id | id in s.received :: id in s.received + [LineId(step.line)];
      assert s.received + [LineId(step.line)] == Next(s, step).received;
      assert Next(s, step).received[|s.received|] == LineId(step.line);
    }
  }

  /** Such a client is refused only for the bound or for a run that is already
      active, and gets at most one reply to each id, none while it is owed one. */
  lemma FreshIdsAreAnsweredOnce(config: Config, steps: seq<Step>, id: nat)
    requires Run(Fresh(config), steps)
    ensures var s := After(Fresh(config), steps);
            && (id !in s.received ==> forall kind: Method :: Refused(s, id, kind) ==>
                  |s.active| >= MAX_ACTIVE_REQUESTS
                  || (RunOf(kind).Some? && RunOf(kind).value in s.verifications))
            && (multiset(s.received)[id] == 1 ==>
                  multiset(s.replies)[id] == if id in Unreplied(s.active) || id in s.lost
                                                || s.owed == Some(Owed(id, true))
                                                || s.owed == Some(Owed(id, false)) then 0 else 1)
  {
    var s := After(Fresh(config), steps);
    FreshIsInv(config);
    RunKeepsInv(Fresh(config), steps);
    ActiveWasReceived(Fresh(config), steps);
    assert Conserved(s);
    assert multiset(s.received)[id]
        == multiset(s.replies)[id] + multiset(Unreplied(s.active))[id] + OwedIds(s.owed)[id] + multiset(s.lost)[id];
  }

  /** Where a token is required, no call is admitted before a hello line with
      the right token and protocol version. */
  lemma {:induction false} NoCallBeforeHandshake(s: State, steps: seq<Step>)
    requires Run(s, steps) && !s.authenticated && s.active == map[] && s.chain == []
    requires forall k | 0 <= k < |steps| :: !Handshake(steps[k], s.config)
    ensures !After(s, steps).authenticated && After(s, steps).active == map[]
    ensures After(s, steps).arrived == s.arrived
    decreases |steps|
  {
    if steps != [] {
      assert !Handshake(steps[0], s.config);
      assert Next(s, steps[0]).active == map[];
      NoCallBeforeHandshake(Next(s, steps[0]), steps[1..]);
    }
  }

  /** A step that brings the calls in flight closer to their end. */
  ghost predicate Progress(s: State, step: Step) {
    && Enabled(s, step) && !Next(s, step).crashed
    && Next(s, step).owed == s.owed && Next(s, step).received == s.received
    && Next(s, step).active.Keys <= s.active.Keys
    && (Next(s, step).active.Keys < s.active.Keys
        || (&& InPhase(Next(s, step), Waiting) <= InPhase(s, Waiting)
            && (InPhase(Next(s, step), Waiting) < InPhase(s, Waiting)
                || Unreplied(Next(s, step).active) < Unreplied(s.active))))
  }

  lemma RetireProgresses(s: State, id: nat)
    requires id in InPhase(s, Replied) && !s.crashed
    ensures Progress(s, Retire(id))
  {
    assert id !in Next(s, Retire(id)).active.Keys;
  }

  lemma ReplyProgresses(s: State, id: nat)
    requires id in InPhase(s, Running) && !s.crashed
    ensures Progress(s, Reply(id))
  {
    assert Next(s, Reply(id)).active.Keys == s.active.Keys;
    assert id in Unreplied(s.active) && id !in Unreplied(Next(s, Reply(id)).active);
  }

  lemma StartProgresses(s: State)
    requires Enabled(s, StartMutation)
    ensures Progress(s, StartMutation)
  {
    assert Next(s, StartMutation).active.Keys == s.active.Keys;
    assert s.chain[0] in InPhase(s, Waiting) && s.chain[0] !in InPhase(Next(s, StartMutation), Waiting);
  }

  /** Nothing ever gets stuck: while calls are in flight one of them can move. */
  lemma SomeCallCanMove(s: State) returns (step: Step)
    requires Inv(s) && s.active != map[] && !s.crashed
    ensures Progress(s, step)
  {
    var id :| id in s.active;
    match s.active[id].phase
    case Replied => step := Retire(id); RetireProgresses(s, id);
    case Running => step := Reply(id); ReplyProgresses(s, id);
    case Waiting =>
      assert id in s.chain;
      assert s.chain == [s.chain[0]] + Behind(s.chain);
      var front := s.chain[0];
      assert front in s.active;
      match s.active[front].phase
      case Replied => step := Retire(front); RetireProgresses(s, front);
      case Running => step := Reply(front); ReplyProgresses(s, front);
      case Waiting => step := StartMutation; StartProgresses(s);
  }

  lemma SmallerSet(a: set<nat>, b: set<nat>)
    requires a <= b
    ensures |a| <= |b| && (a < b ==> |a| < |b|)
  {
    assert |a| + |b - a| == |b| by { assert a + (b - a) == b; }
  }

  /** Therefore from any state between two lines every line still gets its reply. */
  lemma {:induction false} CanAlwaysDrain(s: State) returns (steps: seq<Step>)
    requires Inv(s) && s.owed.None? && !s.crashed
    ensures Run(s, steps) && After(s, steps).active == map[]
    ensures multiset(After(s, steps).replies) == multiset(s.received)
    decreases |s.active.Keys|, |InPhase(s, Waiting)|, |Unreplied(s.active)|
  {
    if s.active == map[] {
      assert Unreplied(s.active) == {};
      return [];
    }
    var step := SomeCallCanMove(s);
    var t := Next(s, step);
    StepKeepsInv(s, step);
    SmallerSet(t.active.Keys, s.active.Keys);
    if !(t.active.Keys < s.active.Keys) {
      SmallerSet(InPhase(t, Waiting), InPhase(s, Waiting));
      if !(InPhase(t, Waiting) < InPhase(s, Waiting)) {
        SmallerSet(Unreplied(t.active), Unreplied(s.active));
      }
    }
    var rest := CanAlwaysDrain(t);
    steps := [step] + rest;
    assert steps[1..] == rest;
  }

  // The loop itself. Each method takes one step, so StepKeepsInv holds of it.

  class Server {
    const config: Config
    var crashed: bool
    var authenticated: bool
    var reading: bool
    var owed: Option<Owed>
    var active: map<nat, Call>
    var verifications: map<string, nat>
    var chain: seq<nat>
    var nextToken: nat
    ghost var received: seq<nat>
    ghost var replies: seq<nat>
    ghost var lost: seq<nat>
    ghost var arrived: seq<nat>
    ghost var started: seq<nat>

    ghost function Now(): State
      reads this
    {
      State(config, crashed, authenticated, reading, owed, active, verifications, chain, nextToken,
            received, replies, lost, arrived, started)
    }

    constructor (config: Config)
      ensures Now() == Fresh(config)
    {
      this.config, crashed := config, false;
      authenticated, reading, owed := config.required == [], true, None;
      active, verifications, chain, nextToken := map[], map[], [], 0;
      received, replies, lost, arrived, started := [], [], [], [], [];
    }

    method Abort(token: nat)
      modifies this`active
      ensures active == Aborted(old(active), token)
    {
      active := Aborted(active, token);
    }

    method AddActive(id: nat, kind: Method)
      modifies this
      ensures Now() == Admitted(old(Now()), id, kind)
    {
      var run := RunOf(kind);
      if run.Some? { verifications := verifications[run.value := nextToken]; }
      if kind.ReadOnly? {
        active := active[id := Call(false, run, nextToken, Running, false)];
      } else {
        active := active[id := Call(true, run, nextToken, Waiting, false)];
        chain, arrived := chain + [id], arrived + [id];
      }
      nextToken := nextToken + 1;
    }

    /** Admission of a call that is not answered at once. */
    method Admit(id: nat, kind: Method)
      requires reading && owed.None?
      modifies this
      ensures var t := old(Now()).(received := old(received) + [id]);
              Now() == if Refused(old(Now()), id, kind) then Owing(t, id) else Admitted(t, id, kind)
    {
      var run := RunOf(kind);
      var refused := |active| >= MAX_ACTIVE_REQUESTS || id in active
                     || (run.Some? && run.value in verifications);
      received := received + [id];
      if refused { owed := Some(Owed(id, false)); }
      else { AddActive(id, kind); }
    }

    /** The token is compared first; the version's text is made only for a reply
        that names it. */
    method Greet(id: nat, token: Units, version: Option<Json>)
      requires owed.None?
      modifies this
      ensures Now() == Greeted(old(Now()), id, token, version)
    {
      match Compared(token, config.required)
      case Throws => Crash(id);
      case Differs => owed := Some(Owed(id, false));
      case Matches =>
        if version == Some(Number(PROTOCOL_VERSION)) {
          authenticated, owed := true, Some(Owed(id, false));
        } else if version.None? || HasText(version.value, config.nesting) {
          owed := Some(Owed(id, false));
        } else {
          Crash(id);
        }
    }

    method Crash(id: nat)
      modifies this
      ensures Now() == Crashed(old(Now()), id)
    {
      crashed, reading, lost := true, false, lost + [id];
    }

    /** A command that gets its reply at once. */
    method Obey(line: Line)
      requires owed.None? && !line.Hello? && !line.Unreadable? && !line.Invoke?
      modifies this
      ensures Now() == Commanded(old(Now()), line)
    {
      match line
      case Shutdown(id, closes) => if closes { owed := Some(Owed(id, true)); } else { Crash(id); }
      case CancelRequest(id, target) =>
        if target.Some? && target.value in active { Abort(active[target.value].token); }
        owed := Some(Owed(id, false));
      case CancelRun(id, runId) =>
        if runId.Some? && runId.value in verifications { Abort(verifications[runId.value]); }
        owed := Some(Owed(id, false));
      case Immediate(id) => owed := Some(Owed(id, false));
    }

    method HandleLine(line: Line)
      requires Enabled(Now(), Receive(line))
      modifies this
      ensures Now() == Next(old(Now()), Receive(line))
    {
      if line.Invoke? && authenticated {
        Admit(line.id, line.kind);
        return;
      }
      received := received + [LineId(line)];
      if line.Hello? {
        Greet(line.id, line.token, line.version);
      } else if line.Unreadable? || !authenticated {
        owed := Some(Owed(LineId(line), false));
      } else {
        Obey(line);
      }
    }

    method Close()
      modifies this
      ensures Now() == Closed(old(Now()))
    {
      reading := false;
      active := map id | id in active :: active[id].(aborted := true);
      verifications := map[];
    }

    method Write() returns (id: nat)
      requires Enabled(Now(), WriteOwed)
      modifies this
      ensures Now() == Next(old(Now()), WriteOwed) && replies == old(replies) + [id]
    {
      id := owed.value.id;
      var last := owed.value.last;
      owed, replies := None, replies + [id];
      if last { Close(); }
    }

    method InputEnds()
      requires Enabled(Now(), EndOfInput)
      modifies this
      ensures Now() == Next(old(Now()), EndOfInput)
    {
      Close();
    }

    /** The mutation chain reaches its next call, if the one before has settled. */
    method StartNextMutation() returns (id: Option<nat>)
      requires !crashed
      modifies this
      ensures id.Some? == old(Enabled(Now(), StartMutation))
      ensures Now() == if id.Some? then Next(old(Now()), StartMutation) else old(Now())
      ensures id.Some? ==> id.value == old(chain)[0]
    {
      if chain == [] || chain[0] !in active || active[chain[0]].phase != Waiting { return None; }
      id := Some(chain[0]);
      active := active[chain[0] := active[chain[0]].(phase := Running)];
      started := started + [chain[0]];
    }

    /** The browser has finished call `id` and its reply goes out. */
    method Complete(id: nat)
      requires Enabled(Now(), Reply(id))
      modifies this
      ensures Now() == Next(old(Now()), Reply(id))
    {
      active := active[id := active[id].(phase := Replied)];
      replies := replies + [id];
    }

    /** The call's own clean-up after its reply. */
    method Settle(id: nat)
      requires Enabled(Now(), Retire(id))
      modifies this
      ensures Now() == Next(old(Now()), Retire(id))
    {
      var call := active[id];
      active := active - {id};
      if call.run.Some? && call.run.value in verifications && verifications[call.run.value] == call.token {
        verifications := verifications - {call.run.value};
      }
      if call.mutating { chain := Behind(chain); }
    }
  }
}
