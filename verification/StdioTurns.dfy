/** The turns that calls take, told by the lines of the connection alone: which line
    admitted a call decides whether it waits for the calls of earlier lines. */
module StdioTurns {
  import opened Common
  import opened JsonValue
  import opened Utf16
  import opened StdioServer

  /** For each active call, the step of the run that made it active; `steps` begins
      with step `at` of the run. */
  ghost function Origins(s: State, steps: seq<Step>, at: nat, origins: map<nat, nat>): map<nat, nat>
    requires Run(s, steps)
    decreases |steps|
  {
    if steps == [] then origins
    else
      var t := Next(s, steps[0]);
      Origins(t, steps[1..], at + 1, Grown(s, t, at, origins))
  }

  ghost function Grown(s: State, t: State, at: nat, origins: map<nat, nat>): map<nat, nat> {
    map id | id in t.active :: if id in s.active && id in origins then origins[id] else at
  }

  ghost predicate AsksFor(step: Step, id: nat) {
    step.Receive? && step.line.Invoke? && step.line.id == id
  }

  /** The call under `id` comes from step `origin`, a line that asked for it, and is in
      the chain unless that only reads. */
  ghost predicate ComesFrom(call: Call, run: seq<Step>, at: nat, origin: nat, id: nat) {
    && origin < at && origin < |run| && AsksFor(run[origin], id)
    && (call.mutating <==> !run[origin].line.kind.ReadOnly?)
  }

  /** Each call comes from a line of its own, and the chain is in the order of the lines. */
  ghost predicate OriginsInv(s: State, run: seq<Step>, at: nat, origins: map<nat, nat>) {
    && origins.Keys == s.active.Keys
    && (forall id | id in origins :: ComesFrom(s.active[id], run, at, origins[id], id))
    && InOrder(s.chain, origins)
  }

  predicate Admits(s: State, step: Step) {
    && step.Receive? && step.line.Invoke? && s.authenticated
    && !Refused(s, step.line.id, step.line.kind)
  }

  /** The same calls, or some of them, at whatever point. */
  ghost predicate Keeps(s: State, t: State) {
    && t.active.Keys <= s.active.Keys
    && (forall id | id in t.active :: t.active[id].mutating == s.active[id].mutating)
    && (t.chain == s.chain || t.chain == Behind(s.chain))
  }

  lemma ReceiveKeeps(s: State, line: Line)
    requires Enabled(s, Receive(line)) && !Admits(s, Receive(line))
    ensures var t := Next(s, Receive(line)); Keeps(s, t) && t.active.Keys == s.active.Keys && t.chain == s.chain
  {
    if s.authenticated && !line.Hello? && !line.Unreadable? {
      CommandKeeps(s.(received := s.received + [LineId(line)]), line);
    }
  }

  lemma CommandKeeps(s: State, line: Line)
    requires line.Invoke? ==> Refused(s, line.id, line.kind)
    ensures var t := Commanded(s, line); Keeps(s, t) && t.active.Keys == s.active.Keys && t.chain == s.chain
  {
  }

  lemma OtherKeeps(s: State, step: Step)
    requires Enabled(s, step) && !step.Receive?
    ensures Keeps(s, Next(s, step))
  {
  }

  lemma KeptOrigins(s: State, t: State, run: seq<Step>, at: nat, origins: map<nat, nat>)
    requires OriginsInv(s, run, at, origins) && Keeps(s, t)
    ensures OriginsInv(t, run, at + 1, Grown(s, t, at, origins))
  {
    var grown := Grown(s, t, at, origins);
    assert forall id | id in grown :: id in origins && grown[id] == origins[id];
  }

  ghost predicate InOrder(chain: seq<nat>, origins: map<nat, nat>) {
    forall i, j :: 0 <= i < j < |chain| && chain[i] in origins && chain[j] in origins ==>
      origins[chain[i]] < origins[chain[j]]
  }

  lemma LastInOrder(chain: seq<nat>, origins: map<nat, nat>, id: nat, at: nat)
    requires InOrder(chain, origins) && id !in origins
    requires (forall i | i in chain :: i in origins) && forall i | i in origins :: origins[i] < at
    ensures InOrder(chain + [id], origins[id := at]) && InOrder(chain, origins[id := at])
  {
  }

  lemma AdmissionAdds(s: State, step: Step)
    requires Enabled(s, step) && Admits(s, step)
    ensures var t, id, only := Next(s, step), step.line.id, step.line.kind.ReadOnly?;
            && id !in s.active && id in t.active && t.active == s.active[id := t.active[id]]
            && t.active[id].mutating == !only && t.chain == if only then s.chain else s.chain + [id]
  {
  }

  lemma AddedOrigins(s: State, t: State, run: seq<Step>, at: nat, origins: map<nat, nat>, id: nat)
    requires OriginsInv(s, run, at, origins) && ChainOk(s.active, s.chain)
    requires at < |run| && AsksFor(run[at], id)
    requires id !in s.active && id in t.active && t.active == s.active[id := t.active[id]]
    requires t.active[id].mutating == !run[at].line.kind.ReadOnly?
    requires t.chain == s.chain || t.chain == s.chain + [id]
    ensures OriginsInv(t, run, at + 1, Grown(s, t, at, origins))
  {
    var grown := Grown(s, t, at, origins);
    assert grown == origins[id := at];
    assert InOrder(t.chain, grown) by {
      assert forall i | i in s.chain :: i in origins;
      assert forall i | i in origins :: ComesFrom(s.active[i], run, at, origins[i], i);
      LastInOrder(s.chain, origins, id, at);
    }
    forall i | i in grown ensures ComesFrom(t.active[i], run, at + 1, grown[i], i) {
      if i != id { assert ComesFrom(s.active[i], run, at, origins[i], i); }
    }
  }

  lemma AdmissionKeepsOrigins(s: State, run: seq<Step>, at: nat, origins: map<nat, nat>)
    requires OriginsInv(s, run, at, origins) && ChainOk(s.active, s.chain)
    requires at < |run| && Enabled(s, run[at]) && Admits(s, run[at])
    ensures var t := Next(s, run[at]); OriginsInv(t, run, at + 1, Grown(s, t, at, origins))
  {
    AdmissionAdds(s, run[at]);
    AddedOrigins(s, Next(s, run[at]), run, at, origins, run[at].line.id);
  }

  lemma {:induction false} RunKeepsOrigins(s: State, run: seq<Step>, at: nat, origins: map<nat, nat>)
    requires at <= |run| && Run(s, run[at..]) && Inv(s) && OriginsInv(s, run, at, origins)
    ensures OriginsInv(After(s, run[at..]), run, |run|, Origins(s, run[at..], at, origins))
    ensures Inv(After(s, run[at..]))
    decreases |run| - at
  {
    if at < |run| {
      assert run[at..][0] == run[at] && run[at..][1..] == run[at + 1..];
      StepKeepsInv(s, run[at]);
      if Admits(s, run[at]) {
        AdmissionKeepsOrigins(s, run, at, origins);
      } else {
        if run[at].Receive? { ReceiveKeeps(s, run[at].line); } else { OtherKeeps(s, run[at]); }
        KeptOrigins(s, Next(s, run[at]), run, at, origins);
      }
      RunKeepsOrigins(Next(s, run[at]), run, at + 1, Grown(s, Next(s, run[at]), at, origins));
    }
  }

  /** The call of a line that asks for more than reading, a verification run included. */
  ghost predicate TakesTurns(steps: seq<Step>, origins: map<nat, nat>, id: nat) {
    id in origins && origins[id] < |steps| && AsksFor(steps[origins[id]], id) && !steps[origins[id]].line.kind.ReadOnly?
  }

  lemma TurnsOf(s: State, steps: seq<Step>, origins: map<nat, nat>)
    requires ChainOk(s.active, s.chain) && OriginsInv(s, steps, |steps|, origins)
    ensures forall id | id in s.active :: origins[id] < |steps| && AsksFor(steps[origins[id]], id)
    ensures forall id | id in s.active && steps[origins[id]].line.kind.ReadOnly? :: s.active[id].phase != Waiting
    ensures forall i, j | TakesTurns(steps, origins, i) && TakesTurns(steps, origins, j)
              && origins[i] < origins[j] :: s.active[j].phase == Waiting
    ensures forall i, j | TakesTurns(steps, origins, i) && TakesTurns(steps, origins, j)
              && s.active[i].phase != Waiting && s.active[j].phase != Waiting :: i == j
    ensures forall i | TakesTurns(steps, origins, i) && s.active[i].phase == Waiting && !s.crashed
              && (forall j | TakesTurns(steps, origins, j) :: origins[i] <= origins[j]) ::
              Enabled(s, StartMutation)
              && Next(s, StartMutation).active == s.active[i := s.active[i].(phase := Running)]
  {
    forall id | id in s.active
      ensures origins[id] < |steps| && AsksFor(steps[origins[id]], id)
      ensures steps[origins[id]].line.kind.ReadOnly? ==> s.active[id].phase != Waiting
    {
      assert ComesFrom(s.active[id], steps, |steps|, origins[id], id);
    }
    forall i, j | TakesTurns(steps, origins, i) && TakesTurns(steps, origins, j)
      ensures origins[i] < origins[j] ==> s.active[j].phase == Waiting
      ensures i == j || origins[i] < origins[j] || origins[j] < origins[i]
    {
      TurnsInOrder(s, steps, origins, i, j);
    }
    forall i | TakesTurns(steps, origins, i) && s.active[i].phase == Waiting && !s.crashed
      && (forall j | TakesTurns(steps, origins, j) :: origins[i] <= origins[j])
      ensures Enabled(s, StartMutation)
      ensures Next(s, StartMutation).active == s.active[i := s.active[i].(phase := Running)]
    {
      FirstCanBegin(s, steps, origins, i);
    }
  }

  /** At every point of every connection each active call comes from a line that asked
      for it. A call of a line that only reads has begun at once. The others take turns
      in the order of their lines: none begins while one of an earlier line is active,
      so that never two have begun; and the first of them, if it waits, can begin. */
  lemma CallsTakeTurns(config: Config, steps: seq<Step>)
    requires Run(Fresh(config), steps)
    ensures var s, origins := After(Fresh(config), steps), Origins(Fresh(config), steps, 0, map[]);
            && origins.Keys == s.active.Keys
            && (forall id | id in s.active :: origins[id] < |steps| && AsksFor(steps[origins[id]], id))
            && (forall id | id in s.active && steps[origins[id]].line.kind.ReadOnly? :: s.active[id].phase != Waiting)
            && (forall i, j | TakesTurns(steps, origins, i) && TakesTurns(steps, origins, j)
                  && origins[i] < origins[j] :: s.active[j].phase == Waiting)
            && (forall i, j | TakesTurns(steps, origins, i) && TakesTurns(steps, origins, j)
                  && s.active[i].phase != Waiting && s.active[j].phase != Waiting :: i == j)
            && (forall i | TakesTurns(steps, origins, i) && s.active[i].phase == Waiting && !s.crashed
                  && (forall j | TakesTurns(steps, origins, j) :: origins[i] <= origins[j]) ::
                  Enabled(s, StartMutation)
                  && Next(s, StartMutation).active == s.active[i := s.active[i].(phase := Running)])
  {
    FreshIsInv(config);
    assert steps[0..] == steps;
    RunKeepsOrigins(Fresh(config), steps, 0, map[]);
    TurnsOf(After(Fresh(config), steps), steps, Origins(Fresh(config), steps, 0, map[]));
  }

  lemma TurnsInOrder(s: State, steps: seq<Step>, origins: map<nat, nat>, i: nat, j: nat)
    requires ChainOk(s.active, s.chain) && OriginsInv(s, steps, |steps|, origins)
    requires TakesTurns(steps, origins, i) && TakesTurns(steps, origins, j)
    ensures origins[i] < origins[j] ==> s.active[j].phase == Waiting
    ensures i == j || origins[i] < origins[j] || origins[j] < origins[i]
  {
    assert i in s.chain && j in s.chain;
    if origins[i] < origins[j] { InChainOrder(s.chain, origins, i, j); }
  }

  lemma FirstCanBegin(s: State, steps: seq<Step>, origins: map<nat, nat>, i: nat)
    requires ChainOk(s.active, s.chain) && OriginsInv(s, steps, |steps|, origins)
    requires TakesTurns(steps, origins, i) && s.active[i].phase == Waiting && !s.crashed
    requires forall j | TakesTurns(steps, origins, j) :: origins[i] <= origins[j]
    ensures Enabled(s, StartMutation) && Next(s, StartMutation).active == s.active[i := s.active[i].(phase := Running)]
  {
    assert i in s.chain;
    var k :| 0 <= k < |s.chain| && s.chain[k] == i;
    assert s.chain[0] in s.chain;
    assert TakesTurns(steps, origins, s.chain[0]);
  }

  lemma InChainOrder(chain: seq<nat>, origins: map<nat, nat>, i: nat, j: nat)
    requires i in chain && j in chain && i in origins && j in origins && origins[i] < origins[j]
    requires forall a, b :: 0 <= a < b < |chain| && chain[a] in origins && chain[b] in origins ==>
               origins[chain[a]] < origins[chain[b]]
    ensures j in Behind(chain)
  {
    var a :| 0 <= a < |chain| && chain[a] == i;
    var b :| 0 <= b < |chain| && chain[b] == j;
    assert b > 0;
    assert chain[1..][b - 1] == j;
  }

  /** After the handshake a line that asks for a call gets one exactly if fewer than 64
      are active, its id is not, and it does not name a verification run that is; the
      call runs at once if it only reads, and waits otherwise. Any other such line is
      answered by the loop and changes no call. */
  lemma InvokeAdmitsIff(s: State, id: nat, kind: Method)
    requires Enabled(s, Receive(Invoke(id, kind))) && s.authenticated
    ensures var t := Next(s, Receive(Invoke(id, kind)));
            if |s.active| < 64 && id !in s.active
               && !(kind.VerificationRun? && kind.runId.Some? && kind.runId.value != ""
                    && kind.runId.value in s.verifications)
            then
              && id in t.active && t.active == s.active[id := t.active[id]] && t.owed.None?
              && t.active[id].phase == (if kind.ReadOnly? then Running else Waiting) && !t.active[id].aborted
              && (forall r :: t.active[id].run == Some(r) <==> kind == VerificationRun(Some(r)) && r != "")
            else
              t.active == s.active && t.verifications == s.verifications && t.owed == Some(Owed(id, false))
  {
  }

  /** A hello line opens the connection exactly with the token required and protocol
      version 1, given as a number; where no token is required, any will do. */
  lemma HelloOpensIff(s: State, id: nat, token: Units, version: Option<Json>)
    requires Enabled(s, Receive(Hello(id, token, version))) && IsAscii(s.config.required)
    ensures var t := Next(s, Receive(Hello(id, token, version)));
            && t.active == s.active
            && (t.authenticated <==>
                  (s.authenticated
                   || ((s.config.required == [] || token == s.config.required) && version == Some(Number(1)))))
            && (!t.crashed ==> t.owed == Some(Owed(id, false)))
  {
    if s.config.required != [] { ComparedWithAscii(token, s.config.required); }
  }

  /** The loop ends with its input, or when the reply to a shutdown has been written that
      closed the browser: every call is told to stop, and no run is known any more. One
      that cannot close the browser is lost with the process. */
  lemma LoopEnds(s: State, step: Step, id: nat)
    requires Enabled(s, step)
    ensures var t := Next(s, step);
            (step.EndOfInput? || (step.WriteOwed? && s.owed.value.last) ==>
               && !t.reading && t.owed.None? && !t.crashed && t.verifications == map[] && t.active.Keys == s.active.Keys
               && forall i | i in s.active :: t.active[i] == s.active[i].(aborted := true))
    ensures step == WriteOwed && !s.owed.value.last ==>
      Next(s, step) == s.(owed := None, replies := s.replies + [s.owed.value.id])
    ensures step == Receive(Shutdown(id, true)) && s.authenticated ==>
      Next(s, step) == s.(owed := Some(Owed(id, true)), received := s.received + [id])
    ensures step == Receive(Shutdown(id, false)) && s.authenticated ==>
      var t := Next(s, step);
      t.crashed && t.lost == s.lost + [id] && t.replies == s.replies && t.active == s.active
  {
  }

  /** Before the handshake every line but a hello is only answered. */
  lemma OnlyAnswered(s: State, line: Line)
    requires Enabled(s, Receive(line)) && !line.Hello? && (!s.authenticated || line.Unreadable?)
    ensures var id := if line.Unreadable? then 0 else line.id;
            Next(s, Receive(line)) == s.(owed := Some(Owed(id, false)), received := s.received + [id])
  {
  }

  /** A call that is done leaves; its run is forgotten unless another call has it by then. */
  lemma RetiringForgets(s: State, id: nat)
    requires Enabled(s, Retire(id))
    ensures var t, call := Next(s, Retire(id)), s.active[id];
            && t.active == s.active - {id}
            && (forall r :: r in t.verifications <==>
                  r in s.verifications && !(call.run == Some(r) && s.verifications[r] == call.token))
            && (forall r | r in t.verifications :: t.verifications[r] == s.verifications[r])
  {
  }
}
