/** Requests about one session that overlap: each reads the durable status once, and
    goes by that reading in everything it writes. */
module SessionRaces {
  import opened Common
  import opened Sessions

  /** `plans` holds what each request that has read the status has still to write. */
  datatype State = State(path: seq<SessionState>, plans: map<nat, seq<SessionState>>)

  /** Between its read and its first write a request may wait for the turn's handle. */
  datatype Step =
    | Read(request: nat, kind: Request)
    | Write(request: nat, status: SessionState)

  const FRESH: State := State([Created], map[])

  /** The steps up to the first that the table does not have. */
  function Legal(from: SessionState, steps: seq<SessionState>): seq<SessionState>
    decreases |steps|
  {
    if steps == [] || !Allowed(from, steps[0]) then [] else [steps[0]] + Legal(steps[0], steps[1..])
  }

  lemma OneThenRest(before: seq<SessionState>, one: SessionState, rest: seq<SessionState>)
    ensures before + [one] + rest == before + ([one] + rest)
  {
  }

  /** They are what a request writes when nothing comes between. */
  lemma {:induction false} LegalIsWritten(w: World, id: Id, from: SessionState, steps: seq<SessionState>)
    ensures Written(Walked(w, id, from, steps), id) == Written(w, id) + Legal(from, steps)
    decreases |steps|
  {
    if steps != [] && Allowed(from, steps[0]) {
      var m := Stepped(w, id, steps[0]);
      LegalIsWritten(m, id, steps[0], steps[1..]);
      assert Written(m, id) == Written(w, id) + [steps[0]];
      OneThenRest(Written(w, id), steps[0], Legal(steps[0], steps[1..]));
    }
  }

  predicate Enabled(s: State, step: Step) {
    match step
    case Read(request, _) => request !in s.plans && s.path != []
    case Write(request, status) =>
      request in s.plans && s.plans[request] != [] && s.plans[request][0] == status
  }

  function Next(s: State, step: Step): State
    requires Enabled(s, step)
  {
    match step
    case Read(request, kind) =>
      s.(plans := s.plans[request := Legal(Last(s.path), Steps(kind, Last(s.path)))])
    case Write(request, status) =>
      State(s.path + [status], s.plans[request := s.plans[request][1..]])
  }

  ghost predicate Run(steps: seq<Step>)
    decreases |steps|, 0
  {
    steps == [] || (Run(Front(steps)) && Enabled(After(Front(steps)), Final(steps)))
  }

  ghost function After(steps: seq<Step>): State
    requires Run(steps)
    decreases |steps|, 1
  {
    if steps == [] then FRESH else Next(After(Front(steps)), Final(steps))
  }

  function Front(steps: seq<Step>): seq<Step>
    requires steps != []
  {
    steps[..|steps| - 1]
  }

  function Final(steps: seq<Step>): Step
    requires steps != []
  {
    steps[|steps| - 1]
  }

  /** Once the session has ended nothing more is written. */
  ghost predicate Absorbed(path: seq<SessionState>) {
    forall i | 0 <= i < |path| - 1 :: !IsTerminal(path[i])
  }

  predicate EndsAt(steps: seq<Step>, j: int) {
    0 <= j < |steps| && steps[j].Write? && IsTerminal(steps[j].status)
  }

  predicate ReadsAt(steps: seq<Step>, request: nat, i: int) {
    0 <= i < |steps| && steps[i].Read? && steps[i].request == request
  }

  /** A request reads the status before the session ends, and writes after that. */
  ghost predicate Straddles(steps: seq<Step>, i: int, j: int, k: int) {
    && i < j < k < |steps| && EndsAt(steps, j)
    && steps[k].Write? && ReadsAt(steps, steps[k].request, i)
  }

  ghost predicate EndIsStraddled(steps: seq<Step>) {
    exists i, j, k :: Straddles(steps, i, j, k)
  }

  /** A request with something to write read its status before the session ended. */
  ghost predicate ReadInTime(steps: seq<Step>, ended: bool, request: nat) {
    exists i :: ReadsAt(steps, request, i) && (ended ==> exists j :: i < j && EndsAt(steps, j))
  }

  ghost predicate Traced(steps: seq<Step>)
    requires Run(steps)
  {
    var s := After(steps);
    && s.path != []
    && (forall j | 0 <= j < |steps| && steps[j].Write? :: steps[j].status in s.path)
    && (forall q | q in s.plans && s.plans[q] != [] :: ReadInTime(steps, IsTerminal(Last(s.path)), q))
  }

  lemma ReadInTimeGrows(steps: seq<Step>, was: bool, ended: bool, q: nat)
    requires steps != [] && ReadInTime(Front(steps), was, q)
    requires ended ==> was || EndsAt(steps, |steps| - 1)
    ensures ReadInTime(steps, ended, q)
  {
    var front := Front(steps);
    var i :| ReadsAt(front, q, i) && (was ==> exists j :: i < j && EndsAt(front, j));
    assert ReadsAt(steps, q, i);
    if was {
      var j :| i < j && EndsAt(front, j);
      assert EndsAt(steps, j);
    }
  }

  lemma ReaderOfOpenSession(steps: seq<Step>)
    requires steps != [] && Final(steps).Read?
    ensures ReadInTime(steps, false, Final(steps).request)
  {
    assert ReadsAt(steps, Final(steps).request, |steps| - 1);
  }

  lemma {:induction false} TracedStep(steps: seq<Step>, q: nat)
    requires Run(steps) && steps != [] && Traced(Front(steps))
    requires q in After(steps).plans && After(steps).plans[q] != []
    ensures After(steps).path != [] && ReadInTime(steps, IsTerminal(Last(After(steps).path)), q)
  {
    var s, t, step := After(Front(steps)), After(steps), Final(steps);
    if step.Read? && step.request == q {
      assert !IsTerminal(Last(s.path));
      ReaderOfOpenSession(steps);
    } else {
      assert q in s.plans && s.plans[q] != [];
      ReadInTimeGrows(steps, IsTerminal(Last(s.path)), IsTerminal(Last(t.path)), q);
    }
  }

  lemma {:induction false} RunIsTraced(steps: seq<Step>)
    requires Run(steps)
    ensures Traced(steps)
    decreases |steps|
  {
    if steps != [] {
      RunIsTraced(Front(steps));
      var t := After(steps);
      forall q | q in t.plans && t.plans[q] != [] ensures ReadInTime(steps, IsTerminal(Last(t.path)), q) {
        TracedStep(steps, q);
      }
      forall j | 0 <= j < |steps| && steps[j].Write? ensures steps[j].status in t.path {
        if j < |steps| - 1 { assert Front(steps)[j] == steps[j]; }
        else { assert t.path[|t.path| - 1] == steps[j].status; }
      }
    }
  }

  lemma StraddleStays(steps: seq<Step>)
    requires steps != [] && EndIsStraddled(Front(steps))
    ensures EndIsStraddled(steps)
  {
    var i, j, k :| Straddles(Front(steps), i, j, k);
    assert EndsAt(steps, j) && ReadsAt(steps, steps[k].request, i);
    assert Straddles(steps, i, j, k);
  }

  lemma EarlierStraddle(steps: seq<Step>, i: int, j: int, k: int)
    requires Straddles(steps, i, j, k) && k < |steps| - 1
    ensures EndIsStraddled(Front(steps))
  {
    var front := Front(steps);
    assert EndsAt(front, j) && ReadsAt(front, front[k].request, i);
    assert Straddles(front, i, j, k);
  }

  lemma AbsorbedGrows(path: seq<SessionState>, status: SessionState)
    requires path != []
    ensures Absorbed(path + [status]) <==> Absorbed(path) && !IsTerminal(Last(path))
  {
    var longer := path + [status];
    if Absorbed(longer) {
      assert longer[|path| - 1] == Last(path);
      forall i | 0 <= i < |path| - 1 ensures !IsTerminal(path[i]) { assert longer[i] == path[i]; }
    }
  }

  /** A write after the session has ended straddles its end. */
  lemma {:induction false} LateWriteStraddles(steps: seq<Step>)
    requires Run(steps) && steps != [] && Final(steps).Write?
    requires After(Front(steps)).path != [] && IsTerminal(Last(After(Front(steps)).path))
    ensures EndIsStraddled(steps)
  {
    var front, q := Front(steps), Final(steps).request;
    RunIsTraced(front);
    assert ReadInTime(front, true, q);
    var i :| ReadsAt(front, q, i) && exists j :: i < j && EndsAt(front, j);
    var j :| i < j && EndsAt(front, j);
    assert ReadsAt(steps, q, i) && EndsAt(steps, j);
    assert Straddles(steps, i, j, |steps| - 1);
  }

  lemma {:induction false} LastStraddleIsLate(steps: seq<Step>, i: int, j: int)
    requires Run(steps) && Straddles(steps, i, j, |steps| - 1)
    ensures !Absorbed(After(steps).path)
  {
    var front := Front(steps);
    RunIsTraced(front);
    assert front[j] == steps[j];
    var m :| 0 <= m < |After(front).path| && After(front).path[m] == steps[j].status;
    assert After(steps).path[m] == After(front).path[m];
  }

  /** In every run of overlapping requests an ended session stays as it is exactly when
      no request that read the status before the end writes after it. */
  lemma {:induction false} EndedStaysIff(steps: seq<Step>)
    requires Run(steps)
    ensures Absorbed(After(steps).path) <==> !EndIsStraddled(steps)
    decreases |steps|
  {
    if steps != [] {
      var s, step := After(Front(steps)), Final(steps);
      EndedStaysIff(Front(steps));
      RunIsTraced(Front(steps));
      if step.Write? {
        AbsorbedGrows(s.path, step.status);
        if IsTerminal(Last(s.path)) { LateWriteStraddles(steps); }
      }
      if EndIsStraddled(Front(steps)) { StraddleStays(steps); }
      if i, j, k :| Straddles(steps, i, j, k) {
        if k < |steps| - 1 { EarlierStraddle(steps, i, j, k); }
        else { LastStraddleIsLate(steps, i, j); }
      }
    }
  }

  lemma OneMore(steps: seq<Step>, step: Step)
    requires Run(steps) && Enabled(After(steps), step)
    ensures Run(steps + [step]) && After(steps + [step]) == Next(After(steps), step)
  {
    assert Front(steps + [step]) == steps;
  }

  lemma BothRead(steps: seq<Step>, p: nat, c: nat)
    requires Run(steps) && After(steps).path != [] && Last(After(steps).path) == SessionState.Running
    requires p !in After(steps).plans && c !in After(steps).plans && p != c
    ensures Run(steps + [Read(p, Pause(0))]) && Run(steps + [Read(p, Pause(0))] + [Read(c, Cancel(0))])
    ensures var t := After(steps + [Read(p, Pause(0))] + [Read(c, Cancel(0))]);
            && t.path == After(steps).path && p in t.plans && c in t.plans
            && t.plans[p] == [Paused] && t.plans[c] == [Cancelled]
  {
    OneMore(steps, Read(p, Pause(0)));
    OneMore(steps + [Read(p, Pause(0))], Read(c, Cancel(0)));
    assert Legal(SessionState.Running, [Paused]) == [Paused] + Legal(Paused, [Paused][1..]);
    assert Legal(SessionState.Running, [Cancelled]) == [Cancelled] + Legal(Cancelled, [Cancelled][1..]);
  }

  /** A pause that waits for the turn's handle while a cancellation goes through brings
      the cancelled session back, as paused. */
  lemma PauseRevivesCancelled(steps: seq<Step>, p: nat, c: nat) returns (longer: seq<Step>)
    requires Run(steps) && After(steps).path != [] && Last(After(steps).path) == SessionState.Running
    requires p !in After(steps).plans && c !in After(steps).plans && p != c
    ensures longer == steps + [Read(p, Pause(0))] + [Read(c, Cancel(0))] + [Write(c, Cancelled)] + [Write(p, Paused)]
    ensures Run(longer) && After(longer).path == After(steps).path + [Cancelled] + [Paused]
  {
    BothRead(steps, p, c);
    var read := steps + [Read(p, Pause(0))] + [Read(c, Cancel(0))];
    OneMore(read, Write(c, Cancelled));
    OneMore(read + [Write(c, Cancelled)], Write(p, Paused));
    longer := read + [Write(c, Cancelled)] + [Write(p, Paused)];
  }

  // The table as a whole.

  /** Each status may be written over the one before, the first over `from`. */
  predicate Chain(from: SessionState, plan: seq<SessionState>)
    decreases |plan|
  {
    plan == [] || (Allowed(from, plan[0]) && Chain(plan[0], plan[1..]))
  }

  lemma {:induction false} LegalIsChain(from: SessionState, steps: seq<SessionState>)
    ensures Chain(from, Legal(from, steps))
    decreases |steps|
  {
    if steps != [] && Allowed(from, steps[0]) {
      LegalIsChain(steps[0], steps[1..]);
      assert ([steps[0]] + Legal(steps[0], steps[1..]))[1..] == Legal(steps[0], steps[1..]);
    }
  }

  predicate NoWriteBetween(steps: seq<Step>, i: int, k: int) {
    forall m | 0 <= m < |steps| && i < m < k :: !steps[m].Write?
  }

  /** Step `j` is the last to write before position `k`. */
  predicate LastWrite(steps: seq<Step>, j: int, k: int) {
    0 <= j < k <= |steps| && steps[j].Write? && NoWriteBetween(steps, j, k)
  }

  /** Step `i` is the last of the request before position `k`. */
  predicate LastOwn(steps: seq<Step>, request: nat, i: int, k: int) {
    && 0 <= i < k <= |steps| && steps[i].request == request
    && forall m | i < m < k :: steps[m].request != request
  }

  /** A request writes at `k` over what another has written, at `j`, since its own
      last step, at `i`, and the table does not have that step. */
  predicate Clashes(steps: seq<Step>, i: int, j: int, k: int) {
    && 0 <= i < j < k < |steps| && steps[k].Write? && LastOwn(steps, steps[k].request, i, k)
    && LastWrite(steps, j, k) && !Allowed(steps[j].status, steps[k].status)
  }

  ghost predicate WritesClash(steps: seq<Step>) {
    exists i, j, k :: Clashes(steps, i, j, k)
  }

  /** What a request has still to write would follow the table if no other wrote. */
  ghost predicate Prepared(steps: seq<Step>, current: SessionState, plan: seq<SessionState>, request: nat) {
    && (plan != [] ==> Chain(plan[0], plan[1..]))
    && exists i :: LastOwn(steps, request, i, |steps|)
                   && (NoWriteBetween(steps, i, |steps|) ==> Chain(current, plan))
  }

  ghost predicate Followed(steps: seq<Step>)
    requires Run(steps)
  {
    var s := After(steps);
    && s.path != []
    && (forall j | LastWrite(steps, j, |steps|) :: Last(s.path) == steps[j].status)
    && (forall q | q in s.plans :: Prepared(steps, Last(s.path), s.plans[q], q))
  }

  lemma OwnStepPrepares(steps: seq<Step>, current: SessionState, plan: seq<SessionState>)
    requires steps != [] && Chain(current, plan)
    ensures Prepared(steps, current, plan, Final(steps).request)
  {
    assert LastOwn(steps, Final(steps).request, |steps| - 1, |steps|);
  }

  lemma OtherStepKeepsPrepared(steps: seq<Step>, was: SessionState, current: SessionState,
                               plan: seq<SessionState>, q: nat)
    requires steps != [] && Prepared(Front(steps), was, plan, q) && Final(steps).request != q
    requires Final(steps).Read? ==> was == current
    ensures Prepared(steps, current, plan, q)
  {
    var front, n := Front(steps), |steps| - 1;
    var i :| LastOwn(front, q, i, n) && (NoWriteBetween(front, i, n) ==> Chain(was, plan));
    assert LastOwn(steps, q, i, n + 1);
    if NoWriteBetween(steps, i, n + 1) {
      assert !steps[n].Write?;
      assert NoWriteBetween(front, i, n);
    }
  }

  lemma {:induction false} PreparedStep(steps: seq<Step>, q: nat)
    requires Run(steps) && steps != [] && Followed(Front(steps)) && q in After(steps).plans
    requires After(steps).path != []
    ensures Prepared(steps, Last(After(steps).path), After(steps).plans[q], q)
  {
    var s, t, step := After(Front(steps)), After(steps), Final(steps);
    if step.request == q {
      if step.Read? {
        LegalIsChain(Last(s.path), Steps(step.kind, Last(s.path)));
      } else {
        assert Prepared(Front(steps), Last(s.path), s.plans[q], q);
      }
      OwnStepPrepares(steps, Last(t.path), t.plans[q]);
    } else {
      OtherStepKeepsPrepared(steps, Last(s.path), Last(t.path), t.plans[q], q);
    }
  }

  lemma {:induction false} RunIsFollowed(steps: seq<Step>)
    requires Run(steps)
    ensures Followed(steps)
    decreases |steps|
  {
    if steps != [] {
      RunIsFollowed(Front(steps));
      var s, t, n := After(Front(steps)), After(steps), |steps| - 1;
      forall j | LastWrite(steps, j, n + 1) ensures Last(t.path) == steps[j].status {
        if j < n {
          assert !steps[n].Write?;
          assert LastWrite(Front(steps), j, n);
        }
      }
      forall q | q in t.plans ensures Prepared(steps, Last(t.path), t.plans[q], q) { PreparedStep(steps, q); }
    }
  }

  lemma {:induction false} SomeLastWrite(steps: seq<Step>, m: int, k: int) returns (j: int)
    requires 0 <= m < k <= |steps| && steps[m].Write?
    ensures m <= j && LastWrite(steps, j, k)
    decreases k
  {
    if steps[k - 1].Write? { j := k - 1; } else { j := SomeLastWrite(steps, m, k - 1); }
  }

  /** A request that could not write over the present status has been overtaken. */
  lemma {:induction false} OvertakenSince(steps: seq<Step>, current: SessionState, plan: seq<SessionState>, q: nat)
    returns (i: int, j: int)
    requires Prepared(steps, current, plan, q) && plan != [] && !Allowed(current, plan[0])
    ensures LastOwn(steps, q, i, |steps|) && i < j && LastWrite(steps, j, |steps|)
  {
    i :| LastOwn(steps, q, i, |steps|) && (NoWriteBetween(steps, i, |steps|) ==> Chain(current, plan));
    var m :| 0 <= m < |steps| && i < m < |steps| && steps[m].Write?;
    j := SomeLastWrite(steps, m, |steps|);
  }

  lemma {:induction false} ClashAtEnd(steps: seq<Step>, i: int, j: int)
    requires steps != [] && Final(steps).Write? && i < j
    requires LastOwn(Front(steps), Final(steps).request, i, |steps| - 1) && LastWrite(Front(steps), j, |steps| - 1)
    requires !Allowed(steps[j].status, Final(steps).status)
    ensures WritesClash(steps)
  {
    assert LastOwn(steps, Final(steps).request, i, |steps| - 1) && LastWrite(steps, j, |steps| - 1);
    assert Clashes(steps, i, j, |steps| - 1);
  }

  /** A write the table does not have over the present status clashes. */
  lemma {:induction false} IllegalWriteClashes(steps: seq<Step>)
    requires Run(steps) && steps != [] && Final(steps).Write? && After(Front(steps)).path != []
    requires !Allowed(Last(After(Front(steps)).path), Final(steps).status)
    ensures WritesClash(steps)
  {
    var s, q := After(Front(steps)), Final(steps).request;
    RunIsFollowed(Front(steps));
    assert Prepared(Front(steps), Last(s.path), s.plans[q], q);
    var i, j := OvertakenSince(Front(steps), Last(s.path), s.plans[q], q);
    ClashAtEnd(steps, i, j);
  }

  lemma {:induction false} ClashStays(steps: seq<Step>)
    requires steps != []
    ensures WritesClash(Front(steps)) ==> WritesClash(steps)
  {
    if i, j, k :| Clashes(Front(steps), i, j, k) {
      assert LastOwn(steps, steps[k].request, i, k) && LastWrite(steps, j, k);
      assert Clashes(steps, i, j, k);
    }
  }

  lemma {:induction false} EarlierClash(steps: seq<Step>, i: int, j: int, k: int)
    requires Clashes(steps, i, j, k) && k < |steps| - 1
    ensures WritesClash(Front(steps))
  {
    assert LastOwn(Front(steps), steps[k].request, i, k) && LastWrite(Front(steps), j, k);
    assert Clashes(Front(steps), i, j, k);
  }

  lemma {:induction false} LastClashIsIllegal(steps: seq<Step>, i: int, j: int)
    requires Run(steps) && Clashes(steps, i, j, |steps| - 1)
    ensures After(Front(steps)).path != []
    ensures !Allowed(Last(After(Front(steps)).path), Final(steps).status)
  {
    RunIsFollowed(Front(steps));
    assert LastWrite(Front(steps), j, |steps| - 1);
  }

  lemma {:induction false} PathLink(path: seq<SessionState>, next: SessionState)
    requires path != []
    ensures IsPath(path + [next]) <==> IsPath(path) && Allowed(Last(path), next)
  {
    var longer := path + [next];
    if IsPath(longer) {
      assert Allowed(longer[|path| - 1], longer[|path| - 1 + 1]);
      forall i | 0 <= i < |path| - 1 ensures Allowed(path[i], path[i + 1]) {
        assert Allowed(longer[i], longer[i + 1]);
      }
    }
    if IsPath(path) && Allowed(Last(path), next) { PathGrows(path, next); }
  }

  /** In every run of overlapping requests the durable status keeps to the table
      exactly when no request, overtaken by another's write since its own last step,
      writes over that one what the table does not allow. */
  lemma {:induction false} PathSurvivesIff(steps: seq<Step>)
    requires Run(steps)
    ensures IsPath(After(steps).path) <==> !WritesClash(steps)
    decreases |steps|
  {
    if steps != [] {
      var s, step := After(Front(steps)), Final(steps);
      PathSurvivesIff(Front(steps));
      RunIsFollowed(Front(steps));
      ClashStays(steps);
      if step.Write? {
        PathLink(s.path, step.status);
        if !Allowed(Last(s.path), step.status) { IllegalWriteClashes(steps); }
      }
      if i, j, k :| Clashes(steps, i, j, k) {
        if k < |steps| - 1 { EarlierClash(steps, i, j, k); }
        else { LastClashIsIllegal(steps, i, j); }
      }
    }
  }

  lemma BothReadCreated(steps: seq<Step>, p: nat, q: nat, start: Request)
    requires Run(steps) && After(steps).path != [] && Last(After(steps).path) == Created && start.Start?
    requires p !in After(steps).plans && q !in After(steps).plans && p != q
    ensures Run(steps + [Read(p, start)]) && Run(steps + [Read(p, start)] + [Read(q, start)])
    ensures var t := After(steps + [Read(p, start)] + [Read(q, start)]);
            && t.path == After(steps).path && p in t.plans && q in t.plans
            && t.plans[p] != [] && t.plans[p][0] == Preparing && t.plans[q] != [] && t.plans[q][0] == Preparing
  {
    OneMore(steps, Read(p, start));
    OneMore(steps + [Read(p, start)], Read(q, start));
  }

  /** Two starts of one new session that read its status before either writes: both
      write "preparing", which the table does not have twice. */
  lemma TwoStartsClash(steps: seq<Step>, p: nat, q: nat, start: Request) returns (longer: seq<Step>)
    requires Run(steps) && After(steps).path != [] && Last(After(steps).path) == Created && start.Start?
    requires p !in After(steps).plans && q !in After(steps).plans && p != q
    ensures longer == steps + [Read(p, start)] + [Read(q, start)] + [Write(p, Preparing)] + [Write(q, Preparing)]
    ensures Run(longer) && After(longer).path == After(steps).path + [Preparing] + [Preparing]
    ensures !IsPath(After(longer).path) && WritesClash(longer)
  {
    BothReadCreated(steps, p, q, start);
    var read := steps + [Read(p, start)] + [Read(q, start)];
    OneMore(read, Write(p, Preparing));
    OneMore(read + [Write(p, Preparing)], Write(q, Preparing));
    longer := read + [Write(p, Preparing)] + [Write(q, Preparing)];
    PathLink(After(steps).path + [Preparing], Preparing);
    PathSurvivesIff(longer);
  }
}
