/** Exactly when a waker can return: when it is in no doomed set. From such a state a run is built in
    which the wakers it waits for return first. */
module WakeReturn {
  import opened Prelude
  import opened ReadyQueue
  import opened WakeSystem
  import opened WakeInvariant
  import opened WakeSwitch
  import opened WakeTheorems
  import opened WakeNest
  import opened WakeSpin
  import opened WakeClosed
  import opened WakeDoom
  import opened WaitGraph

  // ---- how far the wakers have to go

  function Rank(pc: Pc): nat {
    match pc
    case FireCheck => 9
    case ComLock => 8
    case ComCheck => 7
    case ComSpin => 6
    case ComStop => 5
    case ComStopWait => 4
    case ComReady => 3
    case ComFail => 3
    case IntCheck => 4
    case IntTry => 3
    case FireDone => 1
  }

  /** The ranks of the wakers below n. */
  function Total(m: map<nat, Agent>, n: nat): nat {
    if n == 0 then 0 else Total(m, n - 1) + if n - 1 in m then Rank(m[n - 1].pc) else 0
  }

  /** m' is m after a step of waker e. */
  ghost predicate Moved(m: map<nat, Agent>, m': map<nat, Agent>, e: nat) {
    && e in m && (e in m' ==> Rank(m'[e].pc) < Rank(m[e].pc))
    && forall i: nat | i != e :: (i in m <==> i in m') && (i in m ==> m'[i] == m[i])
  }

  lemma {:induction false} TotalFalls(m: map<nat, Agent>, m': map<nat, Agent>, e: nat, n: nat)
    requires Moved(m, m', e)
    ensures if e < n then Total(m', n) < Total(m, n) else Total(m', n) == Total(m, n)
  {
    if n > 0 {
      TotalFalls(m, m', e, n - 1);
    }
  }

  lemma StepMoves(k: Config, s: Sys, e: nat)
    requires Sized(k, s) && Enabled(k, s, AgentStep(e))
    ensures Moved(s.agents, DoAgent(k, s, e).agents, e)
  {
  }

  // ---- a step of a waker that waits for nobody ties nobody

  /** What the step of waker e leaves of the target of another. */
  lemma TaskTies(a: nat, g: Agent, v: Task, v': Task, b: nat, h: Agent)
    requires Ties(a, g, v', b, h)
    requires v'.state == WaitEvent ==> v.state == WaitEvent
    requires v'.sLock == Some(b) ==> v.sLock == Some(b)
    requires v'.timer.running ==> v.timer.running
    requires v'.cpu == v.cpu || (v'.cpu == -1 && v'.state == WaitEvent) || (v'.state != WaitEvent && g.pc != ComSpin)
    ensures Ties(a, g, v, b, h)
  {
  }

  /** v' is the target v of waker e after its step. */
  ghost predicate TargetAfter(e: nat, v: Task, v': Task) {
    && (v'.state == WaitEvent ==> v.state == WaitEvent) && (v'.sLock == v.sLock || v'.sLock == None || v'.sLock == Some(e))
    && (v'.timer.running ==> v.timer.running) && (v'.cpu == v.cpu || (v'.state == Waking == v.state))
  }

  lemma TaskTarget(e: nat, g: Agent, v: Task)
    ensures TargetAfter(e, v, AgentTask(e, g, v))
  {
  }

  lemma ReadyTarget(k: Config, s: Sys, c: nat, u: TaskId, e: nat, t: TaskId)
    requires Sized(k, s) && c < |s.cpus| && u < |s.tasks| && t < |s.tasks| && s.tasks[u].state == Waking
    ensures
      var s' := TaskReady(k, s, c, u);
      |s'.tasks| == |s.tasks| && if t == u then TargetAfter(e, s.tasks[t], s'.tasks[t]) else s'.tasks[t] == s.tasks[t]
  {
  }

  lemma StepTarget(k: Config, s: Sys, e: nat, t: TaskId)
    requires Sized(k, s) && e in s.agents && AgentOk(k, s, e) && t < |s.tasks|
    ensures
      var s' := DoAgent(k, s, e);
      |s'.tasks| == |s.tasks| && if t == s.agents[e].target then TargetAfter(e, s.tasks[t], s'.tasks[t]) else s'.tasks[t] == s.tasks[t]
  {
    var g := s.agents[e];
    if g.pc == ComReady {
      ReadyTarget(k, s, g.cpu, g.target, e, t);
    } else {
      TaskTarget(e, g, s.tasks[g.target]);
    }
  }

  lemma StepTies(k: Config, s: Sys, e: nat, a: nat, b: nat)
    requires Inv(k, s) && Enabled(k, s, AgentStep(e)) && a != e && b != e && TiedTo(DoAgent(k, s, e), a, b)
    ensures TiedTo(s, a, b)
  {
    StepMoves(k, s, e);
    assert AgentOk(k, s, a) && AgentOk(k, s, e);
    var t := s.agents[a].target;
    StepTarget(k, s, e, t);
    TaskTies(a, s.agents[a], s.tasks[t], DoAgent(k, s, e).tasks[t], b, s.agents[b]);
  }

  /** Waker e is not on its way into a spin that another waker keeps from ending. */
  ghost predicate Clear(s: Sys, e: nat) {
    && e in s.agents && s.agents[e].target < |s.tasks|
    && var v := s.tasks[s.agents[e].target];
       s.agents[e].pc in {ComLock, ComCheck} && v.state == WaitEvent ==> forall b | b in s.agents :: v.cpu != s.agents[b].cpu
  }

  lemma StepIsUntied(k: Config, s: Sys, e: nat, b: nat)
    requires Inv(k, s) && Enabled(k, s, AgentStep(e)) && Clear(s, e) && !s.agents[e].isTimer
    requires TiedTo(DoAgent(k, s, e), e, b)
    ensures s.agents[e].pc == ComStop && DoAgent(k, s, e).agents[b].isTimer
  {
    StepMoves(k, s, e);
    assert AgentOk(k, s, e);
  }

  lemma StepNotDoomed(k: Config, s: Sys, e: nat, w: set<nat>)
    requires Inv(k, s) && NestOk(s) && Enabled(k, s, AgentStep(e)) && Clear(s, e) && Doomed(DoAgent(k, s, e), w)
    ensures e !in w
  {
    var s' := DoAgent(k, s, e);
    StepKeeps(k, s, AgentStep(e));
    NestKeeps(k, s, AgentStep(e));
    if e in w {
      var b := NextInDoomed(s', w, e);
      TimerNotDoomed(k, s', w, e);
      StepIsUntied(k, s, e, b);
      TimerNotDoomed(k, s', w, b);
    }
  }

  lemma StepDoomsNobody(k: Config, s: Sys, e: nat, w: set<nat>)
    requires Inv(k, s) && NestOk(s) && Enabled(k, s, AgentStep(e)) && Clear(s, e) && Doomed(DoAgent(k, s, e), w)
    ensures Doomed(s, w)
  {
    StepNotDoomed(k, s, e, w);
    forall a, b | a in w && b in w && Tied(DoAgent(k, s, e))(a, b) ensures Tied(s)(a, b) {
      StepTies(k, s, e, a, b);
    }
    ClosedMono(Tied(DoAgent(k, s, e)), Tied(s), w);
  }

  // ---- what may have to happen before that step

  /** s' is s with a change of task t that ties nobody: it has left its CPU, or it waits no longer. */
  ghost predicate Released(s: Sys, s': Sys, t: TaskId) {
    && t < |s.tasks| && s'.agents == s.agents && |s'.tasks| == |s.tasks|
    && (forall u | 0 <= u < |s.tasks| && u != t :: s'.tasks[u] == s.tasks[u])
    && var v, v' := s.tasks[t], s'.tasks[t];
       && v'.sLock == v.sLock && v'.timer.running == v.timer.running
       && ((v'.cpu == -1 && v'.state == WaitEvent == v.state) || (v'.cpu == v.cpu && v'.state == Running))
  }

  lemma ReleaseTies(s: Sys, s': Sys, t: TaskId, a: nat, b: nat)
    requires Released(s, s', t) && TiedTo(s', a, b)
    ensures TiedTo(s, a, b)
  {
    var u := s.agents[a].target;
    if u == t {
      TaskTies(a, s.agents[a], s.tasks[t], s'.tasks[t], b, s.agents[b]);
    }
  }

  lemma ReleaseDoomsNobody(s: Sys, s': Sys, t: TaskId, w: set<nat>)
    requires Released(s, s', t) && Doomed(s', w)
    ensures Doomed(s, w)
  {
    forall a, b | a in w && b in w && Tied(s')(a, b) ensures Tied(s)(a, b) {
      ReleaseTies(s, s', t, a, b);
    }
    ClosedMono(Tied(s'), Tied(s), w);
  }

  lemma SwitchReleases(k: Config, s: Sys, t: TaskId, c: nat)
    requires Inv(k, s) && c < |s.cpus| && s.cpus[c].cur == t && s.tasks[t].state == WaitEvent && s.cpus[c].phase.Picked?
    ensures Released(s, DoSwitchOut(k, s, c), t) && DoSwitchOut(k, s, c).tasks[t].cpu == -1
  {
  }

  lemma PickReleases(k: Config, s: Sys, t: TaskId, c: nat)
    requires Inv(k, s) && Frozen(s, t, c) && Undisturbed(s, c)
    ensures
      && Enabled(k, s, Pick(c))
      && var s' := DoPick(k, s, c);
         && c < |s'.cpus| && s'.cpus[c].cur == t && s'.cpus[c].phase.Picked? && s'.agents == s.agents && |s'.tasks| == |s.tasks|
         && s'.tasks[t] == s.tasks[t].(place := Nowhere) && forall u | 0 <= u < |s.tasks| && u != t :: s'.tasks[u] == s.tasks[u]
  {
    PickLeaves(k, s, c);
  }

  /** A CPU without wakers switches away from its waiting task. */
  lemma SwitchAway(k: Config, s: Sys, t: TaskId, c: nat) returns (ss: seq<Sys>, xs: seq<Step>)
    requires Inv(k, s) && t < |s.tasks| && s.tasks[t].state == WaitEvent && s.tasks[t].cpu == c && Undisturbed(s, c)
    ensures IsRun(k, ss, xs) && ss[0] == s && Released(s, ss[|xs|], t) && ss[|xs|].tasks[t].cpu == -1
  {
    assert TaskOk(k, s, t);
    if s.cpus[c].phase.Steady? {
      var s1 := DoPick(k, s, c);
      PickReleases(k, s, t, c);
      StepKeeps(k, s, Pick(c));
      SwitchReleases(k, s1, t, c);
      ss, xs := [s, s1, DoSwitchOut(k, s1, c)], [Pick(c), SwitchOut(c)];
    } else {
      SwitchReleases(k, s, t, c);
      ss, xs := [s, DoSwitchOut(k, s, c)], [SwitchOut(c)];
    }
  }

  /** A waker of the current task of CPU d, called in an interrupt there. */
  function Caller(d: nat, t: TaskId, pc: Pc): Agent {
    Agent(d, t, PendOk, 0, false, 0, pc)
  }

  lemma Call(k: Config, s: Sys, t: TaskId, d: nat, n: nat)
    requires Inv(k, s) && Frozen(s, t, d) && Admits(s, d) && forall b | b in s.agents :: b < n
    ensures Next(k, s, WakeCall(n, d, t, PendOk, 0), s.(agents := s.agents[n := Caller(d, t, IntCheck)]))
  {
  }

  lemma CallChecks(k: Config, s: Sys, t: TaskId, d: nat, n: nat, m: map<nat, Agent>)
    requires Sized(k, s) && Frozen(s, t, d) && s.agents == m[n := Caller(d, t, IntCheck)] && n !in m && forall b | b in m :: b < n
    ensures Next(k, s, AgentStep(n), s.(agents := m[n := Caller(d, t, IntTry)]))
  {
    assert s.tasks[t := s.tasks[t]] == s.tasks;
    assert m[n := Caller(d, t, IntCheck)][n := Caller(d, t, IntTry)] == m[n := Caller(d, t, IntTry)];
  }

  lemma CallTakes(k: Config, s: Sys, t: TaskId, d: nat, n: nat, m: map<nat, Agent>)
    requires Sized(k, s) && Frozen(s, t, d) && s.agents == m[n := Caller(d, t, IntTry)] && n !in m && forall b | b in m :: b < n
    requires s.tasks[t].sLock == None
    ensures
      && Enabled(k, s, AgentStep(n))
      && var s' := DoAgent(k, s, n);
         && s'.agents == m && s'.cpus == s.cpus && |s'.tasks| == |s.tasks| && s'.tasks[t].state == Running
         && s'.tasks[t].cpu == s.tasks[t].cpu && s'.tasks[t].sLock == None && s'.tasks[t].timer == s.tasks[t].timer
         && forall u | 0 <= u < |s.tasks| && u != t :: s'.tasks[u] == s.tasks[u]
  {
    assert m[n := Caller(d, t, IntTry)] - {n} == m;
  }

  /** An interrupt of its CPU takes a waiting task that nobody has locked. */
  lemma TakeAway(k: Config, s: Sys, t: TaskId, d: nat, n: nat) returns (ss: seq<Sys>, xs: seq<Step>)
    requires Inv(k, s) && Frozen(s, t, d) && Admits(s, d) && s.tasks[t].sLock == None && forall b | b in s.agents :: b < n
    ensures IsRun(k, ss, xs) && ss[0] == s && Released(s, ss[|xs|], t) && ss[|xs|].tasks[t].state == Running
  {
    var s1, s2 := s.(agents := s.agents[n := Caller(d, t, IntCheck)]), s.(agents := s.agents[n := Caller(d, t, IntTry)]);
    Call(k, s, t, d, n);
    StepKeeps(k, s, WakeCall(n, d, t, PendOk, 0));
    CallChecks(k, s1, t, d, n, s.agents);
    StepKeeps(k, s1, AgentStep(n));
    CallTakes(k, s2, t, d, n, s.agents);
    ss, xs := [s, s1, s2, DoAgent(k, s2, n)], [WakeCall(n, d, t, PendOk, 0), AgentStep(n), AgentStep(n)];
  }

  // ---- one waker after the other

  /** From s to s' nobody is doomed anew. */
  ghost predicate Spares(s: Sys, s': Sys) {
    forall w: set<nat> | Doomed(s', w) :: Doomed(s, w)
  }

  /** Waker e can make its step, and it does not lead into a spin that cannot end. */
  ghost predicate Clears(k: Config, s: Sys, e: nat) {
    Sized(k, s) && Enabled(k, s, AgentStep(e)) && Clear(s, e)
  }

  lemma FreeFacts(k: Config, s: Sys, e: nat)
    requires Inv(k, s) && e in s.agents && Free(Tied(s), e)
    ensures
      var g := s.agents[e];
      var v := s.tasks[g.target];
      && Youngest(s, e, g.cpu)
      && (g.pc == ComLock ==> v.sLock == None) && (g.pc == ComStopWait ==> !v.timer.running)
      && (g.pc in {ComCheck, ComSpin} && v.state == WaitEvent ==> forall b | b in s.agents :: v.cpu != s.agents[b].cpu)
      && (g.pc == ComLock && v.state == WaitEvent ==> forall b | b in s.agents && v.cpu == s.agents[b].cpu :: !IrqOff(s.agents[b]))
  {
    assert forall b | b in s.agents :: !Tied(s)(e, b);
    assert forall b | b in s.agents :: !TiedTo(s, e, b);
    assert AgentOk(k, s, e) && TaskOk(k, s, s.agents[e].target);
  }

  /** Before a waker that waits for nobody makes its step: the CPU of its target switches, or an interrupt
      there takes the target. */
  lemma Prepare(k: Config, s: Sys, e: nat, n: nat) returns (ss: seq<Sys>, xs: seq<Step>)
    requires Inv(k, s) && e in s.agents && Free(Tied(s), e) && forall b | b in s.agents :: b < n
    ensures IsRun(k, ss, xs) && ss[0] == s && ss[|xs|].agents == s.agents && Spares(s, ss[|xs|])
    ensures Clears(k, ss[|xs|], e)
  {
    var g := s.agents[e];
    var t, v := g.target, s.tasks[g.target];
    FreeFacts(k, s, e);
    assert AgentOk(k, s, e) && TaskOk(k, s, t);
    if g.pc == ComSpin && v.cpu != -1 {
      ss, xs := SwitchAway(k, s, t, v.cpu);
    } else if g.pc == ComLock && v.state == WaitEvent && v.cpu != -1 && !Undisturbed(s, v.cpu) {
      var b :| b in s.agents && s.agents[b].cpu == v.cpu;
      assert AgentOk(k, s, b);
      ss, xs := TakeAway(k, s, t, v.cpu, n);
    } else {
      ss, xs := [s], [];
    }
    var s1 := ss[|xs|];
    RunKeeps(k, ss, xs, |xs|);
    if |xs| > 0 {
      forall w: set<nat> | Doomed(s1, w) ensures Doomed(s, w) {
        ReleaseDoomsNobody(s, s1, t, w);
      }
    }
  }

  lemma JoinRuns(k: Config, ss: seq<Sys>, xs: seq<Step>, ts: seq<Sys>, ys: seq<Step>)
    requires IsRun(k, ss, xs) && IsRun(k, ts, ys) && ss[|xs|] == ts[0]
    ensures IsRun(k, ss + ts[1..], xs + ys) && (ss + ts[1..])[0] == ss[0] && (ss + ts[1..])[|xs + ys|] == ts[|ys|]
  {
    JoinSteps((s, x, s') => Next(k, s, x, s'), ss, xs, ts, ys);
  }

  /** A waker that waits for nobody gets one step further, and nobody is doomed by it. */
  lemma Advance(k: Config, s: Sys, e: nat, n: nat) returns (ss: seq<Sys>, xs: seq<Step>)
    requires Inv(k, s) && NestOk(s) && e in s.agents && Free(Tied(s), e) && forall b | b in s.agents :: b < n
    ensures IsRun(k, ss, xs) && ss[0] == s && Moved(s.agents, ss[|xs|].agents, e) && Spares(s, ss[|xs|])
  {
    var rs, zs := Prepare(k, s, e, n);
    var s1 := rs[|zs|];
    RunKeeps(k, rs, zs, |zs|);
    RunNest(k, rs, zs, |zs|);
    var s2 := DoAgent(k, s1, e);
    StepMoves(k, s1, e);
    forall w: set<nat> | Doomed(s2, w) ensures Doomed(s, w) {
      StepDoomsNobody(k, s1, e, w);
    }
    JoinRuns(k, rs, zs, [s1, s2], [AgentStep(e)]);
    ss, xs := rs + [s1, s2][1..], zs + [AgentStep(e)];
  }

  lemma SparesHope(s: Sys, s': Sys, a: nat)
    requires Spares(s, s') && !InClosed(Tied(s), a)
    ensures !InClosed(Tied(s'), a)
  {
    forall w: set<nat> | Closed(Tied(s'), w) ensures a !in w {
      assert Doomed(s', w);
    }
  }

  /** A waker in no doomed set waits, through others at most, for one that waits for nobody. */
  lemma SomebodyFree(s: Sys, a: nat) returns (e: nat)
    requires a in s.agents && !InClosed(Tied(s), a)
    ensures e in s.agents && Free(Tied(s), e)
  {
    var r := Tied(s);
    assert Within(r, s.agents.Keys);
    var l := ChainEnds(r, [a], s.agents.Keys);
    e := l[|l| - 1];
  }

  /** A waker in no doomed set: a run at the end of which it has returned. */
  lemma {:induction false} RunsHome(k: Config, s: Sys, a: nat, n: nat) returns (ss: seq<Sys>, xs: seq<Step>)
    requires Inv(k, s) && NestOk(s) && a in s.agents && !InClosed(Tied(s), a) && forall b | b in s.agents :: b < n
    ensures IsRun(k, ss, xs) && ss[0] == s && a !in ss[|xs|].agents
    decreases Total(s.agents, n)
  {
    var e := SomebodyFree(s, a);
    ss, xs := Advance(k, s, e, n);
    var s' := ss[|xs|];
    TotalFalls(s.agents, s'.agents, e, n);
    if a in s'.agents {
      RunKeeps(k, ss, xs, |xs|);
      RunNest(k, ss, xs, |xs|);
      SparesHope(s, s', a);
      var ts, ys := RunsHome(k, s', a, n);
      JoinRuns(k, ss, xs, ts, ys);
      ss, xs := ss + ts[1..], xs + ys;
    }
  }

  // ---- the exact condition

  /** There is a run from s at the end of which waker a has returned. */
  ghost predicate CanReturn(k: Config, s: Sys, a: nat) {
    exists ss: seq<Sys>, xs: seq<Step> :: IsRun(k, ss, xs) && ss[0] == s && a !in ss[|xs|].agents
  }

  lemma DoomedNext(k: Config, s: Sys, x: Step, s': Sys, w: set<nat>)
    requires Inv(k, s) && NestOk(s) && Next(k, s, x, s')
    ensures Doomed(s, w) ==> Doomed(s', w)
  {
    if Doomed(s, w) {
      DoomedStays(k, s, x, w);
    }
  }

  /** Whether w is doomed in state m of a run, and whether the step there keeps it so. */
  ghost predicate DoomedAt(ss: seq<Sys>, w: set<nat>, m: nat) {
    m < |ss| && Doomed(ss[m], w)
  }

  ghost predicate DoomsOn(ss: seq<Sys>, w: set<nat>, m: nat) {
    DoomedAt(ss, w, m) ==> DoomedAt(ss, w, m + 1)
  }

  lemma DoomedRunStep(k: Config, ss: seq<Sys>, xs: seq<Step>, w: set<nat>, m: nat)
    requires IsRun(k, ss, xs) && Inv(k, ss[0]) && NestOk(ss[0]) && m < |xs|
    ensures DoomsOn(ss, w, m)
  {
    RunKeeps(k, ss, xs, m);
    RunNest(k, ss, xs, m);
    DoomedNext(k, ss[m], xs[m], ss[m + 1], w);
  }

  lemma {:induction false} DoomedTo(ss: seq<Sys>, w: set<nat>, i: nat)
    requires DoomedAt(ss, w, 0) && forall m | 0 <= m < i :: DoomsOn(ss, w, m)
    ensures DoomedAt(ss, w, i)
  {
    if i > 0 {
      DoomedTo(ss, w, i - 1);
      assert DoomsOn(ss, w, i - 1);
    }
  }

  lemma DoomedAlong(k: Config, ss: seq<Sys>, xs: seq<Step>, w: set<nat>, i: nat)
    requires IsRun(k, ss, xs) && Inv(k, ss[0]) && NestOk(ss[0]) && DoomedAt(ss, w, 0) && i <= |xs|
    ensures DoomedAt(ss, w, i)
  {
    forall m | 0 <= m < i ensures DoomsOn(ss, w, m) {
      DoomedRunStep(k, ss, xs, w, m);
    }
    DoomedTo(ss, w, i);
  }

  lemma {:induction false} Bound(w: set<nat>) returns (n: nat)
    ensures forall b | b in w :: b < n
  {
    if w == {} {
      n := 0;
    } else {
      var a :| a in w;
      var m := Bound(w - {a});
      n := if a < m then m else a + 1;
      assert forall b | b in w :: b == a || b in w - {a};
    }
  }

  /** In every reachable state, a waker can still return exactly when it is in no doomed set. */
  lemma ReturnsIff(k: Config, s: Sys, a: nat)
    requires Reachable(k, s) && a in s.agents
    ensures CanReturn(k, s, a) <==> !InClosed(Tied(s), a)
  {
    ReachableOk(k, s);
    ReachableNest(k, s);
    if !InClosed(Tied(s), a) {
      var n := Bound(s.agents.Keys);
      var ss, xs := RunsHome(k, s, a, n);
    }
    if CanReturn(k, s, a) && InClosed(Tied(s), a) {
      var ss: seq<Sys>, xs: seq<Step> :| IsRun(k, ss, xs) && ss[0] == s && a !in ss[|xs|].agents;
      var w: set<nat> :| a in w && Closed(Tied(s), w);
      DoomedAlong(k, ss, xs, w, |xs|);
      var b := NextInDoomed(ss[|xs|], w, a);
    }
  }
}
