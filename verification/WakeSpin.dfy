/** The spin of wake_up_common on the cpu field of its target: for whom it waits, when it ends, and
    that nothing ends it while a waker stays on that CPU. */
module WakeSpin {
  import opened Prelude
  import opened ReadyQueue
  import opened WakeSystem
  import opened WakeInvariant
  import opened WakeSwitch
  import opened WakeTheorems
  import opened WakeNest

  /** A waker never spins for a task of its own CPU, so the task it waits for can switch out. */
  lemma SpinsForOthers(k: Config, s: Sys, a: nat)
    requires Reachable(k, s) && a in s.agents && s.agents[a].pc == ComSpin
    ensures
      var g := s.agents[a];
      && g.target < |s.tasks| && s.tasks[g.target].state == WaitEvent
      && (s.tasks[g.target].cpu != -1 ==>
            && g.target < |k.home| && k.home[g.target] != g.cpu && k.home[g.target] < |s.cpus|
            && s.cpus[k.home[g.target]].cur == g.target)
  {
    ReachableOk(k, s);
    var g := s.agents[a];
    assert AgentOk(k, s, a) && TaskOk(k, s, g.target) && CpuOk(k, s, g.cpu);
  }

  /** Waker a waits for a task that is still current on CPU c. */
  ghost predicate SpinsFor(s: Sys, a: nat, c: nat) {
    && a in s.agents && s.agents[a].pc == ComSpin && s.agents[a].target < |s.tasks|
    && s.tasks[s.agents[a].target].cpu == c && c < |s.cpus| && s.cpus[c].cur == s.agents[a].target
    && s.tasks[s.agents[a].target].state == WaitEvent
  }

  // ---- a CPU without wakers ends the spin

  lemma PickLeaves(k: Config, s: Sys, c: nat)
    requires Inv(k, s) && Enabled(k, s, Pick(c)) && s.tasks[s.cpus[c].cur].state == WaitEvent
    ensures
      var s', t := DoPick(k, s, c), s.cpus[c].cur;
      && c < |s'.cpus| && s'.cpus[c].phase.Picked? && s'.cpus[c].cur == t && s'.agents == s.agents
      && |s'.tasks| == |s.tasks| && s'.tasks[t] == s.tasks[t].(place := Nowhere)
  {
    assert CpuOk(k, s, c) && TaskOk(k, s, s.cpus[c].cur);
    var next, rq := PickShape(k, s, c);
    assert next in rq.lists[k.prio[next]];
  }

  lemma SwitchFrees(k: Config, s: Sys, a: nat, c: nat)
    requires Inv(k, s) && NestOk(s) && SpinsFor(s, a, c) && s.cpus[c].phase.Picked?
    ensures
      var s' := DoSwitchOut(k, s, c);
      Sized(k, s') && Enabled(k, s', AgentStep(a))
  {
    StepKeeps(k, s, SwitchOut(c));
    assert Youngest(s, a, s.agents[a].cpu);
  }

  lemma SteadyEnds(k: Config, s: Sys, a: nat, c: nat) returns (s1: Sys, s2: Sys)
    requires Inv(k, s) && NestOk(s) && SpinsFor(s, a, c) && Undisturbed(s, c) && s.cpus[c].phase.Steady?
    ensures Next(k, s, Pick(c), s1) && Next(k, s1, SwitchOut(c), s2)
    ensures Sized(k, s2) && Enabled(k, s2, AgentStep(a))
  {
    s1 := DoPick(k, s, c);
    PickLeaves(k, s, c);
    StepKeeps(k, s, Pick(c));
    SwitchFrees(k, s1, a, c);
    s2 := DoSwitchOut(k, s1, c);
  }

  /** While no waker runs on the CPU that is waited for, two steps of its scheduler at most end the
      spin. */
  lemma SpinEnds(k: Config, s: Sys, a: nat, c: nat) returns (ss: seq<Sys>, xs: seq<Step>)
    requires Inv(k, s) && NestOk(s) && SpinsFor(s, a, c) && Undisturbed(s, c)
    ensures IsRun(k, ss, xs) && ss[0] == s && (xs == [Pick(c), SwitchOut(c)] || xs == [SwitchOut(c)])
    ensures Sized(k, ss[|xs|]) && Enabled(k, ss[|xs|], AgentStep(a))
  {
    if s.cpus[c].phase.Steady? {
      var s1, s2 := SteadyEnds(k, s, a, c);
      ss, xs := [s, s1, s2], [Pick(c), SwitchOut(c)];
    } else {
      assert TaskOk(k, s, s.agents[a].target);
      SwitchFrees(k, s, a, c);
      ss, xs := [s, DoSwitchOut(k, s, c)], [SwitchOut(c)];
    }
  }

  // ---- and a waker there keeps it from ending

  /** Task t waits and is still current on CPU d, which is not switching. */
  ghost predicate Frozen(s: Sys, t: TaskId, d: nat) {
    && t < |s.tasks| && s.tasks[t].state == WaitEvent && s.tasks[t].cpu == d
    && d < |s.cpus| && s.cpus[d].cur == t && s.cpus[d].phase == Steady
  }

  /** An interrupt of its own CPU takes the task, which nobody has locked. */
  ghost predicate Takes(s: Sys, x: Step, t: TaskId) {
    && x.AgentStep? && x.a in s.agents && s.agents[x.a].pc == IntTry && s.agents[x.a].target == t
    && t < |s.tasks| && s.tasks[t].sLock == None
  }

  lemma SameFrozen(s: Sys, s': Sys, t: TaskId, d: nat)
    requires Frozen(s, t, d) && t < |s'.tasks| && d < |s'.cpus|
    requires s'.tasks[t].cpu == s.tasks[t].cpu && s'.tasks[t].state == s.tasks[t].state
    requires s'.cpus[d].cur == s.cpus[d].cur && s'.cpus[d].phase == s.cpus[d].phase
    ensures Frozen(s', t, d)
  {
  }

  lemma ReadyKeepsFrozen(k: Config, s: Sys, t: TaskId, d: nat, e: nat, u: TaskId)
    requires Sized(k, s) && Frozen(s, t, d) && e < |s.cpus| && u < |s.tasks| && s.tasks[u].state != WaitEvent
    ensures Frozen(TaskReady(k, s, e, u), t, d)
  {
    SameFrozen(s, TaskReady(k, s, e, u), t, d);
  }

  /** The last step of a waker. */
  lemma LinkKeepsFrozen(k: Config, s: Sys, t: TaskId, d: nat, x: nat)
    requires Sized(k, s) && Frozen(s, t, d) && x in s.agents && s.agents[x].pc == ComReady
    requires s.tasks[s.agents[x].target].state == Waking
    ensures Frozen(DoAgent(k, s, x), t, d)
  {
    var g := s.agents[x];
    ReadyKeepsFrozen(k, s, t, d, g.cpu, g.target);
    SameFrozen(TaskReady(k, s, g.cpu, g.target), DoAgent(k, s, x), t, d);
  }

  lemma WakerKeepsFrozen(k: Config, s: Sys, t: TaskId, d: nat, x: nat)
    requires Inv(k, s) && Frozen(s, t, d) && Enabled(k, s, AgentStep(x)) && !Takes(s, AgentStep(x), t)
    ensures Frozen(DoAgent(k, s, x), t, d)
  {
    assert AgentOk(k, s, x);
    if s.agents[x].pc == ComReady {
      LinkKeepsFrozen(k, s, t, d, x);
    } else {
      SameFrozen(s, DoAgent(k, s, x), t, d);
    }
  }

  lemma NewKeepsFrozen(k: Config, s: Sys, t: TaskId, d: nat, e: nat)
    requires Inv(k, s) && Frozen(s, t, d) && Enabled(k, s, IrqWork(e))
    ensures Frozen(DoIrqWork(k, s, e), t, d)
  {
    assert CpuOk(k, s, e) && TaskOk(k, s, s.cpus[e].newList[0]);
    SameFrozen(s, DoIrqWork(k, s, e), t, d);
  }

  lemma PickKeepsFrozen(k: Config, s: Sys, t: TaskId, d: nat, e: nat)
    requires Sized(k, s) && Frozen(s, t, d) && e != d && Enabled(k, s, Pick(e))
    requires CpuOk(k, s, e) && TaskOk(k, s, s.cpus[e].cur) && !s.panicked && k.home[t] == d
    ensures Frozen(DoPick(k, s, e), t, d)
  {
    var next, rq := PickShape(k, s, e);
    SameFrozen(s, DoPick(k, s, e), t, d);
  }

  lemma SwitchKeepsFrozen(k: Config, s: Sys, t: TaskId, d: nat, x: Step)
    requires Sized(k, s) && Frozen(s, t, d) && Enabled(k, s, x) && k.home[t] == d
    requires (x.SwitchOut? || x.SwitchIn? || x.BeginWait? || x.FinishWait?) && x.c != d && CpuOk(k, s, x.c)
    ensures Frozen(Apply(k, s, x), t, d)
  {
    SameFrozen(s, Apply(k, s, x), t, d);
  }

  lemma SchedKeepsFrozen(k: Config, s: Sys, t: TaskId, d: nat, x: Step)
    requires Inv(k, s) && Frozen(s, t, d) && !Undisturbed(s, d) && Enabled(k, s, x)
    requires x.Pick? || x.SwitchOut? || x.SwitchIn? || x.BeginWait? || x.FinishWait?
    ensures Frozen(Apply(k, s, x), t, d)
  {
    assert CpuOk(k, s, x.c) && CpuOk(k, s, d);
    if x.Pick? {
      assert TaskOk(k, s, s.cpus[x.c].cur);
      PickKeepsFrozen(k, s, t, d, x.c);
    } else {
      SwitchKeepsFrozen(k, s, t, d, x);
    }
  }

  /** While a waker runs on the CPU of a waiting task, the task stays there, unless an interrupt of
      that CPU takes it. */
  lemma FrozenStays(k: Config, s: Sys, t: TaskId, d: nat, x: Step)
    requires Inv(k, s) && Frozen(s, t, d) && !Undisturbed(s, d) && Enabled(k, s, x) && !Takes(s, x, t)
    ensures Frozen(Apply(k, s, x), t, d)
  {
    match x
    case AgentStep(y) => WakerKeepsFrozen(k, s, t, d, y);
    case IrqWork(e) => NewKeepsFrozen(k, s, t, d, e);
    case StartTask(e, u) => ReadyKeepsFrozen(k, s, t, d, e, u);
    case WakeCall(_, _, _, _, _) => SameFrozen(s, Apply(k, s, x), t, d);
    case TimerFire(_, _) => SameFrozen(s, Apply(k, s, x), t, d);
    case _ => SchedKeepsFrozen(k, s, t, d, x);
  }
}
