/** Preservation of the wake invariant by the steps that move no task between lists. */
module WakeLocal {
  import opened Prelude
  import opened ReadyQueue
  import opened WakeSystem
  import opened WakeInvariant

  /** s' differs from s in task t and in waker a only; t stays where it was linked. */
  ghost predicate Local(s: Sys, s': Sys, t: TaskId, a: nat) {
    && t < |s.tasks|
    && s'.cpus == s.cpus
    && |s'.tasks| == |s.tasks|
    && s'.tasks == s.tasks[t := s'.tasks[t]]
    && s'.tasks[t].place == s.tasks[t].place
    && OneAgent(s, s', a)
  }

  ghost predicate OneAgent(s: Sys, s': Sys, a: nat) {
    && (forall b | b in s.agents && b != a :: b in s'.agents && s'.agents[b] == s.agents[b])
    && (forall b | b in s'.agents && b != a :: b in s.agents)
  }

  lemma LocalSized(k: Config, s: Sys, s': Sys, t: TaskId, a: nat)
    requires Sized(k, s) && Local(s, s', t, a)
    requires a in s'.agents ==> s'.agents[a].cpu < |s.cpus| && s'.agents[a].target < |s.tasks|
    ensures Sized(k, s')
  {
    forall c | 0 <= c < |s'.cpus| ensures CpuSized(k, s', s'.cpus[c]) {
      assert CpuSized(k, s, s.cpus[c]);
    }
  }

  /** The change from v to v' leaves the view of the CPU intact. */
  ghost predicate Mild(v: Task, v': Task, cpu: Cpu) {
    || (v'.state == v.state && v'.cpu == v.cpu)
    || (v.state == WaitEvent && v.cpu == -1)
    || ((v.state == Running || v.state == WaitEvent) && (v'.state == Running || v'.state == WaitEvent)
        && v'.cpu == v.cpu && cpu.phase == Steady)
  }

  lemma LocalCpu(k: Config, s: Sys, s': Sys, t: TaskId, a: nat, d: nat)
    requires Sized(k, s) && Sized(k, s') && Local(s, s', t, a) && Mild(s.tasks[t], s'.tasks[t], s.cpus[k.home[t]])
    requires d < |s.cpus| && CpuOk(k, s, d)
    ensures CpuOk(k, s', d)
  {
    assert forall u | 0 <= u < |s.tasks| :: s'.tasks[u].place == s.tasks[u].place;
    assert ReadyOk(k, s', d);
    assert NewOk(k, s', d);
  }

  lemma LocalCpus(k: Config, s: Sys, s': Sys, t: TaskId, a: nat)
    requires Sized(k, s) && Sized(k, s') && Local(s, s', t, a) && Mild(s.tasks[t], s'.tasks[t], s.cpus[k.home[t]])
    requires CpusOk(k, s)
    ensures CpusOk(k, s')
  {
    forall d | 0 <= d < |s'.cpus| ensures CpuOk(k, s', d) {
      assert CpuOk(k, s, d);
      LocalCpu(k, s, s', t, a, d);
    }
  }

  /** The wakers that task t relies on are still there when a waker of another task changed. */
  lemma Untouched(s: Sys, s': Sys, a: nat, t: TaskId, h: nat, lock: Option<nat>)
    requires OneAgent(s, s', a)
    requires a in s.agents ==> s.agents[a].target != t || (a in s'.agents && s'.agents[a] == s.agents[a])
    ensures HasOwner(s, t) ==> HasOwner(s', t)
    ensures HasStopper(s, t) ==> HasStopper(s', t)
    ensures HasTimerAgent(s, t, h) ==> HasTimerAgent(s', t, h)
    ensures HasHolder(s, t, lock) ==> HasHolder(s', t, lock)
  {
    if HasOwner(s, t) {
      var b :| b in s.agents && s.agents[b].target == t && Owns(s.agents[b]);
      assert b in s'.agents && s'.agents[b].target == t && Owns(s'.agents[b]);
    }
    if HasStopper(s, t) {
      var b :| b in s.agents && s.agents[b].target == t && Stops(s.agents[b]);
      assert b in s'.agents && s'.agents[b].target == t && Stops(s'.agents[b]);
    }
    if HasTimerAgent(s, t, h) {
      var b :| b in s.agents && s.agents[b].target == t && s.agents[b].isTimer && s.agents[b].cpu == h;
      assert b in s'.agents && s'.agents[b].target == t && s'.agents[b].isTimer && s'.agents[b].cpu == h;
    }
  }

  /** Waker a went from pc to pc' and still has the same target. */
  lemma Moved(s: Sys, s': Sys, a: nat, h: nat)
    requires OneAgent(s, s', a) && a in s.agents && a in s'.agents
    requires s'.agents[a] == s.agents[a].(pc := s'.agents[a].pc)
    ensures
      var g, g', t := s.agents[a], s'.agents[a], s.agents[a].target;
      && (HasOwner(s, t) && (Owns(g) ==> Owns(g')) ==> HasOwner(s', t))
      && (Owns(g') ==> HasOwner(s', t))
      && (HasStopper(s, t) && (Stops(g) ==> Stops(g')) ==> HasStopper(s', t))
      && (Stops(g') ==> HasStopper(s', t))
      && (HasTimerAgent(s, t, h) ==> HasTimerAgent(s', t, h))
  {
    var t := s.agents[a].target;
    assert s'.agents[a].target == t;
    if b :| b in s.agents && s.agents[b].target == t && Owns(s.agents[b]) {
      assert b != a ==> b in s'.agents && s'.agents[b].target == t && Owns(s'.agents[b]);
    }
    if b :| b in s.agents && s.agents[b].target == t && Stops(s.agents[b]) {
      assert b != a ==> b in s'.agents && s'.agents[b].target == t && Stops(s'.agents[b]);
    }
    if b :| b in s.agents && s.agents[b].target == t && s.agents[b].isTimer && s.agents[b].cpu == h {
      assert b in s'.agents && s'.agents[b].target == t && s'.agents[b].isTimer && s'.agents[b].cpu == h;
    }
  }

  /** Waker a is gone; it owned nothing. */
  lemma Left(s: Sys, s': Sys, a: nat, t: TaskId, h: nat)
    requires OneAgent(s, s', a) && a in s.agents && !Owns(s.agents[a])
    ensures HasOwner(s, t) ==> HasOwner(s', t)
    ensures HasStopper(s, t) ==> HasStopper(s', t)
    ensures HasTimerAgent(s, t, h) && !s.agents[a].isTimer ==> HasTimerAgent(s', t, h)
  {
    if b :| b in s.agents && s.agents[b].target == t && Owns(s.agents[b]) {
      assert b in s'.agents && s'.agents[b].target == t && Owns(s'.agents[b]);
    }
    if b :| b in s.agents && s.agents[b].target == t && Stops(s.agents[b]) {
      assert b in s'.agents && s'.agents[b].target == t && Stops(s'.agents[b]);
    }
    if b :| b in s.agents && s.agents[b].target == t && s.agents[b].isTimer && s.agents[b].cpu == h {
      assert b != a ==> b in s'.agents && s'.agents[b].target == t && s'.agents[b].isTimer && s'.agents[b].cpu == h;
    }
  }

  // ---- the running task begins or ends a wait

  ghost predicate IsWait(x: Step) { x.BeginWait? || x.FinishWait? }

  lemma WaitTasks(k: Config, s: Sys, x: Step)
    requires Sized(k, s) && IsWait(x) && Enabled(k, s, x) && TasksOk(k, s) && CurrentOk(k, s, x.c)
    requires Sized(k, Apply(k, s, x))
    ensures TasksOk(k, Apply(k, s, x))
  {
    var s' := Apply(k, s, x);
    forall t | 0 <= t < |s.tasks| ensures TaskOk(k, s', t) {
      assert TaskOk(k, s, t);
      assert HasOwner(s, t) == HasOwner(s', t) && HasStopper(s, t) == HasStopper(s', t);
      assert HasTimerAgent(s, t, k.home[t]) == HasTimerAgent(s', t, k.home[t]);
    }
  }

  lemma WaitAgents(k: Config, s: Sys, x: Step)
    requires Sized(k, s) && IsWait(x) && Enabled(k, s, x) && AgentsOk(k, s) && CurrentOk(k, s, x.c)
    requires Sized(k, Apply(k, s, x))
    ensures AgentsOk(k, Apply(k, s, x))
  {
    var s' := Apply(k, s, x);
    forall a | a in s.agents ensures AgentOk(k, s', a) {
      assert AgentOk(k, s, a);
    }
  }

  lemma WaitKeeps(k: Config, s: Sys, x: Step)
    requires IsWait(x) && Inv(k, s) && Enabled(k, s, x)
    ensures Inv(k, Apply(k, s, x))
  {
    var s' := Apply(k, s, x);
    var t := s.cpus[x.c].cur;
    assert CpuOk(k, s, x.c);
    LocalSized(k, s, s', t, 0);
    LocalCpus(k, s, s', t, 0);
    WaitTasks(k, s, x);
    WaitAgents(k, s, x);
  }

  // ---- a waker starts

  ghost predicate IsCall(x: Step) { x.WakeCall? || x.TimerFire? }

  lemma CallTasks(k: Config, s: Sys, x: Step)
    requires Sized(k, s) && IsCall(x) && Enabled(k, s, x) && TasksOk(k, s)
    requires Sized(k, Apply(k, s, x))
    ensures TasksOk(k, Apply(k, s, x))
  {
    var s' := Apply(k, s, x);
    forall t | 0 <= t < |s.tasks| ensures TaskOk(k, s', t) {
      assert TaskOk(k, s, t);
      Untouched(s, s', x.a, t, k.home[t], s.tasks[t].sLock);
      if x.TimerFire? {
        assert x.a in s'.agents && s'.agents[x.a].target == x.t && s'.agents[x.a].isTimer && s'.agents[x.a].cpu == k.home[x.t];
      }
    }
  }

  lemma CallPairs(k: Config, s: Sys, x: Step)
    requires Sized(k, s) && IsCall(x) && Enabled(k, s, x) && AgentsOk(k, s) && PairsOk(s)
    requires x.TimerFire? ==> !s.tasks[x.t].timer.running
    ensures PairsOk(Apply(k, s, x))
  {
    var s' := Apply(k, s, x);
    var g := s'.agents[x.a];
    forall b | b in s.agents ensures PairOk(g, s.agents[b]) {
      assert AgentOk(k, s, b);
    }
    forall a, b | a in s'.agents && b in s'.agents && a != b ensures PairOk(s'.agents[a], s'.agents[b]) {
    }
  }

  lemma CallNewAgent(k: Config, s: Sys, x: Step)
    requires Sized(k, s) && IsCall(x) && Enabled(k, s, x) && TaskOk(k, s, x.t)
    requires CurrentOk(k, s, k.home[x.t]) && Sized(k, Apply(k, s, x))
    ensures x.a in Apply(k, s, x).agents && AgentOk(k, Apply(k, s, x), x.a)
  {
  }

  lemma CallOtherAgent(k: Config, s: Sys, x: Step, a: nat)
    requires Sized(k, s) && IsCall(x) && Enabled(k, s, x) && Sized(k, Apply(k, s, x))
    requires a in s.agents && AgentOk(k, s, a) && a != x.a
    ensures a in Apply(k, s, x).agents && AgentOk(k, Apply(k, s, x), a)
  {
  }

  lemma CallAgents(k: Config, s: Sys, x: Step)
    requires Sized(k, s) && IsCall(x) && Enabled(k, s, x) && AgentsOk(k, s) && TaskOk(k, s, x.t)
    requires CurrentOk(k, s, k.home[x.t]) && Sized(k, Apply(k, s, x))
    ensures AgentsOk(k, Apply(k, s, x))
  {
    var s' := Apply(k, s, x);
    CallNewAgent(k, s, x);
    forall a | a in s'.agents ensures AgentOk(k, s', a) {
      if a != x.a {
        CallOtherAgent(k, s, x, a);
      }
    }
  }

  lemma CallKeeps(k: Config, s: Sys, x: Step)
    requires IsCall(x) && Inv(k, s) && Enabled(k, s, x)
    ensures Inv(k, Apply(k, s, x))
  {
    var s' := Apply(k, s, x);
    LocalSized(k, s, s', x.t, x.a);
    LocalCpus(k, s, s', x.t, x.a);
    assert TaskOk(k, s, x.t);
    assert CpuOk(k, s, k.home[x.t]);
    CallTasks(k, s, x);
    CallAgents(k, s, x);
    CallPairs(k, s, x);
  }

  // ---- a waker makes a step that links no task

  ghost predicate Plain(k: Config, s: Sys, a: nat)
    requires Sized(k, s)
  {
    Enabled(k, s, AgentStep(a)) && s.agents[a].pc != ComReady
  }

  /** The step as seen from the waker itself. */
  lemma SelfStep(a: nat, g: Agent, v: Task, h: nat, cpu: Cpu)
    requires AgentVal(a, g, v, h, cpu) && g.pc != ComReady && (g.pc == ComSpin ==> v.cpu == -1)
    requires v.timer.armed ==> !v.timer.running
    requires g.pc == ComSpin ==> v.place == Nowhere && (v.timer.armed ==> v.delay > 0)
    ensures
      var next := AgentNext(g, v, g.target == cpu.cur);
      next.Goto? ==> AgentVal(a, g.(pc := next.pc), AgentTask(a, g, v), h, cpu)
  {
  }

  /** The step as seen from another waker of the same task. */
  lemma OtherStep(a: nat, g: Agent, b: nat, o: Agent, v: Task, h: nat, cpuA: Cpu, cpuB: Cpu)
    requires AgentVal(a, g, v, h, cpuA) && AgentVal(b, o, v, h, cpuB)
    requires a != b && g.target == o.target && PairOk(g, o) && g.pc != ComReady
    requires g.pc == ComLock ==> v.sLock == None
    ensures AgentVal(b, o, AgentTask(a, g, v), h, cpuB)
  {
  }

  /** s' is what waker a's step makes of s, field by field. */
  ghost predicate PlainStep(k: Config, s: Sys, s': Sys, a: nat)
    requires Sized(k, s)
  {
    && a in s.agents && Local(s, s', s.agents[a].target, a)
    && var g := s.agents[a];
       var v := s.tasks[g.target];
       var next := AgentNext(g, v, g.target == s.cpus[g.cpu].cur);
       && g.pc != ComReady
       && (g.pc == ComLock ==> v.sLock == None)
       && (g.pc == ComSpin ==> v.cpu == -1)
       && s'.tasks[g.target] == AgentTask(a, g, v)
       && (a in s'.agents <==> next.Goto?)
       && (next.Goto? ==> s'.agents[a] == g.(pc := next.pc))
  }

  lemma PlainShape(k: Config, s: Sys, a: nat)
    requires Sized(k, s) && Plain(k, s, a) && AgentOk(k, s, a) && !s.panicked
    ensures PlainStep(k, s, DoAgent(k, s, a), a)
    ensures Sized(k, DoAgent(k, s, a)) && !DoAgent(k, s, a).panicked && DoAgent(k, s, a).dropped == s.dropped
  {
    var s' := DoAgent(k, s, a);
    LocalSized(k, s, s', s.agents[a].target, a);
  }

  /** The step as seen from the target; primed flags describe the wakers after it. */
  lemma StateStep(a: nat, g: Agent, v: Task, prio: nat, h: nat, cpu: Cpu, home: Cpu, owner: bool, owner': bool)
    requires Shape(home.rq) && prio < OS_PRIO_MAX
    requires AgentVal(a, g, v, h, cpu) && g.pc != ComReady
    requires g.target == cpu.cur ==> cpu == home && v.cpu == h && v.place == OnReady
    requires StateVal(v, g.target, prio, h, home, owner)
    requires owner || g.pc == ComSpin ==> owner'
    ensures StateVal(AgentTask(a, g, v), g.target, prio, h, home, owner')
  {
  }

  lemma TimerStep(a: nat, g: Agent, v: Task, h: nat, cpu: Cpu, stopper: bool, firing: bool, stopper': bool, firing': bool)
    requires AgentVal(a, g, v, h, cpu) && g.pc != ComReady && (g.pc == ComSpin ==> v.cpu == -1 && v.place == Nowhere)
    requires g.target == cpu.cur ==> v.cpu != -1
    requires TimerVal(v, stopper, firing)
    requires g.pc == ComSpin && v.delay != 0 && g.pend != PendTo ==> stopper'
    requires stopper && g.pc != ComStopWait ==> stopper'
    requires firing && g.pc != FireDone ==> firing'
    ensures TimerVal(AgentTask(a, g, v), stopper', firing')
  {
  }

  lemma HistoryStep(a: nat, g: Agent, v: Task, h: nat, cpu: Cpu)
    requires AgentVal(a, g, v, h, cpu) && HistoryOk(v)
    ensures HistoryOk(AgentTask(a, g, v))
  {
  }

  lemma PlainFlags(k: Config, s: Sys, s': Sys, a: nat)
    requires Sized(k, s) && PlainStep(k, s, s', a) && AgentOk(k, s, a)
    ensures
      var g := s.agents[a];
      var v, t, h := s.tasks[g.target], g.target, k.home[g.target];
      && (HasOwner(s, t) || g.pc == ComSpin ==> HasOwner(s', t))
      && (g.pc == ComSpin && v.delay != 0 && g.pend != PendTo ==> HasStopper(s', t))
      && (HasStopper(s, t) && g.pc != ComStopWait ==> HasStopper(s', t))
      && (HasTimerAgent(s, t, h) && g.pc != FireDone ==> HasTimerAgent(s', t, h))
      && (HasHolder(s, t, v.sLock) ==> HasHolder(s', t, s'.tasks[t].sLock))
  {
    var g := s.agents[a];
    if a in s'.agents {
      Moved(s, s', a, k.home[g.target]);
    } else {
      Left(s, s', a, g.target, k.home[g.target]);
    }
  }

  lemma PlainTarget(k: Config, s: Sys, s': Sys, a: nat)
    requires Sized(k, s) && Sized(k, s') && PlainStep(k, s, s', a)
    requires AgentOk(k, s, a) && TaskOk(k, s, s.agents[a].target) && CurrentOk(k, s, s.agents[a].cpu)
    ensures TaskOk(k, s', s.agents[a].target)
  {
    var g := s.agents[a];
    var t := g.target;
    var h := k.home[t];
    var v := s.tasks[t];
    PlainFlags(k, s, s', a);
    StateStep(a, g, v, k.prio[t], h, s.cpus[g.cpu], s.cpus[h], HasOwner(s, t), HasOwner(s', t));
    TimerStep(a, g, v, h, s.cpus[g.cpu], HasStopper(s, t), HasTimerAgent(s, t, h),
              HasStopper(s', t), HasTimerAgent(s', t, h));
    HistoryStep(a, g, v, h, s.cpus[g.cpu]);
  }

  lemma PlainTasks(k: Config, s: Sys, s': Sys, a: nat)
    requires Sized(k, s) && Sized(k, s') && PlainStep(k, s, s', a)
    requires AgentOk(k, s, a) && TasksOk(k, s) && CurrentOk(k, s, s.agents[a].cpu)
    ensures TasksOk(k, s')
  {
    forall t | 0 <= t < |s.tasks| ensures TaskOk(k, s', t) {
      assert TaskOk(k, s, t);
      if t == s.agents[a].target {
        PlainTarget(k, s, s', a);
      } else {
        Untouched(s, s', a, t, k.home[t], s.tasks[t].sLock);
      }
    }
  }

  lemma PlainAgents(k: Config, s: Sys, s': Sys, a: nat)
    requires Sized(k, s) && Sized(k, s') && PlainStep(k, s, s', a)
    requires AgentsOk(k, s) && PairsOk(s)
    requires var t := s.agents[a].target; TimerVal(s.tasks[t], HasStopper(s, t), HasTimerAgent(s, t, k.home[t]))
    requires s.agents[a].pc == ComSpin ==> s.tasks[s.agents[a].target].place == Nowhere
    ensures AgentsOk(k, s')
  {
    var g := s.agents[a];
    var t := g.target;
    assert AgentOk(k, s, a);
    forall b | b in s'.agents ensures AgentOk(k, s', b) {
      assert AgentOk(k, s, b);
      if b == a {
        SelfStep(a, g, s.tasks[t], k.home[t], s.cpus[g.cpu]);
      } else if s.agents[b].target == t {
        OtherStep(a, g, b, s.agents[b], s.tasks[t], k.home[t], s.cpus[g.cpu], s.cpus[s.agents[b].cpu]);
      }
    }
  }

  lemma PairStep(a: nat, g: Agent, b: nat, o: Agent, v: Task, h: nat, cpuA: Cpu, cpuB: Cpu)
    requires AgentVal(a, g, v, h, cpuA) && AgentVal(b, o, v, h, cpuB)
    requires g.target == o.target && PairOk(g, o)
    ensures
      var next := AgentNext(g, v, g.target == cpuA.cur);
      next.Goto? ==> PairOk(g.(pc := next.pc), o) && PairOk(o, g.(pc := next.pc))
  {
  }

  lemma PlainPairs(k: Config, s: Sys, s': Sys, a: nat)
    requires Sized(k, s) && PlainStep(k, s, s', a) && AgentsOk(k, s) && PairsOk(s)
    ensures PairsOk(s')
  {
    assert AgentOk(k, s, a);
    var g := s.agents[a];
    forall b | b in s.agents && b != a && a in s'.agents
      ensures PairOk(s'.agents[a], s.agents[b]) && PairOk(s.agents[b], s'.agents[a])
    {
      assert AgentOk(k, s, b) && PairOk(g, s.agents[b]);
      if s.agents[b].target == g.target {
        PairStep(a, g, b, s.agents[b], s.tasks[g.target], k.home[g.target], s.cpus[g.cpu], s.cpus[s.agents[b].cpu]);
      }
    }
    forall b, d | b in s'.agents && d in s'.agents && b != d ensures PairOk(s'.agents[b], s'.agents[d]) {
      if b != a && d != a {
        assert PairOk(s.agents[b], s.agents[d]);
      }
    }
  }

  lemma PlainKeeps(k: Config, s: Sys, a: nat)
    requires Inv(k, s) && Plain(k, s, a)
    ensures Inv(k, DoAgent(k, s, a))
  {
    var s' := DoAgent(k, s, a);
    var t := s.agents[a].target;
    assert AgentOk(k, s, a) && TaskOk(k, s, t);
    assert CpuOk(k, s, k.home[t]) && CpuOk(k, s, s.agents[a].cpu);
    PlainShape(k, s, a);
    LocalCpus(k, s, s', t, a);
    PlainTasks(k, s, s', a);
    PlainAgents(k, s, s', a);
    PlainPairs(k, s, s', a);
  }
}
