/** Preservation of the wake invariant by the steps that link and unlink tasks. */
module WakeLists {
  import opened Prelude
  import opened ReadyQueue
  import opened WakeSystem
  import opened WakeInvariant
  import opened WakeLocal

  /** A task with another home is of no concern to CPU d. */
  lemma ForeignCpu(k: Config, s: Sys, s': Sys, t: TaskId, d: nat)
    requires Sized(k, s) && Sized(k, s') && t < |s.tasks| && d < |s.cpus| && k.home[t] != d && CpuOk(k, s, d)
    requires |s'.tasks| == |s.tasks| && |s'.cpus| == |s.cpus| && s'.cpus[d] == s.cpus[d]
    requires forall u | 0 <= u < |s.tasks| && u != t :: s'.tasks[u] == s.tasks[u]
    ensures CpuOk(k, s', d)
  {
    assert ReadyOk(k, s', d);
    assert NewOk(k, s', d);
  }

  lemma AddLocalSized(k: Config, s: Sys, c: nat, t: TaskId)
    requires Sized(k, s) && c < |s.cpus| && t < |s.tasks| && CpuOk(k, s, c)
    requires s.cpus[c].phase == Steady && s.tasks[t].place == Nowhere
    ensures Sized(k, AddLocal(k, s, c, t))
  {
    var cpu := s.cpus[c];
    var p := k.prio[t];
    assert t !in cpu.rq.lists[p];
    AddReadyKeeps(cpu.rq, t, p, cpu.cur, k.prio[cpu.cur]);
    var rq := AddReady(cpu.rq, t, p, cpu.cur, k.prio[cpu.cur]);
    forall i | 0 <= i < |rq.lists[p]| ensures rq.lists[p][i] < |s.tasks| {
      assert rq.lists[p][i] in rq.lists[p];
    }
    var s' := AddLocal(k, s, c, t);
    forall d | 0 <= d < |s'.cpus| ensures CpuSized(k, s', s'.cpus[d]) {
      assert CpuSized(k, s, s.cpus[d]);
    }
  }

  lemma AddLocalKeeps(k: Config, s: Sys, s': Sys, c: nat, t: TaskId)
    requires Sized(k, s) && c < |s.cpus| && t < |s.tasks| && CpuOk(k, s, c) && Sized(k, s')
    requires s.cpus[c].phase == Steady && s.tasks[t].place == Nowhere && k.home[t] == c
    requires s' == AddLocal(k, s, c, t)
    ensures t in s'.cpus[c].rq.lists[k.prio[t]]
    ensures IsLast(s'.cpus[c].rq.lists[k.prio[s.cpus[c].cur]], s.cpus[c].cur)
    ensures forall p, u | 0 <= p < OS_PRIO_MAX && u in s.cpus[c].rq.lists[p] :: u in s'.cpus[c].rq.lists[p]
  {
    var cpu := s.cpus[c];
    assert t !in cpu.rq.lists[k.prio[t]];
    AddReadyKeeps(cpu.rq, t, k.prio[t], cpu.cur, k.prio[cpu.cur]);
  }

  lemma AddLocalReady(k: Config, s: Sys, s': Sys, c: nat, t: TaskId)
    requires Sized(k, s) && c < |s.cpus| && t < |s.tasks| && CpuOk(k, s, c) && Sized(k, s')
    requires s.cpus[c].phase == Steady && s.tasks[t].place == Nowhere && k.home[t] == c
    requires s' == AddLocal(k, s, c, t)
    ensures ReadyOk(k, s', c)
  {
    var cpu := s.cpus[c];
    var p := k.prio[t];
    assert t !in cpu.rq.lists[p];
    AddReadyKeeps(cpu.rq, t, p, cpu.cur, k.prio[cpu.cur]);
    var rq := s'.cpus[c].rq;
    forall q, i | 0 <= q < OS_PRIO_MAX && 0 <= i < |rq.lists[q]|
      ensures var u := rq.lists[q][i]; k.home[u] == c && k.prio[u] == q && s'.tasks[u].place == OnReady
    {
      assert rq.lists[q][i] in rq.lists[q];
    }
  }

  lemma AddLocalCpu(k: Config, s: Sys, s': Sys, c: nat, t: TaskId)
    requires Sized(k, s) && c < |s.cpus| && t < |s.tasks| && CpuOk(k, s, c) && Sized(k, s')
    requires s.cpus[c].phase == Steady && s.tasks[t].place == Nowhere && k.home[t] == c
    requires s' == AddLocal(k, s, c, t)
    ensures CpuOk(k, s', c)
  {
    AddLocalReady(k, s, s', c, t);
    AddLocalKeeps(k, s, s', c, t);
    assert t != s.cpus[c].cur;
    assert NewOk(k, s', c);
  }

  // ---- task_ready

  /** s' is s with task t linked to a list of its home. */
  ghost predicate Relink(k: Config, s: Sys, s': Sys, t: TaskId)
    requires Sized(k, s)
  {
    && t < |s.tasks| && |s'.tasks| == |s.tasks| && |s'.cpus| == |s.cpus|
    && (forall u | 0 <= u < |s.tasks| && u != t :: s'.tasks[u] == s.tasks[u])
    && (forall d | 0 <= d < |s.cpus| && d != k.home[t] :: s'.cpus[d] == s.cpus[d])
    && RelinkCpu(s.cpus[k.home[t]], s'.cpus[k.home[t]], t)
  }

  ghost predicate RelinkCpu(cpu: Cpu, cpu': Cpu, t: TaskId) {
    && cpu'.cur == cpu.cur && cpu'.phase == cpu.phase && Shape(cpu.rq) && Shape(cpu'.rq)
    && (forall p, u | 0 <= p < OS_PRIO_MAX && u in cpu.rq.lists[p] :: u in cpu'.rq.lists[p])
    && (forall u | u in cpu.newList && u != t :: u in cpu'.newList)
  }

  lemma RelinkCpus(k: Config, s: Sys, s': Sys, t: TaskId)
    requires Sized(k, s) && Sized(k, s') && Relink(k, s, s', t) && CpusOk(k, s) && CpuOk(k, s', k.home[t])
    ensures CpusOk(k, s')
  {
    forall d | 0 <= d < |s'.cpus| ensures CpuOk(k, s', d) {
      assert CpuOk(k, s, d);
      if d != k.home[t] {
        ForeignCpu(k, s, s', t, d);
      }
    }
  }

  lemma RelinkTasks(k: Config, s: Sys, s': Sys, t: TaskId, a: nat)
    requires Sized(k, s) && Sized(k, s') && Relink(k, s, s', t) && TasksOk(k, s) && TaskOk(k, s', t)
    requires OneAgent(s, s', a) && (a in s.agents ==> s.agents[a].target == t || s'.agents == s.agents)
    ensures TasksOk(k, s')
  {
    forall u | 0 <= u < |s'.tasks| ensures TaskOk(k, s', u) {
      assert TaskOk(k, s, u);
      if u != t {
        Untouched(s, s', a, u, k.home[u], s.tasks[u].sLock);
      }
    }
  }

  /** A task that is not current is of no concern to a CPU that is not switching. */
  lemma NotCurrent(k: Config, s: Sys, s': Sys, t: TaskId, c: nat)
    requires Sized(k, s) && Sized(k, s') && t < |s.tasks| && c < |s.cpus| && CpuOk(k, s, c)
    requires s.cpus[c].phase == Steady && s.cpus[c].cur != t
    requires s' == PutTask(s, t, s'.tasks[t]) && s'.tasks[t].place == s.tasks[t].place
    ensures CpuOk(k, s', c)
  {
    assert ReadyOk(k, s', c);
    assert NewOk(k, s', c);
  }

  /** The outcome of task_ready on a task that was on no list. */
  ghost predicate MadeReady(k: Config, s: Sys, s': Sys, t: TaskId) {
    && Sized(k, s) && Sized(k, s') && Relink(k, s, s', t)
    && s'.panicked == s.panicked && s'.dropped == s.dropped && s'.agents == s.agents
    && CpuOk(k, s', k.home[t])
    && var v' := s'.tasks[t];
       && v' == s.tasks[t].(cpu := k.home[t], place := v'.place)
       && (|| (v'.place == OnReady && t in s'.cpus[k.home[t]].rq.lists[k.prio[t]])
           || (v'.place == OnNew && t in s'.cpus[k.home[t]].newList))
  }

  lemma LocalReady(k: Config, s: Sys, c: nat, t: TaskId)
    requires Sized(k, s) && c < |s.cpus| && t < |s.tasks| && CpuOk(k, s, c)
    requires s.cpus[c].phase == Steady && s.tasks[t].place == Nowhere && k.home[t] == c
    ensures MadeReady(k, s, TaskReady(k, s, c, t), t)
  {
    var s1 := PutTask(s, t, s.tasks[t].(cpu := c));
    var s' := TaskReady(k, s, c, t);
    LocalSized(k, s, s1, t, 0);
    NotCurrent(k, s, s1, t, c);
    AddLocalSized(k, s1, c, t);
    AddLocalKeeps(k, s1, s', c, t);
    AddLocalCpu(k, s1, s', c, t);
    assert RelinkCpu(s.cpus[c], s'.cpus[c], t);
  }

  lemma RemoteReady(k: Config, s: Sys, c: nat, t: TaskId)
    requires Sized(k, s) && c < |s.cpus| && t < |s.tasks| && CpuOk(k, s, k.home[t]) && k.home[t] != c
    requires s.tasks[t].place == Nowhere && (s.tasks[t].state == Waking || s.tasks[t].state == Suspend)
    ensures MadeReady(k, s, TaskReady(k, s, c, t), t)
  {
    var h := k.home[t];
    var s' := TaskReady(k, s, c, t);
    assert s'.tasks == s.tasks[t := s.tasks[t].(cpu := h, place := OnNew)];
    forall d | 0 <= d < |s'.cpus| ensures CpuSized(k, s', s'.cpus[d]) {
      assert CpuSized(k, s, s.cpus[d]);
    }
    assert Sized(k, s');
    RemoteCpu(k, s, s', t);
    assert RelinkCpu(s.cpus[h], s'.cpus[h], t);
  }

  lemma RemoteCpu(k: Config, s: Sys, s': Sys, t: TaskId)
    requires Sized(k, s) && t < |s.tasks| && CpuOk(k, s, k.home[t]) && Sized(k, s')
    requires s.tasks[t].place == Nowhere && (s.tasks[t].state == Waking || s.tasks[t].state == Suspend)
    requires s'.tasks == s.tasks[t := s.tasks[t].(cpu := k.home[t], place := OnNew)]
    requires s'.cpus == s.cpus[k.home[t] := s.cpus[k.home[t]].(newList := s.cpus[k.home[t]].newList + [t])]
    ensures CpuOk(k, s', k.home[t]) && t in s'.cpus[k.home[t]].newList
  {
    var h := k.home[t];
    assert ReadyOk(k, s', h);
    assert s'.cpus[h].newList[|s.cpus[h].newList|] == t;
    assert NewOk(k, s', h);
  }

  lemma TaskReadyLinks(k: Config, s: Sys, c: nat, t: TaskId)
    requires Sized(k, s) && c < |s.cpus| && t < |s.tasks| && CpuOk(k, s, c) && CpuOk(k, s, k.home[t])
    requires s.cpus[c].phase == Steady && s.tasks[t].place == Nowhere
    requires s.tasks[t].state == Waking || s.tasks[t].state == Suspend
    ensures MadeReady(k, s, TaskReady(k, s, c, t), t)
  {
    if k.home[t] == c {
      LocalReady(k, s, c, t);
    } else {
      RemoteReady(k, s, c, t);
    }
  }

  lemma StartTarget(k: Config, s: Sys, s': Sys, t: TaskId)
    requires MadeReady(k, s, s', t) && TaskOk(k, s, t) && s.tasks[t].state == Suspend
    ensures TaskOk(k, s', t)
  {
    assert HasOwner(s', t) == HasOwner(s, t);
    assert HasStopper(s', t) == HasStopper(s, t);
    assert HasTimerAgent(s', t, k.home[t]) == HasTimerAgent(s, t, k.home[t]);
  }

  /** What is said of a waker does not change when a task it does not own is linked. */
  lemma LinkAgent(k: Config, s: Sys, s': Sys, t: TaskId, b: nat)
    requires Sized(k, s) && Sized(k, s') && Relink(k, s, s', t)
    requires b in s.agents && AgentOk(k, s, b) && b in s'.agents && s'.agents[b] == s.agents[b]
    requires s.agents[b].target == t ==> !Owns(s.agents[b])
    requires s.tasks[t].state != WaitEvent
    requires var v, v' := s.tasks[t], s'.tasks[t]; v'.timer == v.timer && v'.waits == v.waits && v'.sLock == v.sLock
    ensures AgentOk(k, s', b)
  {
  }

  lemma StartKeeps(k: Config, s: Sys, c: nat, t: TaskId)
    requires Inv(k, s) && Enabled(k, s, StartTask(c, t))
    ensures Inv(k, Apply(k, s, StartTask(c, t)))
  {
    var s' := Apply(k, s, StartTask(c, t));
    assert CpuOk(k, s, c) && CpuOk(k, s, k.home[t]) && TaskOk(k, s, t);
    TaskReadyLinks(k, s, c, t);
    RelinkCpus(k, s, s', t);
    StartTarget(k, s, s', t);
    RelinkTasks(k, s, s', t, 0);
    forall b | b in s'.agents ensures AgentOk(k, s', b) {
      assert AgentOk(k, s, b);
      LinkAgent(k, s, s', t, b);
    }
  }

  // ---- the last step of a waker: it links its target

  /** s1 is s after task_ready, s' is s1 with waker a moved on. */
  lemma LastStep(k: Config, s: Sys, a: nat)
    requires Sized(k, s) && a in s.agents && s.agents[a].pc == ComReady
    requires MadeReady(k, s, TaskReady(k, s, s.agents[a].cpu, s.agents[a].target), s.agents[a].target)
    ensures
      var g, s' := s.agents[a], DoAgent(k, s, a);
      var s1 := TaskReady(k, s, g.cpu, g.target);
      && s' == s1.(agents := s'.agents) && Sized(k, s') && OneAgent(s, s', a)
      && (a in s'.agents <==> g.isTimer)
      && (g.isTimer ==> s'.agents[a] == g.(pc := FireDone))
  {
  }

  /** A task in WAKING that has been linked, whatever wakers there are. */
  lemma LinkedVal(v: Task, v': Task, t: TaskId, prio: nat, h: nat, cpu: Cpu, stopper: bool, firing: bool, owner': bool, stopper': bool)
    requires Shape(cpu.rq) && prio < OS_PRIO_MAX && v.state == Waking && !v.timer.armed
    requires v' == v.(cpu := h, place := v'.place)
    requires (v'.place == OnReady && t in cpu.rq.lists[prio]) || (v'.place == OnNew && t in cpu.newList)
    requires TimerVal(v, stopper, firing) && HistoryOk(v)
    ensures StateVal(v', t, prio, h, cpu, owner') && TimerVal(v', stopper', firing) && HistoryOk(v')
  {
  }

  lemma LastHolders(k: Config, s: Sys, s': Sys, a: nat, t: TaskId, h: nat, lock: Option<nat>)
    requires a in s.agents && s.agents[a].target == t && s.agents[a].pc == ComReady && OneAgent(s, s', a)
    requires a in s'.agents <==> s.agents[a].isTimer
    requires s.agents[a].isTimer ==> s'.agents[a] == s.agents[a].(pc := FireDone)
    ensures HasHolder(s, t, lock) ==> HasHolder(s', t, lock)
    ensures HasTimerAgent(s, t, h) ==> HasTimerAgent(s', t, h)
  {
    if HasTimerAgent(s, t, h) {
      var b :| b in s.agents && s.agents[b].target == t && s.agents[b].isTimer && s.agents[b].cpu == h;
      assert b in s'.agents && s'.agents[b].target == t && s'.agents[b].isTimer && s'.agents[b].cpu == h;
    }
  }

  lemma LastTarget(k: Config, s: Sys, s1: Sys, s': Sys, a: nat)
    requires Sized(k, s) && Sized(k, s') && a in s.agents && s.agents[a].pc == ComReady && AgentOk(k, s, a)
    requires MadeReady(k, s, s1, s.agents[a].target) && s' == s1.(agents := s'.agents) && OneAgent(s, s', a)
    requires a in s'.agents <==> s.agents[a].isTimer
    requires s.agents[a].isTimer ==> s'.agents[a] == s.agents[a].(pc := FireDone)
    requires TaskOk(k, s, s.agents[a].target)
    ensures TaskOk(k, s', s.agents[a].target)
  {
    var t := s.agents[a].target;
    var h := k.home[t];
    LastHolders(k, s, s', a, t, h, s.tasks[t].sLock);
    var firing := HasTimerAgent(s', t, h);
    LinkedVal(s.tasks[t], s'.tasks[t], t, k.prio[t], h, s'.cpus[h], HasStopper(s, t), firing, HasOwner(s', t), HasStopper(s', t));
  }

  lemma LastSelf(k: Config, s: Sys, s': Sys, a: nat)
    requires Sized(k, s) && Sized(k, s') && a in s.agents && s.agents[a].isTimer && AgentOk(k, s, a)
    requires Relink(k, s, s', s.agents[a].target)
    requires a in s'.agents && s'.agents[a] == s.agents[a].(pc := FireDone)
    requires var t := s.agents[a].target;
             s'.tasks[t] == s.tasks[t].(cpu := s'.tasks[t].cpu, place := s'.tasks[t].place)
    ensures AgentOk(k, s', a)
  {
  }

  lemma LastAgents(k: Config, s: Sys, s': Sys, a: nat)
    requires Sized(k, s) && Sized(k, s') && a in s.agents && AgentsOk(k, s) && s.agents[a].pc == ComReady
    requires Relink(k, s, s', s.agents[a].target) && OneAgent(s, s', a)
    requires a in s'.agents ==> s.agents[a].isTimer && s'.agents[a] == s.agents[a].(pc := FireDone)
    requires forall b | b in s.agents && b != a && s.agents[b].target == s.agents[a].target :: !Owns(s.agents[b])
    requires var t := s.agents[a].target;
             s'.tasks[t] == s.tasks[t].(cpu := s'.tasks[t].cpu, place := s'.tasks[t].place)
    ensures AgentsOk(k, s')
  {
    assert AgentOk(k, s, a);
    forall b | b in s'.agents ensures AgentOk(k, s', b) {
      assert AgentOk(k, s, b);
      if b == a {
        LastSelf(k, s, s', a);
      } else {
        LinkAgent(k, s, s', s.agents[a].target, b);
      }
    }
  }

  lemma LastPairs(s: Sys, s': Sys, a: nat)
    requires a in s.agents && PairsOk(s) && OneAgent(s, s', a)
    requires a in s'.agents ==> s'.agents[a] == s.agents[a].(pc := FireDone)
    ensures PairsOk(s')
  {
    forall b, d | b in s'.agents && d in s'.agents && b != d ensures PairOk(s'.agents[b], s'.agents[d]) {
      assert PairOk(s.agents[b], s.agents[d]);
    }
  }

  lemma LastKeeps(k: Config, s: Sys, a: nat)
    requires Inv(k, s) && a in s.agents && s.agents[a].pc == ComReady
    ensures Inv(k, DoAgent(k, s, a))
  {
    var s' := DoAgent(k, s, a);
    var g := s.agents[a];
    var t := g.target;
    assert AgentOk(k, s, a) && TaskOk(k, s, t) && CpuOk(k, s, g.cpu) && CpuOk(k, s, k.home[t]);
    TaskReadyLinks(k, s, g.cpu, t);
    var s1 := TaskReady(k, s, g.cpu, t);
    LastStep(k, s, a);
    RelinkCpus(k, s, s1, t);
    SameButAgents(k, s1, s');
    LastTarget(k, s, s1, s', a);
    RelinkTasks(k, s, s', t, a);
    forall b | b in s.agents && b != a && s.agents[b].target == t ensures !Owns(s.agents[b]) {
      assert PairOk(g, s.agents[b]);
    }
    LastAgents(k, s, s', a);
    LastPairs(s, s', a);
  }

  /** CPUs know nothing of wakers. */
  lemma SameButAgents(k: Config, s: Sys, s': Sys)
    requires Sized(k, s) && Sized(k, s') && s' == s.(agents := s'.agents) && CpusOk(k, s)
    ensures CpusOk(k, s')
  {
    forall c | 0 <= c < |s.cpus| ensures CpuOk(k, s', c) {
      assert CpuOk(k, s, c);
      assert ReadyOk(k, s', c);
      assert NewOk(k, s', c);
    }
  }

  // ---- irqwork_handler

  lemma PopNew(k: Config, s: Sys, s1: Sys, c: nat)
    requires Sized(k, s) && c < |s.cpus| && s.cpus[c].newList != [] && CpuOk(k, s, c) && s.cpus[c].phase == Steady
    requires s1 == PutTask(PutCpu(s, c, s.cpus[c].(newList := s.cpus[c].newList[1..])), s.cpus[c].newList[0],
                           s.tasks[s.cpus[c].newList[0]].(place := Nowhere))
    ensures Sized(k, s1) && CpuOk(k, s1, c)
  {
    forall d | 0 <= d < |s1.cpus| ensures CpuSized(k, s1, s1.cpus[d]) {
      assert CpuSized(k, s, s.cpus[d]);
    }
    assert ReadyOk(k, s1, c);
    assert NewOk(k, s1, c);
  }

  lemma IrqWorkCpu(k: Config, s: Sys, c: nat)
    requires Sized(k, s) && Enabled(k, s, IrqWork(c)) && CpuOk(k, s, c) && !s.panicked && !s.dropped
    requires TaskOk(k, s, s.cpus[c].newList[0])
    ensures
      var s' := DoIrqWork(k, s, c);
      var t := s.cpus[c].newList[0];
      && Sized(k, s') && CpuOk(k, s', c) && !s'.panicked && !s'.dropped && s'.agents == s.agents
      && Relink(k, s, s', t) && k.home[t] == c
      && s'.tasks[t] == s.tasks[t].(place := OnReady, state := Ready)
      && t in s'.cpus[c].rq.lists[k.prio[t]]
  {
    var t := s.cpus[c].newList[0];
    var s1 := PutTask(PutCpu(s, c, s.cpus[c].(newList := s.cpus[c].newList[1..])), t, s.tasks[t].(place := Nowhere));
    PopNew(k, s, s1, c);
    AddLocalSized(k, s1, c, t);
    var s2 := AddLocal(k, s1, c, t);
    AddLocalKeeps(k, s1, s2, c, t);
    AddLocalCpu(k, s1, s2, c, t);
    var s' := DoIrqWork(k, s, c);
    LocalSized(k, s2, s', t, 0);
    NotCurrent(k, s2, s', t, c);
    assert RelinkCpu(s.cpus[c], s'.cpus[c], t);
  }

  lemma IrqWorkTarget(k: Config, s: Sys, s': Sys, c: nat, t: TaskId)
    requires Sized(k, s) && Sized(k, s') && t < |s.tasks| && k.home[t] == c && Relink(k, s, s', t) && s'.agents == s.agents
    requires TaskOk(k, s, t) && s.tasks[t].place == OnNew && t in s'.cpus[c].rq.lists[k.prio[t]]
    requires s'.tasks[t] == s.tasks[t].(place := OnReady, state := Ready)
    ensures TaskOk(k, s', t)
  {
    assert HasTimerAgent(s', t, c) == HasTimerAgent(s, t, c);
  }

  lemma IrqWorkAgents(k: Config, s: Sys, s': Sys, t: TaskId)
    requires Sized(k, s) && Sized(k, s') && Relink(k, s, s', t) && s'.agents == s.agents && AgentsOk(k, s)
    requires s.tasks[t].place == OnNew && s.tasks[t].state != WaitEvent
    requires s'.tasks[t] == s.tasks[t].(place := OnReady, state := Ready)
    ensures AgentsOk(k, s')
  {
    forall b | b in s'.agents ensures AgentOk(k, s', b) {
      assert AgentOk(k, s, b);
      LinkAgent(k, s, s', t, b);
    }
  }

  lemma IrqWorkKeeps(k: Config, s: Sys, c: nat)
    requires Inv(k, s) && Enabled(k, s, IrqWork(c))
    ensures Inv(k, Apply(k, s, IrqWork(c)))
  {
    var s' := Apply(k, s, IrqWork(c));
    var t := s.cpus[c].newList[0];
    assert CpuOk(k, s, c) && TaskOk(k, s, t);
    IrqWorkCpu(k, s, c);
    RelinkCpus(k, s, s', t);
    IrqWorkTarget(k, s, s', c, t);
    RelinkTasks(k, s, s', t, 0);
    IrqWorkAgents(k, s, s', t);
  }
}
