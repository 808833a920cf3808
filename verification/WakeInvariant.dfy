/** The inductive invariant of the wake protocol: what holds of one task, one CPU and one
    waker in every reachable state. */
module WakeInvariant {
  import opened Prelude
  import opened ReadyQueue
  import opened WakeSystem

  predicate HoldsLock(g: Agent) { g.pc == ComCheck || g.pc == ComFail || g.pc == ComSpin }

  predicate Stops(g: Agent) { g.pc == ComStop || g.pc == ComStopWait }

  /** The waker has set the task to WAKING and not yet linked it to a list. */
  predicate Owns(g: Agent) { Stops(g) || g.pc == ComReady }

  predicate Common(g: Agent) { g.pc == ComLock || HoldsLock(g) || Owns(g) }

  ghost predicate HasOwner(s: Sys, t: TaskId) {
    exists a :: a in s.agents && s.agents[a].target == t && Owns(s.agents[a])
  }

  ghost predicate HasStopper(s: Sys, t: TaskId) {
    exists a :: a in s.agents && s.agents[a].target == t && Stops(s.agents[a])
  }

  ghost predicate HasTimerAgent(s: Sys, t: TaskId, h: nat) {
    exists a :: a in s.agents && s.agents[a].target == t && s.agents[a].isTimer && s.agents[a].cpu == h
  }

  ghost predicate HasHolder(s: Sys, t: TaskId, lock: Option<nat>) {
    lock.Some? ==> lock.value in s.agents && s.agents[lock.value].target == t && HoldsLock(s.agents[lock.value])
  }

  // ---- one CPU

  ghost predicate ReadyOk(k: Config, s: Sys, c: nat)
    requires Sized(k, s) && c < |s.cpus|
  {
    var rq := s.cpus[c].rq;
    && Booked(rq) && Distinct(rq)
    && rq.lists[OS_PRIO_IDLE] != []
    && (forall p, i | 0 <= p < OS_PRIO_MAX && 0 <= i < |rq.lists[p]| ::
          var t := rq.lists[p][i]; k.home[t] == c && k.prio[t] == p && s.tasks[t].place == OnReady)
  }

  ghost predicate NewOk(k: Config, s: Sys, c: nat)
    requires Sized(k, s) && c < |s.cpus|
  {
    var l := s.cpus[c].newList;
    && NoDup(l)
    && (forall i | 0 <= i < |l| :: k.home[l[i]] == c && s.tasks[l[i]].place == OnNew)
  }

  /** What CPU c says about its current task v and the task w it is switching to. */
  ghost predicate CurrentVal(cpu: Cpu, c: nat, v: Task, vHome: nat, vPrio: nat, w: Task, wHome: nat, wPrio: nat)
    requires Shape(cpu.rq) && vPrio < OS_PRIO_MAX && wPrio < OS_PRIO_MAX
  {
    && vHome == c
    && (!cpu.phase.Out? ==> (v.state == Running || v.state == WaitEvent) && v.cpu == c)
    && (cpu.phase.Steady? ==> v.place == OnReady && IsLast(cpu.rq.lists[vPrio], cpu.cur))
    && (cpu.phase.Picked? ==> cpu.cur != cpu.phase.next && (v.place == OnReady <==> v.state == Running))
    && (!cpu.phase.Steady? ==>
          && wHome == c && w.place == OnReady
          && (w.state == Ready || w.state == Waking || w.state == Suspend)
          && IsLast(cpu.rq.lists[wPrio], cpu.phase.next))
  }

  function NextOf(cpu: Cpu): TaskId { if cpu.phase.Steady? then cpu.cur else cpu.phase.next }

  ghost predicate CurrentOk(k: Config, s: Sys, c: nat)
    requires Sized(k, s) && c < |s.cpus|
  {
    var cpu := s.cpus[c];
    var t, u := cpu.cur, NextOf(cpu);
    CurrentVal(cpu, c, s.tasks[t], k.home[t], k.prio[t], s.tasks[u], k.home[u], k.prio[u])
  }

  ghost predicate CpuOk(k: Config, s: Sys, c: nat)
    requires Sized(k, s) && c < |s.cpus|
  {
    ReadyOk(k, s, c) && NewOk(k, s, c) && CurrentOk(k, s, c)
  }

  // ---- one task

  /** v is task t, h its CPU; `owner`: some waker owns it. */
  ghost predicate StateVal(v: Task, t: TaskId, prio: nat, h: nat, cpu: Cpu, owner: bool)
    requires Shape(cpu.rq) && prio < OS_PRIO_MAX
  {
    var onCpu := cpu.cur == t && !cpu.phase.Out? && v.cpu == h;
    && (v.state == Running ==> onCpu && v.place == OnReady)
    && (v.state == WaitEvent ==> prio < OS_PRIO_IDLE && (onCpu || (v.cpu == -1 && v.place == Nowhere)))
    && (v.state == Ready ==> v.place == OnReady)
    && (v.state == Waking && v.place == Nowhere ==> owner)
    && (v.place == OnReady ==> t in cpu.rq.lists[prio])
    && (v.place == OnNew ==> t in cpu.newList && (v.state == Waking || v.state == Suspend))
  }

  /** `stopper`: some waker is about to stop the delay timer; `firing`: its handler runs. */
  ghost predicate TimerVal(v: Task, stopper: bool, firing: bool) {
    && (v.state != WaitEvent ==> v.delay == 0)
    && (v.timer.armed ==>
          && v.timer.gen == v.waits
          && !v.timer.running
          && (|| (v.state == WaitEvent && v.cpu == -1 && v.delay > 0)
              || (v.state == Waking && v.place == Nowhere && stopper)))
    && (v.timer.running ==> firing)
  }

  /** Every closed wait has exactly one winner, the waiter read what the winner wrote, and a
      timeout that won was armed for that very wait. */
  ghost predicate HistoryOk(v: Task) {
    && (forall g: nat :: g in v.won <==> 1 <= g <= (if v.state == WaitEvent then v.waits - 1 else v.waits))
    && (forall g: nat :: g in v.seen <==> 1 <= g <= (if v.inWait then v.waits - 1 else v.waits))
    && (forall g | g in v.seen :: g in v.won && v.seen[g] == v.won[g].got)
    && (v.state == WaitEvent ==> v.inWait)
    && (v.inWait ==> v.waits > 0)
    && (v.inWait && v.state != WaitEvent ==> v.waits in v.won && v.won[v.waits].got == Got(v.pend, v.msg))
    && (forall g | g in v.won && v.won[g].got.pend == PendTo :: v.won[g].armedFor == g)
  }

  ghost predicate TaskOk(k: Config, s: Sys, t: TaskId)
    requires Sized(k, s) && t < |s.tasks|
  {
    var v, h := s.tasks[t], k.home[t];
    && StateVal(v, t, k.prio[t], h, s.cpus[h], HasOwner(s, t))
    && TimerVal(v, HasStopper(s, t), HasTimerAgent(s, t, h))
    && HistoryOk(v)
    && HasHolder(s, t, v.sLock)
  }

  // ---- one waker

  /** v is the target, h its home, cpu the CPU the waker runs on. */
  ghost predicate AgentVal(a: nat, g: Agent, v: Task, h: nat, cpu: Cpu) {
    && cpu.phase == Steady
    && (g.isTimer ==> g.cpu == h && g.pend == PendTo && v.timer.running && g.gen == v.waits && g.target != cpu.cur)
    && (!g.isTimer ==> g.pend != PendTo && g.pc != FireCheck && g.pc != FireDone)
    && (g.pc == IntCheck || g.pc == IntTry ==> g.target == cpu.cur)
    && (Common(g) ==> g.target != cpu.cur)
    && (HoldsLock(g) ==> v.sLock == Some(a))
    && (g.pc == ComSpin ==> v.state == WaitEvent)
    && (Owns(g) ==> v.state == Waking && v.place == Nowhere && v.cpu == -1)
    && (Owns(g) ==> v.waits in v.won && v.won[v.waits].waker == a)
    && (g.pc == ComReady ==> !v.timer.armed)
    && (Stops(g) ==> !g.isTimer)
  }

  ghost predicate AgentOk(k: Config, s: Sys, a: nat)
    requires Sized(k, s) && a in s.agents
  {
    var g := s.agents[a];
    AgentVal(a, g, s.tasks[g.target], k.home[g.target], s.cpus[g.cpu])
  }

  ghost predicate PairOk(g: Agent, h: Agent) {
    g.target == h.target ==> !(Owns(g) && Owns(h)) && !(g.isTimer && h.isTimer)
  }

  // ---- the whole system

  ghost predicate CpusOk(k: Config, s: Sys)
    requires Sized(k, s)
  {
    forall c | 0 <= c < |s.cpus| :: CpuOk(k, s, c)
  }

  ghost predicate TasksOk(k: Config, s: Sys)
    requires Sized(k, s)
  {
    forall t | 0 <= t < |s.tasks| :: TaskOk(k, s, t)
  }

  ghost predicate AgentsOk(k: Config, s: Sys)
    requires Sized(k, s)
  {
    forall a | a in s.agents :: AgentOk(k, s, a)
  }

  ghost predicate PairsOk(s: Sys) {
    forall a, b | a in s.agents && b in s.agents && a != b :: PairOk(s.agents[a], s.agents[b])
  }

  ghost predicate Inv(k: Config, s: Sys) {
    && Sized(k, s)
    && !s.panicked && !s.dropped
    && CpusOk(k, s) && TasksOk(k, s) && AgentsOk(k, s) && PairsOk(s)
  }
}
