/** The wait, switch and wake protocol of core/sched.c, core/event.c and core/timer.c as a
    transition system over any number of CPUs, tasks and concurrent wakers. One step is one
    lock-protected or interrupt-off region; a spin is a guard; memory is sequentially
    consistent. A failing ASSERT sets `panicked`, a task that irqwork_handler drops sets
    `dropped`. */
module WakeSystem {
  import opened Prelude
  import opened ReadyQueue

  datatype TaskState = Running | Ready | WaitEvent | Waking | Suspend
  datatype PendState = PendOk | PendTo | PendAbort

  /** Which list the state_list link of a task is on; Nowhere is state_list.next == NULL. */
  datatype Place = Nowhere | OnReady | OnNew

  /** The delay timer of a task. `gen` is the number of the wait it was armed for. */
  datatype Timer = Timer(armed: bool, stop: bool, running: bool, gen: nat)

  /** The waker that won a wait and what it delivered; `armedFor` is the wait a timeout was armed
      for. */
  datatype Win = Win(got: Got, armedFor: nat, waker: nat)
  datatype Got = Got(pend: PendState, msg: int)

  /** The last four fields record history: how many waits were begun, whether one is still
      open, who won each wait and what the waiter read. */
  datatype Task = Task(
    state: TaskState, cpu: int, place: Place, sLock: Option<nat>,
    pend: PendState, msg: int, delay: nat, timer: Timer,
    waits: nat, inWait: bool, won: map<nat, Win>, seen: map<nat, Got>)

  datatype Phase = Steady | Picked(next: TaskId) | Out(next: TaskId)
  datatype Cpu = Cpu(cur: TaskId, phase: Phase, rq: Rq, newList: seq<TaskId>)

  /** Program counter of a waker. Int: wake_up_interrupted. Com: wake_up_common. Fire: the
      part of soft_timer_interrupt around the handler. */
  datatype Pc =
    | FireCheck | FireDone
    | IntCheck | IntTry
    | ComLock | ComCheck | ComFail | ComSpin
    | ComStop | ComStopWait | ComReady
  datatype Agent = Agent(cpu: nat, target: TaskId, pend: PendState, msg: int,
                         isTimer: bool, gen: nat, pc: Pc)

  datatype Config = Config(home: seq<nat>, prio: seq<nat>)
  datatype Sys = Sys(tasks: seq<Task>, cpus: seq<Cpu>, agents: map<nat, Agent>,
                     panicked: bool, dropped: bool)

  datatype Step =
    | BeginWait(c: nat, delay: nat)
    | FinishWait(c: nat)
    | Pick(c: nat)
    | SwitchOut(c: nat)
    | SwitchIn(c: nat)
    | StartTask(c: nat, t: TaskId)
    | IrqWork(c: nat)
    | WakeCall(a: nat, c: nat, t: TaskId, pend: PendState, msg: int)
    | TimerFire(a: nat, t: TaskId)
    | AgentStep(a: nat)

  ghost predicate Sized(k: Config, s: Sys) {
    && |k.home| == |k.prio| == |s.tasks|
    && (forall t | 0 <= t < |s.tasks| :: k.home[t] < |s.cpus| && k.prio[t] < OS_PRIO_MAX)
    && (forall c | 0 <= c < |s.cpus| :: CpuSized(k, s, s.cpus[c]))
    && (forall a | a in s.agents :: s.agents[a].cpu < |s.cpus| && s.agents[a].target < |s.tasks|)
  }

  ghost predicate CpuSized(k: Config, s: Sys, cpu: Cpu) {
    && Shape(cpu.rq)
    && cpu.cur < |s.tasks|
    && (cpu.phase != Steady ==> cpu.phase.next < |s.tasks|)
    && (forall i | 0 <= i < |cpu.newList| :: cpu.newList[i] < |s.tasks|)
    && (forall p, i | 0 <= p < OS_PRIO_MAX && 0 <= i < |cpu.rq.lists[p]| :: cpu.rq.lists[p][i] < |s.tasks|)
  }

  /** No waker runs on CPU c: it has preemption disabled or is an interrupt handler, so the
      task and the scheduler of that CPU make no step before it returns. */
  ghost predicate Undisturbed(s: Sys, c: nat) {
    forall a | a in s.agents :: s.agents[a].cpu != c
  }

  /** The waker holds a lock it took with interrupts off, or it is part of the timer interrupt. */
  predicate IrqOff(g: Agent) {
    g.isTimer || g.pc == ComCheck || g.pc == ComFail || g.pc == ComSpin || g.pc == ComStopWait
  }

  /** CPU c takes an interrupt, or its task makes a call, while the wakers that are there wait. */
  ghost predicate Admits(s: Sys, c: nat) {
    forall b | b in s.agents && s.agents[b].cpu == c :: !IrqOff(s.agents[b])
  }

  /** Wakers of one CPU nest: their numbers say in which order they began. */
  ghost predicate Youngest(s: Sys, a: nat, c: nat) {
    forall b | b in s.agents && s.agents[b].cpu == c :: b <= a
  }

  ghost predicate Enabled(k: Config, s: Sys, x: Step)
    requires Sized(k, s)
  {
    match x
    case BeginWait(c, delay) =>
      // the idle task never waits
      && c < |s.cpus| && s.cpus[c].phase == Steady && Undisturbed(s, c)
      && s.tasks[s.cpus[c].cur].state == Running && !s.tasks[s.cpus[c].cur].inWait
      && k.prio[s.cpus[c].cur] < OS_PRIO_IDLE
    case FinishWait(c) =>
      && c < |s.cpus| && s.cpus[c].phase == Steady && Undisturbed(s, c)
      && s.tasks[s.cpus[c].cur].state == Running && s.tasks[s.cpus[c].cur].inWait
    case Pick(c) => c < |s.cpus| && s.cpus[c].phase == Steady && Undisturbed(s, c)
    case SwitchOut(c) => c < |s.cpus| && s.cpus[c].phase.Picked?
    case SwitchIn(c) => c < |s.cpus| && s.cpus[c].phase.Out?
    case StartTask(c, t) =>
      // a suspended task is started once
      && c < |s.cpus| && s.cpus[c].phase == Steady && t < |s.tasks|
      && s.tasks[t].state == Suspend && s.tasks[t].place == Nowhere
    case IrqWork(c) => c < |s.cpus| && s.cpus[c].phase == Steady && s.cpus[c].newList != [] && Admits(s, c)
    case WakeCall(a, c, t, pend, msg) =>
      && c < |s.cpus| && s.cpus[c].phase == Steady && t < |s.tasks|
      && a !in s.agents && pend != PendTo && Admits(s, c) && Youngest(s, a, c)
    case TimerFire(a, t) =>
      && t < |s.tasks| && s.cpus[k.home[t]].phase == Steady
      && a !in s.agents && s.tasks[t].timer.armed && Admits(s, k.home[t]) && Youngest(s, a, k.home[t])
    case AgentStep(a) =>
      && a in s.agents && Youngest(s, a, s.agents[a].cpu)
      && var g := s.agents[a];
         var t := s.tasks[g.target];
         && (g.pc == ComLock ==> t.sLock == None)
         && (g.pc == ComSpin ==> t.cpu == -1)
         && (g.pc == ComStopWait ==> !t.timer.running)
  }

  function PutTask(s: Sys, t: TaskId, v: Task): Sys
    requires t < |s.tasks|
  {
    s.(tasks := s.tasks[t := v])
  }

  function PutCpu(s: Sys, c: nat, v: Cpu): Sys
    requires c < |s.cpus|
  {
    s.(cpus := s.cpus[c := v])
  }

  function PutAgent(s: Sys, a: nat, v: Agent): Sys {
    s.(agents := s.agents[a := v])
  }

  /** The local half of task_ready: percpu_task_ready and add_task_to_ready_list. */
  ghost function AddLocal(k: Config, s: Sys, c: nat, t: TaskId): Sys
    requires Sized(k, s) && c < |s.cpus| && t < |s.tasks|
  {
    var cpu := s.cpus[c];
    var rq := AddReady(cpu.rq, t, k.prio[t], cpu.cur, k.prio[cpu.cur]);
    PutTask(PutCpu(s, c, cpu.(rq := rq)), t, s.tasks[t].(place := OnReady))
      .(panicked := s.panicked || s.tasks[t].place != Nowhere)
  }

  /** task_ready as called on CPU c. */
  ghost function TaskReady(k: Config, s: Sys, c: nat, t: TaskId): Sys
    requires Sized(k, s) && c < |s.cpus| && t < |s.tasks|
  {
    var h := k.home[t];
    var s1 := PutTask(s, t, s.tasks[t].(cpu := h));
    if h == c then AddLocal(k, s1, c, t)
    else
      PutTask(PutCpu(s1, h, s.cpus[h].(newList := s.cpus[h].newList + [t])), t, s1.tasks[t].(place := OnNew))
        .(panicked := s.panicked || s.tasks[t].place != Nowhere)
  }

  /** pick_next_task */
  ghost function DoPick(k: Config, s: Sys, c: nat): Sys
    requires Sized(k, s) && c < |s.cpus|
  {
    var cpu := s.cpus[c];
    var cur := s.tasks[cpu.cur];
    var leave := cur.state != Running;
    var rq := if leave then RemoveReady(cpu.rq, cpu.cur, k.prio[cpu.cur]) else cpu.rq;
    var s1 := if leave then PutTask(s, cpu.cur, cur.(place := Nowhere)) else s;
    var bad := cur.state == Ready || (leave && cur.place == Nowhere);
    var p := Lowest(rq.grp, 0);
    if p == OS_PRIO_MAX || rq.lists[p] == [] then s.(panicked := true)
    else
      var next := rq.lists[p][0];
      PutCpu(s1, c, cpu.(rq := Rotate(rq, p), phase := if next == cpu.cur then Steady else Picked(next)))
        .(panicked := s.panicked || bad)
  }

  /** First half of switch_to_task, up to the store cur->cpu = -1. */
  ghost function DoSwitchOut(k: Config, s: Sys, c: nat): Sys
    requires Sized(k, s) && c < |s.cpus| && s.cpus[c].phase.Picked?
  {
    var cpu := s.cpus[c];
    var cur := s.tasks[cpu.cur];
    var cur1 :=
      if cur.state == WaitEvent && cur.delay > 0 then
        cur.(timer := cur.timer.(armed := true, stop := false, gen := cur.waits))
      else if cur.state == Running then cur.(state := Ready)
      else cur;
    PutTask(PutCpu(s, c, cpu.(phase := Out(cpu.phase.next))), cpu.cur, cur1.(cpu := -1))
  }

  ghost function DoSwitchIn(k: Config, s: Sys, c: nat): Sys
    requires Sized(k, s) && c < |s.cpus| && s.cpus[c].phase.Out?
  {
    var next := s.cpus[c].phase.next;
    PutTask(PutCpu(s, c, s.cpus[c].(phase := Steady, cur := next)), next,
            s.tasks[next].(state := Running, cpu := c))
  }

  /** One round of the loop of irqwork_handler. */
  ghost function DoIrqWork(k: Config, s: Sys, c: nat): Sys
    requires Sized(k, s) && c < |s.cpus| && s.cpus[c].newList != []
  {
    var cpu := s.cpus[c];
    var t := cpu.newList[0];
    var s1 := PutTask(PutCpu(s, c, cpu.(newList := cpu.newList[1..])), t, s.tasks[t].(place := Nowhere));
    if s.tasks[t].state == Running then s1.(dropped := true)
    else
      var s2 := AddLocal(k, s1, c, t);
      // a delay that is still set would stop the timer here
      PutTask(s2, t, s2.tasks[t].(state := Ready, delay := 0,
                                  timer := if s.tasks[t].delay > 0 then s.tasks[t].timer.(armed := false, stop := true)
                                           else s.tasks[t].timer))
  }

  /** Where a waker goes next; Gone: it has returned. */
  datatype After = Goto(pc: Pc) | Gone

  /** __wake_up returns; the timer interrupt still has to clear running_timer. */
  function Return(g: Agent): After {
    if g.isTimer then Goto(FireDone) else Gone
  }

  /** What the step of waker a does to its target. */
  function AgentTask(a: nat, g: Agent, t: Task): Task {
    match g.pc
    case FireDone => t.(timer := t.timer.(running := false))
    case IntTry =>
      if t.sLock != None || t.state != WaitEvent then t
      else t.(pend := g.pend, state := Running, delay := 0, msg := g.msg,
              won := t.won[t.waits := Win(Got(g.pend, g.msg), g.gen, a)])
    case ComLock => t.(sLock := Some(a))
    case ComFail => t.(sLock := None)
    case ComSpin =>
      t.(pend := g.pend, state := Waking, delay := 0, msg := g.msg, sLock := None,
         won := t.won[t.waits := Win(Got(g.pend, g.msg), g.gen, a)])
    case ComStop => t.(timer := t.timer.(stop := true))
    case ComStopWait => t.(timer := t.timer.(armed := false))
    case _ => t
  }

  /** Where the step takes the waker; `isCurrent`: the target is the current task of its CPU. */
  function AgentNext(g: Agent, t: Task, isCurrent: bool): After {
    match g.pc
    case FireCheck => Goto(if t.timer.stop then FireDone else if isCurrent then IntCheck else ComLock)
    case FireDone => Gone
    case IntCheck => if t.state != WaitEvent then Return(g) else Goto(IntTry)
    case IntTry => Return(g)
    case ComLock => Goto(ComCheck)
    case ComCheck => Goto(if t.state != WaitEvent then ComFail else ComSpin)
    case ComFail => Return(g)
    case ComSpin => Goto(if t.delay != 0 && g.pend != PendTo then ComStop else ComReady)
    case ComStop => Goto(ComStopWait)
    case ComStopWait => Goto(ComReady)
    case ComReady => Return(g)
  }

  ghost function DoAgent(k: Config, s: Sys, a: nat): Sys
    requires Sized(k, s) && a in s.agents
  {
    var g := s.agents[a];
    var t := s.tasks[g.target];
    var s1 := if g.pc == ComReady then TaskReady(k, s, g.cpu, g.target)
              else PutTask(s, g.target, AgentTask(a, g, t));
    var next := AgentNext(g, t, g.target == s.cpus[g.cpu].cur);
    s1.(agents := if next.Gone? then s.agents - {a} else s.agents[a := g.(pc := next.pc)],
        panicked := s1.panicked || (g.pc == IntCheck && g.pend == PendTo))
  }

  ghost function Apply(k: Config, s: Sys, x: Step): Sys
    requires Sized(k, s) && Enabled(k, s, x)
  {
    match x
    case BeginWait(c, delay) =>
      var t := s.cpus[c].cur;
      PutTask(s, t, s.tasks[t].(state := WaitEvent, pend := PendOk, delay := delay,
                                waits := s.tasks[t].waits + 1, inWait := true))
    case FinishWait(c) =>
      var t := s.cpus[c].cur;
      var v := s.tasks[t];
      // read pend_state and msg, then event_pend_down
      PutTask(s, t, v.(inWait := false, pend := PendOk, msg := 0,
                       seen := v.seen[v.waits := Got(v.pend, v.msg)]))
    case Pick(c) => DoPick(k, s, c)
    case SwitchOut(c) => DoSwitchOut(k, s, c)
    case SwitchIn(c) => DoSwitchIn(k, s, c)
    case StartTask(c, t) => TaskReady(k, s, c, t)
    case IrqWork(c) => DoIrqWork(k, s, c)
    case WakeCall(a, c, t, pend, msg) =>
      PutAgent(s, a, Agent(c, t, pend, msg, false, 0,
                           if t == s.cpus[c].cur then IntCheck else ComLock))
    case TimerFire(a, t) =>
      var v := s.tasks[t];
      PutAgent(PutTask(s, t, v.(timer := v.timer.(armed := false, running := true))), a,
               Agent(k.home[t], t, PendTo, 0, true, v.timer.gen, FireCheck))
    case AgentStep(a) => DoAgent(k, s, a)
  }
}
