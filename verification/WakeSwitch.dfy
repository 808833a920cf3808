/** Preservation of the wake invariant by the scheduler: pick_next_task and the two halves
    of switch_to_task. */
module WakeSwitch {
  import opened Prelude
  import opened ReadyQueue
  import opened WakeSystem
  import opened WakeInvariant
  import opened WakeLocal
  import opened WakeLists

  /** s' differs from s in the lists and the phase of CPU c and in its current task. */
  ghost predicate Switches(k: Config, s: Sys, s': Sys, c: nat)
    requires Sized(k, s)
  {
    && c < |s.cpus| && |s'.tasks| == |s.tasks| && |s'.cpus| == |s.cpus| && s'.agents == s.agents
    && (forall u | 0 <= u < |s.tasks| && u != s.cpus[c].cur :: s'.tasks[u] == s.tasks[u])
    && (forall d | 0 <= d < |s.cpus| && d != c :: s'.cpus[d] == s.cpus[d])
    && s'.cpus[c].cur == s.cpus[c].cur && s'.cpus[c].newList == s.cpus[c].newList
  }

  /** The run queue after the current task left it, if it has to. */
  ghost function QueueAfter(k: Config, s: Sys, c: nat): Rq
    requires Sized(k, s) && c < |s.cpus|
  {
    var cpu := s.cpus[c];
    if s.tasks[cpu.cur].state != Running then RemoveReady(cpu.rq, cpu.cur, k.prio[cpu.cur]) else cpu.rq
  }

  lemma PickRq(k: Config, s: Sys, c: nat)
    requires Sized(k, s) && c < |s.cpus| && s.cpus[c].phase == Steady && CpuOk(k, s, c)
    requires s.tasks[s.cpus[c].cur].state == WaitEvent ==> k.prio[s.cpus[c].cur] < OS_PRIO_IDLE
    ensures
      var rq, cpu := QueueAfter(k, s, c), s.cpus[c];
      && Booked(rq) && Distinct(rq) && rq.lists[OS_PRIO_IDLE] != []
      && Lowest(rq.grp, 0) < OS_PRIO_MAX
      && (forall p, u {:trigger u in rq.lists[p]} | 0 <= p < OS_PRIO_MAX && u in rq.lists[p] ::
            u in cpu.rq.lists[p] && (u != cpu.cur || s.tasks[u].state == Running))
      && (forall p, u {:trigger u in cpu.rq.lists[p]} | 0 <= p < OS_PRIO_MAX && u in cpu.rq.lists[p] && (u != cpu.cur || s.tasks[u].state == Running) ::
            u in rq.lists[p])
  {
    var cpu := s.cpus[c];
    if s.tasks[cpu.cur].state != Running {
      var p := k.prio[cpu.cur];
      RemoveReadyLaw(cpu.rq, cpu.cur, p);
      var rq := RemoveReady(cpu.rq, cpu.cur, p);
      forall q, u | 0 <= q < OS_PRIO_MAX ensures u in rq.lists[q] <==> u in cpu.rq.lists[q] && u != cpu.cur {
      }
    }
    assert OS_PRIO_IDLE in QueueAfter(k, s, c).grp;
  }

  /** The task that is picked and the queue after it went to the tail. */
  ghost predicate PickedQueue(k: Config, s: Sys, c: nat, next: TaskId, rq: Rq)
    requires Sized(k, s) && c < |s.cpus|
  {
    var cpu := s.cpus[c];
    && Booked(rq) && Distinct(rq) && rq.lists[OS_PRIO_IDLE] != []
    && next < |s.tasks| && k.home[next] == c && s.tasks[next].place == OnReady
    && IsLast(rq.lists[k.prio[next]], next)
    && (forall p, u {:trigger u in rq.lists[p]} | 0 <= p < OS_PRIO_MAX && u in rq.lists[p] ::
          u in cpu.rq.lists[p] && (u != cpu.cur || s.tasks[u].state == Running))
    && (forall p, u {:trigger u in cpu.rq.lists[p]} | 0 <= p < OS_PRIO_MAX && u in cpu.rq.lists[p] && (u != cpu.cur || s.tasks[u].state == Running) ::
          u in rq.lists[p])
  }

  lemma PickQueue(k: Config, s: Sys, c: nat)
    requires Sized(k, s) && c < |s.cpus| && s.cpus[c].phase == Steady && CpuOk(k, s, c)
    requires s.tasks[s.cpus[c].cur].state == WaitEvent ==> k.prio[s.cpus[c].cur] < OS_PRIO_IDLE
    ensures
      var rq := QueueAfter(k, s, c);
      var p := Lowest(rq.grp, 0);
      Booked(rq) && p < OS_PRIO_MAX && rq.lists[p] != [] && PickedQueue(k, s, c, rq.lists[p][0], Rotate(rq, p))
  {
    PickRq(k, s, c);
    var rq := QueueAfter(k, s, c);
    var p := Lowest(rq.grp, 0);
    RotateLaw(rq, p);
    var n := rq.lists[p][0];
    assert n in rq.lists[p];
    assert n in s.cpus[c].rq.lists[p];
  }

  /** Every task CPU c could pick is off the CPU. */
  lemma PickNextState(k: Config, s: Sys, c: nat, n: TaskId)
    requires Sized(k, s) && c < |s.cpus| && n < |s.tasks| && k.home[n] == c && TaskOk(k, s, n)
    requires s.tasks[n].place == OnReady && s.cpus[c].cur != n
    ensures s.tasks[n].state == Ready || s.tasks[n].state == Waking || s.tasks[n].state == Suspend
  {
  }

  /** s' is s after pick_next_task chose `next`. */
  ghost predicate PickStep(k: Config, s: Sys, s': Sys, c: nat, next: TaskId, rq: Rq)
    requires Sized(k, s)
  {
    && c < |s.cpus| && Sized(k, s') && Switches(k, s, s', c)
    && PickedQueue(k, s, c, next, rq)
    && var cpu := s.cpus[c];
       && s'.cpus[c] == cpu.(rq := rq, phase := if next == cpu.cur then Steady else Picked(next))
       && s'.tasks[cpu.cur] == (if s.tasks[cpu.cur].state == Running then s.tasks[cpu.cur]
                                else s.tasks[cpu.cur].(place := Nowhere))
  }

  lemma PickSized(k: Config, s: Sys, s': Sys, c: nat, next: TaskId, rq: Rq)
    requires Sized(k, s) && c < |s.cpus| && Switches(k, s, s', c) && PickedQueue(k, s, c, next, rq)
    requires s'.cpus[c] == s.cpus[c].(rq := rq, phase := if next == s.cpus[c].cur then Steady else Picked(next))
    ensures Sized(k, s')
  {
    forall q, i | 0 <= q < OS_PRIO_MAX && 0 <= i < |rq.lists[q]| ensures rq.lists[q][i] < |s.tasks| {
      assert rq.lists[q][i] in rq.lists[q];
    }
    forall d | 0 <= d < |s'.cpus| ensures CpuSized(k, s', s'.cpus[d]) {
      assert CpuSized(k, s, s.cpus[d]);
    }
  }

  lemma PickShape(k: Config, s: Sys, c: nat) returns (next: TaskId, rq: Rq)
    requires Sized(k, s) && Enabled(k, s, Pick(c)) && CpuOk(k, s, c) && TaskOk(k, s, s.cpus[c].cur) && !s.panicked
    ensures PickStep(k, s, DoPick(k, s, c), c, next, rq)
    ensures !DoPick(k, s, c).panicked && DoPick(k, s, c).dropped == s.dropped
  {
    PickQueue(k, s, c);
    var q := QueueAfter(k, s, c);
    var p := Lowest(q.grp, 0);
    next, rq := q.lists[p][0], Rotate(q, p);
    PickSized(k, s, DoPick(k, s, c), c, next, rq);
  }

  lemma PickReady(k: Config, s: Sys, s': Sys, c: nat, next: TaskId, rq: Rq)
    requires Sized(k, s) && PickStep(k, s, s', c, next, rq) && CpuOk(k, s, c) && s.cpus[c].phase == Steady
    ensures ReadyOk(k, s', c) && NewOk(k, s', c)
  {
    var cpu := s.cpus[c];
    forall q, i | 0 <= q < OS_PRIO_MAX && 0 <= i < |rq.lists[q]|
      ensures var u := rq.lists[q][i]; k.home[u] == c && k.prio[u] == q && s'.tasks[u].place == OnReady
    {
      assert rq.lists[q][i] in rq.lists[q];
      assert rq.lists[q][i] in cpu.rq.lists[q];
    }
  }

  lemma PickCpus(k: Config, s: Sys, s': Sys, c: nat, next: TaskId, rq: Rq)
    requires Sized(k, s) && PickStep(k, s, s', c, next, rq) && CpusOk(k, s) && TaskOk(k, s, next)
    requires s.cpus[c].phase == Steady
    ensures CpusOk(k, s')
  {
    assert CpuOk(k, s, c);
    PickReady(k, s, s', c, next, rq);
    if next != s.cpus[c].cur {
      PickNextState(k, s, c, next);
    }
    forall d | 0 <= d < |s'.cpus| ensures CpuOk(k, s', d) {
      assert CpuOk(k, s, d);
      if d != c {
        ForeignCpu(k, s, s', s.cpus[c].cur, d);
      }
    }
  }

  lemma PickTasks(k: Config, s: Sys, s': Sys, c: nat, next: TaskId, rq: Rq)
    requires Sized(k, s) && PickStep(k, s, s', c, next, rq) && TasksOk(k, s) && CurrentOk(k, s, c)
    requires s.cpus[c].phase == Steady
    ensures TasksOk(k, s')
  {
    forall t | 0 <= t < |s'.tasks| ensures TaskOk(k, s', t) {
      assert TaskOk(k, s, t);
      Untouched(s, s', 0, t, k.home[t], s.tasks[t].sLock);
    }
  }

  lemma PickAgents(k: Config, s: Sys, s': Sys, c: nat, next: TaskId, rq: Rq)
    requires Sized(k, s) && PickStep(k, s, s', c, next, rq) && AgentsOk(k, s) && Undisturbed(s, c) && CurrentOk(k, s, c)
    requires s.cpus[c].phase == Steady
    ensures AgentsOk(k, s')
  {
    forall b | b in s'.agents ensures AgentOk(k, s', b) {
      assert AgentOk(k, s, b);
    }
  }

  lemma PickKeeps(k: Config, s: Sys, c: nat)
    requires Inv(k, s) && Enabled(k, s, Pick(c))
    ensures Inv(k, Apply(k, s, Pick(c)))
  {
    var s' := DoPick(k, s, c);
    assert CpuOk(k, s, c) && TaskOk(k, s, s.cpus[c].cur);
    var next, rq := PickShape(k, s, c);
    assert TaskOk(k, s, next);
    PickCpus(k, s, s', c, next, rq);
    PickTasks(k, s, s', c, next, rq);
    PickAgents(k, s, s', c, next, rq);
  }

  // ---- switch_to_task

  ghost predicate IsSwitch(x: Step) { x.SwitchOut? || x.SwitchIn? }

  lemma SwitchSized(k: Config, s: Sys, x: Step)
    requires Sized(k, s) && IsSwitch(x) && Enabled(k, s, x)
    ensures Sized(k, Apply(k, s, x))
  {
    var s' := Apply(k, s, x);
    forall d | 0 <= d < |s'.cpus| ensures CpuSized(k, s', s'.cpus[d]) {
      assert CpuSized(k, s, s.cpus[d]);
    }
  }

  /** The task whose fields the step sets. */
  ghost function Switched(s: Sys, x: Step): TaskId
    requires IsSwitch(x) && x.c < |s.cpus| && (x.SwitchIn? ==> s.cpus[x.c].phase.Out?)
  {
    if x.SwitchOut? then s.cpus[x.c].cur else s.cpus[x.c].phase.next
  }

  lemma SwitchCpus(k: Config, s: Sys, x: Step)
    requires Sized(k, s) && IsSwitch(x) && Enabled(k, s, x) && CpusOk(k, s) && Sized(k, Apply(k, s, x))
    ensures CpusOk(k, Apply(k, s, x))
  {
    var s' := Apply(k, s, x);
    var t := Switched(s, x);
    assert CpuOk(k, s, x.c);
    assert forall u | 0 <= u < |s.tasks| :: s'.tasks[u].place == s.tasks[u].place;
    assert ReadyOk(k, s', x.c);
    assert NewOk(k, s', x.c);
    forall d | 0 <= d < |s'.cpus| ensures CpuOk(k, s', d) {
      assert CpuOk(k, s, d);
      if d != x.c {
        ForeignCpu(k, s, s', t, d);
      }
    }
  }

  lemma SwitchTasks(k: Config, s: Sys, x: Step)
    requires Sized(k, s) && IsSwitch(x) && Enabled(k, s, x) && TasksOk(k, s) && CurrentOk(k, s, x.c)
    requires Sized(k, Apply(k, s, x)) && Undisturbed(s, x.c)
    ensures TasksOk(k, Apply(k, s, x))
  {
    var s' := Apply(k, s, x);
    forall t | 0 <= t < |s'.tasks| ensures TaskOk(k, s', t) {
      assert TaskOk(k, s, t);
      Untouched(s, s', 0, t, k.home[t], s.tasks[t].sLock);
    }
  }

  lemma SwitchAgents(k: Config, s: Sys, x: Step)
    requires Sized(k, s) && IsSwitch(x) && Enabled(k, s, x) && AgentsOk(k, s) && CurrentOk(k, s, x.c)
    requires Sized(k, Apply(k, s, x))
    ensures AgentsOk(k, Apply(k, s, x))
  {
    var s' := Apply(k, s, x);
    forall b | b in s'.agents ensures AgentOk(k, s', b) {
      assert AgentOk(k, s, b);
    }
  }

  lemma SwitchKeeps(k: Config, s: Sys, x: Step)
    requires Inv(k, s) && IsSwitch(x) && Enabled(k, s, x)
    ensures Inv(k, Apply(k, s, x))
  {
    assert CpuOk(k, s, x.c);
    forall b | b in s.agents ensures s.agents[b].cpu != x.c {
      assert AgentOk(k, s, b);
    }
    SwitchSized(k, s, x);
    SwitchCpus(k, s, x);
    SwitchTasks(k, s, x);
    SwitchAgents(k, s, x);
  }

  // ---- the theorem

  lemma StepKeeps(k: Config, s: Sys, x: Step)
    requires Inv(k, s) && Enabled(k, s, x)
    ensures Inv(k, Apply(k, s, x))
  {
    match x
    case BeginWait(_, _) => WaitKeeps(k, s, x);
    case FinishWait(_) => WaitKeeps(k, s, x);
    case Pick(c) => PickKeeps(k, s, c);
    case SwitchOut(_) => SwitchKeeps(k, s, x);
    case SwitchIn(_) => SwitchKeeps(k, s, x);
    case StartTask(c, t) => StartKeeps(k, s, c, t);
    case IrqWork(c) => IrqWorkKeeps(k, s, c);
    case WakeCall(_, _, _, _, _) => CallKeeps(k, s, x);
    case TimerFire(_, _) => CallKeeps(k, s, x);
    case AgentStep(a) =>
      if s.agents[a].pc == ComReady {
        LastKeeps(k, s, a);
      } else {
        PlainKeeps(k, s, a);
      }
  }
}
