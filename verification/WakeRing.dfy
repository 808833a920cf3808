/** A run into a closed set of two wakers. */
module WakeRing {
  import opened Prelude
  import opened ReadyQueue
  import opened WakeSystem
  import opened WakeInvariant
  import opened WakeTheorems
  import opened WakeClosed
  import opened WaitGraph

  /** Two CPUs with their idle tasks 0 and 1, and two tasks 2 and 3 of one priority. */
  const DUAL: Config := Config([0, 1, 0, 1], [OS_PRIO_IDLE, OS_PRIO_IDLE, 3, 3])

  function Dual(i0: Task, i1: Task, w0: Task, w1: Task, c0: Cpu, c1: Cpu, agents: map<nat, Agent>): Sys {
    Sys([i0, i1, w0, w1], [c0, c1], agents, false, false)
  }

  /** The lists with the idle task and, once started, the other task. */
  function Lists(idle: TaskId, w: seq<TaskId>): Rq {
    Rq([[], [], [], w, [], [], [], [idle]], [0, 0, 0, |w|, 0, 0, 0, 0], if w == [] then {OS_PRIO_IDLE} else {OS_PRIO_IDLE, 3})
  }

  function Worker(state: TaskState, c: int): Task {
    CreatedTask().(state := state, cpu := c, place := OnReady)
  }

  function Waiter(c: int, lock: Option<nat>): Task {
    Worker(WaitEvent, c).(waits := 1, inWait := true, sLock := lock)
  }

  /** Stage n of CPU c: created, started, picked, switched out, switched in. */
  function CpuAt(c: nat, n: nat): Cpu {
    var w := c + 2;
    if n == 0 then BootCpu(c)
    else Cpu(if n < 4 then c else w, if n == 2 then Picked(w) else if n == 3 then Out(w) else Steady, Lists(c, [w]), [])
  }

  function IdleAt(c: nat, n: nat): Task {
    if n < 3 then IdleTask(c) else IdleTask(c).(state := Ready, cpu := -1)
  }

  /** Stage 5: waiting. */
  function WorkerAt(c: nat, n: nat): Task {
    if n == 0 then CreatedTask() else if n < 4 then Worker(Suspend, c) else if n == 4 then Worker(Running, c) else Waiter(c, None)
  }

  function DualAt(m: nat, n: nat): Sys {
    Dual(IdleAt(0, m), IdleAt(1, n), WorkerAt(0, m), WorkerAt(1, n), CpuAt(0, m), CpuAt(1, n), map[])
  }

  function StageStep(c: nat, n: nat): Step {
    if n == 0 then StartTask(c, c + 2) else if n == 1 then Pick(c) else if n == 2 then SwitchOut(c)
    else if n == 3 then SwitchIn(c) else BeginWait(c, 0)
  }

  lemma DualSized(m: nat, n: nat)
    requires m <= 5 && n <= 5
    ensures Sized(DUAL, DualAt(m, n))
  {
  }

  lemma DualBoot()
    ensures Boot(DUAL, DualAt(0, 0))
  {
  }

  lemma StartLists(idle: TaskId, w: TaskId)
    ensures AddReady(Lists(idle, []), w, 3, idle, OS_PRIO_IDLE) == Lists(idle, [w])
  {
    assert [] + [w] == [w];
  }

  lemma PickLists(idle: TaskId, w: TaskId)
    ensures Lowest(Lists(idle, [w]).grp, 0) == 3 && Rotate(Lists(idle, [w]), 3) == Lists(idle, [w])
  {
    var g := Lists(idle, [w]).grp;
    assert 0 !in g && 1 !in g && 2 !in g && 3 in g;
    assert [w][1..] + [[w][0]] == [w];
  }

  lemma Lists0(m: nat)
    requires m < 2
    ensures Next(DUAL, DualAt(m, 0), StageStep(0, m), DualAt(m + 1, 0))
  {
    DualSized(m, 0);
    StartLists(0, 2);
    PickLists(0, 2);
    var s, s' := Apply(DUAL, DualAt(m, 0), StageStep(0, m)), DualAt(m + 1, 0);
    assert s.tasks == s'.tasks && s.cpus == s'.cpus;
  }

  lemma Stage0(m: nat)
    requires m < 5
    ensures Next(DUAL, DualAt(m, 0), StageStep(0, m), DualAt(m + 1, 0))
  {
    if m < 2 {
      Lists0(m);
    } else {
      DualSized(m, 0);
      var s, s' := Apply(DUAL, DualAt(m, 0), StageStep(0, m)), DualAt(m + 1, 0);
      assert s.tasks == s'.tasks && s.cpus == s'.cpus;
    }
  }

  lemma Lists1(n: nat)
    requires n < 2
    ensures Next(DUAL, DualAt(5, n), StageStep(1, n), DualAt(5, n + 1))
  {
    DualSized(5, n);
    StartLists(1, 3);
    PickLists(1, 3);
    var s, s' := Apply(DUAL, DualAt(5, n), StageStep(1, n)), DualAt(5, n + 1);
    assert s.tasks == s'.tasks && s.cpus == s'.cpus;
  }

  lemma Stage1(n: nat)
    requires n < 5
    ensures Next(DUAL, DualAt(5, n), StageStep(1, n), DualAt(5, n + 1))
  {
    if n < 2 {
      Lists1(n);
    } else {
      DualSized(5, n);
      var s, s' := Apply(DUAL, DualAt(5, n), StageStep(1, n)), DualAt(5, n + 1);
      assert s.tasks == s'.tasks && s.cpus == s'.cpus;
    }
  }

  /** Waker c of CPU c for the task of the other CPU: called, with its lock, spinning. */
  function Waker(c: nat, n: nat): Agent
    requires c < 2
  {
    Agent(c, 3 - c, PendOk, 0, false, 0, if n == 1 then ComLock else if n == 2 then ComCheck else ComSpin)
  }

  function Wakers(p: nat, q: nat): map<nat, Agent> {
    if p == 0 then map[] else if q == 0 then map[0 := Waker(0, p)] else map[0 := Waker(0, p), 1 := Waker(1, q)]
  }

  function DualWake(p: nat, q: nat): Sys {
    Dual(IdleAt(0, 5), IdleAt(1, 5), Waiter(0, if q < 2 then None else Some(1)), Waiter(1, if p < 2 then None else Some(0)),
         CpuAt(0, 5), CpuAt(1, 5), Wakers(p, q))
  }

  function WakeStep(c: nat, n: nat): Step
    requires c < 2
  {
    if n == 0 then WakeCall(c, c, 3 - c, PendOk, 0) else AgentStep(c)
  }

  lemma WakeSized(p: nat, q: nat)
    requires p <= 3 && q <= 3
    ensures Sized(DUAL, DualWake(p, q))
  {
    DualSized(5, 5);
    var s, s' := DualAt(5, 5), DualWake(p, q);
    forall c | 0 <= c < |s'.cpus| ensures CpuSized(DUAL, s', s'.cpus[c]) {
      assert CpuSized(DUAL, s, s.cpus[c]);
    }
  }

  lemma Wake0(p: nat)
    requires p < 3
    ensures Next(DUAL, DualWake(p, 0), WakeStep(0, p), DualWake(p + 1, 0))
  {
    WakeSized(p, 0);
    var s, s' := Apply(DUAL, DualWake(p, 0), WakeStep(0, p)), DualWake(p + 1, 0);
    assert s.tasks == s'.tasks;
    assert s.agents == s'.agents;
  }

  lemma Wake1(q: nat)
    requires q < 3
    ensures Next(DUAL, DualWake(3, q), WakeStep(1, q), DualWake(3, q + 1))
  {
    WakeSized(3, q);
    var s, s' := Apply(DUAL, DualWake(3, q), WakeStep(1, q)), DualWake(3, q + 1);
    assert s.tasks == s'.tasks;
    assert s.agents == s'.agents;
  }

  function DualRun(i: nat): Sys {
    if i <= 5 then DualAt(i, 0) else if i < 10 then DualAt(5, i - 5) else if i <= 13 then DualWake(i - 10, 0) else DualWake(3, i - 13)
  }

  function DualStep(i: nat): Step {
    if i < 5 then StageStep(0, i) else if i < 10 then StageStep(1, i - 5) else if i < 13 then WakeStep(0, i - 10) else WakeStep(1, i - 13)
  }

  lemma DualNext(i: nat)
    requires i < 16
    ensures Next(DUAL, DualRun(i), DualStep(i), DualRun(i + 1))
  {
    assert DualAt(5, 5) == DualWake(0, 0);
    if i < 5 {
      Stage0(i);
    } else if i < 10 {
      Stage1(i - 5);
    } else if i < 13 {
      Wake0(i - 10);
    } else {
      Wake1(i - 13);
    }
  }

  /** Two tasks begin to wait, and before either CPU switches away an interrupt on each wakes the
      task of the other: both wakers spin, and by ClosedStays they do so for ever. */
  lemma CrossedReachable()
    ensures Reachable(DUAL, DualWake(3, 3)) && Closed(Blocked(DualWake(3, 3)), {0, 1})
  {
    var ss, xs := seq(17, i requires 0 <= i => DualRun(i)), seq(16, i requires 0 <= i => DualStep(i));
    forall i | 0 <= i < |xs| ensures Next(DUAL, ss[i], xs[i], ss[i + 1]) {
      DualNext(i);
    }
    DualBoot();
    assert IsRun(DUAL, ss, xs) && ss[|xs|] == DualWake(3, 3);
  }
}
