/** What holds in every state that any interleaving of waits, switches, timeouts and wakers
    can reach. */
module WakeTheorems {
  import opened Prelude
  import opened ReadyQueue
  import opened WakeSystem
  import opened WakeInvariant
  import opened WakeSwitch

  const NoTimer := Timer(false, false, false, 0)

  function IdleTask(c: nat): Task {
    Task(Running, c, OnReady, None, PendOk, 0, 0, NoTimer, 0, false, map[], map[])
  }

  function CreatedTask(): Task {
    Task(Suspend, -1, Nowhere, None, PendOk, 0, 0, NoTimer, 0, false, map[], map[])
  }

  function BootCpu(idle: TaskId): Cpu {
    Cpu(idle, Steady, Rq([[], [], [], [], [], [], [], [idle]], [0, 0, 0, 0, 0, 0, 0, 0], {OS_PRIO_IDLE}), [])
  }

  /** After create_idle_task on every CPU; all other tasks are created and not started. */
  ghost predicate Boot(k: Config, s: Sys) {
    && |k.home| == |k.prio| == |s.tasks|
    && (forall t | 0 <= t < |s.tasks| :: k.home[t] < |s.cpus| && k.prio[t] < OS_PRIO_MAX)
    && s.agents == map[] && !s.panicked && !s.dropped
    && (forall c | 0 <= c < |s.cpus| ::
          var i := s.cpus[c].cur;
          i < |s.tasks| && k.home[i] == c && k.prio[i] == OS_PRIO_IDLE && s.cpus[c] == BootCpu(i))
    && (forall t | 0 <= t < |s.tasks| ::
          s.tasks[t] == if s.cpus[k.home[t]].cur == t then IdleTask(k.home[t]) else CreatedTask())
  }

  lemma BootSized(k: Config, s: Sys)
    requires Boot(k, s)
    ensures Sized(k, s)
  {
    forall c | 0 <= c < |s.cpus| ensures CpuSized(k, s, s.cpus[c]) {
    }
  }

  lemma BootOk(k: Config, s: Sys)
    requires Boot(k, s)
    ensures Inv(k, s)
  {
    BootSized(k, s);
    forall c | 0 <= c < |s.cpus| ensures CpuOk(k, s, c) {
    }
    forall t | 0 <= t < |s.tasks| ensures TaskOk(k, s, t) {
      var c := k.home[t];
      assert s.cpus[c].rq.lists[OS_PRIO_IDLE][0] == s.cpus[c].cur;
    }
  }

  ghost predicate Next(k: Config, s: Sys, x: Step, s': Sys) {
    Sized(k, s) && Enabled(k, s, x) && s' == Apply(k, s, x)
  }

  /** The states ss and the steps xs between them form a run. */
  ghost predicate IsRun(k: Config, ss: seq<Sys>, xs: seq<Step>) {
    |ss| == |xs| + 1 && forall i | 0 <= i < |xs| :: Next(k, ss[i], xs[i], ss[i + 1])
  }

  ghost predicate Reachable(k: Config, s: Sys) {
    exists ss, xs :: IsRun(k, ss, xs) && Boot(k, ss[0]) && ss[|xs|] == s
  }

  lemma NextKeeps(k: Config, s: Sys, x: Step, s': Sys)
    ensures Inv(k, s) && Next(k, s, x, s') ==> Inv(k, s')
  {
    if Inv(k, s) && Next(k, s, x, s') {
      StepKeeps(k, s, x);
    }
  }

  lemma {:induction false} KeptTo(k: Config, ss: seq<Sys>, i: nat)
    requires i < |ss| && Inv(k, ss[0]) && forall m | 0 <= m < i :: Inv(k, ss[m]) ==> Inv(k, ss[m + 1])
    ensures Inv(k, ss[i])
  {
    if i > 0 {
      KeptTo(k, ss, i - 1);
      assert Inv(k, ss[i - 1]) ==> Inv(k, ss[i - 1 + 1]);
    }
  }

  lemma RunKeeps(k: Config, ss: seq<Sys>, xs: seq<Step>, i: nat)
    requires IsRun(k, ss, xs) && Inv(k, ss[0]) && i <= |xs|
    ensures Inv(k, ss[i])
  {
    forall m | 0 <= m < i ensures Inv(k, ss[m]) ==> Inv(k, ss[m + 1]) {
      NextKeeps(k, ss[m], xs[m], ss[m + 1]);
    }
    KeptTo(k, ss, i);
  }

  lemma ReachableOk(k: Config, s: Sys)
    requires Reachable(k, s)
    ensures Inv(k, s)
  {
    var ss, xs :| IsRun(k, ss, xs) && Boot(k, ss[0]) && ss[|xs|] == s;
    BootOk(k, ss[0]);
    RunKeeps(k, ss, xs, |xs|);
  }

  /** No ASSERT of the list operations ever fires and irqwork_handler never drops a task. */
  lemma NeverPanics(k: Config, s: Sys)
    requires Reachable(k, s)
    ensures !s.panicked && !s.dropped
  {
    ReachableOk(k, s);
  }

  // ---- each task is on at most one list, at most once

  datatype Slot = ReadySlot(c: nat, p: nat, i: nat) | NewSlot(c: nat, i: nat)

  ghost predicate IsSlot(s: Sys, x: Slot) {
    && x.c < |s.cpus| && Shape(s.cpus[x.c].rq)
    && match x
       case ReadySlot(c, p, i) => p < OS_PRIO_MAX && i < |s.cpus[c].rq.lists[p]|
       case NewSlot(c, i) => i < |s.cpus[c].newList|
  }

  ghost function At(s: Sys, x: Slot): TaskId
    requires IsSlot(s, x)
  {
    match x
    case ReadySlot(c, p, i) => s.cpus[c].rq.lists[p][i]
    case NewSlot(c, i) => s.cpus[c].newList[i]
  }

  lemma SlotTask(k: Config, s: Sys, x: Slot)
    requires Inv(k, s) && IsSlot(s, x)
    ensures At(s, x) < |s.tasks| && k.home[At(s, x)] == x.c
    ensures s.tasks[At(s, x)].place == (if x.ReadySlot? then OnReady else OnNew)
    ensures x.ReadySlot? ==> k.prio[At(s, x)] == x.p
  {
    assert CpuSized(k, s, s.cpus[x.c]) && CpuOk(k, s, x.c);
  }

  lemma OneListOnly(k: Config, s: Sys, x: Slot, y: Slot)
    requires Reachable(k, s) && IsSlot(s, x) && IsSlot(s, y) && At(s, x) == At(s, y)
    ensures x == y
  {
    ReachableOk(k, s);
    SlotTask(k, s, x);
    SlotTask(k, s, y);
    assert CpuOk(k, s, x.c);
    if x.ReadySlot? {
      assert NoDup(s.cpus[x.c].rq.lists[x.p]);
    }
  }

  /** The book-keeping of every CPU, and its running task is the last of its list. */
  lemma ListsBooked(k: Config, s: Sys, c: nat)
    requires Reachable(k, s) && c < |s.cpus|
    ensures Booked(s.cpus[c].rq)
    ensures
      var cpu := s.cpus[c];
      cpu.phase == Steady ==>
        && cpu.cur < |k.prio| && k.prio[cpu.cur] < OS_PRIO_MAX
        && IsLast(cpu.rq.lists[k.prio[cpu.cur]], cpu.cur)
  {
    ReachableOk(k, s);
    assert CpuOk(k, s, c);
  }

  // ---- one winner per wait

  /** Every wait but an open one has a winner, the waiter read exactly what that winner
      wrote, and a timeout that won was armed for that wait and no earlier one. */
  lemma OneWinner(k: Config, s: Sys, t: TaskId)
    requires Reachable(k, s) && t < |s.tasks|
    ensures forall g: nat | 1 <= g < s.tasks[t].waits :: g in s.tasks[t].won
    ensures s.tasks[t].waits > 0 ==> (s.tasks[t].waits in s.tasks[t].won <==> s.tasks[t].state != WaitEvent)
    ensures forall g | g in s.tasks[t].seen :: g in s.tasks[t].won && s.tasks[t].seen[g] == s.tasks[t].won[g].got
    ensures forall g | g in s.tasks[t].won && s.tasks[t].won[g].got.pend == PendTo :: s.tasks[t].won[g].armedFor == g
  {
    ReachableOk(k, s);
    assert TaskOk(k, s, t);
  }

  /** Every wait of t that has a winner in s has the same winner in s'. */
  ghost predicate WinnersKept(s: Sys, s': Sys, t: TaskId) {
    && t < |s.tasks| && t < |s'.tasks|
    && forall g | g in s.tasks[t].won :: g in s'.tasks[t].won && s'.tasks[t].won[g] == s.tasks[t].won[g]
  }

  /** A winner is final: no step of any waker changes a wait that was won. */
  lemma WinnerIsFinal(k: Config, s: Sys, x: Step, s': Sys, t: TaskId)
    requires Inv(k, s) && Next(k, s, x, s') && t < |s.tasks|
    ensures WinnersKept(s, s', t)
  {
    assert TaskOk(k, s, t);
    if x.AgentStep? {
      AgentKeepsWinners(k, s, x.a, s', t);
    } else {
      OthersKeepWinners(k, s, x, s', t);
    }
  }

  lemma AgentKeepsWinners(k: Config, s: Sys, a: nat, s': Sys, t: TaskId)
    requires Sized(k, s) && a in s.agents && AgentOk(k, s, a) && s' == DoAgent(k, s, a) && t < |s.tasks|
    requires HistoryOk(s.tasks[t])
    ensures WinnersKept(s, s', t)
  {
    var g := s.agents[a];
    if g.pc == ComReady {
      ReadyKeepsWinners(k, s, g.cpu, g.target, t);
    } else if g.target == t {
      StepKeepsWinner(a, g, s.tasks[t], k.home[t], s.cpus[g.cpu]);
    }
  }

  lemma StepKeepsWinner(a: nat, g: Agent, v: Task, h: nat, cpu: Cpu)
    requires AgentVal(a, g, v, h, cpu) && HistoryOk(v)
    ensures forall n | n in v.won :: n in AgentTask(a, g, v).won && AgentTask(a, g, v).won[n] == v.won[n]
  {
  }

  ghost predicate SameWinners(s: Sys, s': Sys, t: TaskId) {
    t < |s.tasks| && t < |s'.tasks| && s'.tasks[t].won == s.tasks[t].won
  }

  lemma ReadyKeepsWinners(k: Config, s: Sys, c: nat, u: TaskId, t: TaskId)
    requires Sized(k, s) && c < |s.cpus| && u < |s.tasks| && t < |s.tasks|
    ensures SameWinners(s, TaskReady(k, s, c, u), t)
  {
  }

  lemma SchedKeepsWinners(k: Config, s: Sys, x: Step, t: TaskId)
    requires Sized(k, s) && Enabled(k, s, x) && t < |s.tasks| && (x.Pick? || x.SwitchOut? || x.SwitchIn?)
    ensures SameWinners(s, Apply(k, s, x), t)
  {
  }

  lemma IrqWorkKeepsWinners(k: Config, s: Sys, c: nat, t: TaskId)
    requires Sized(k, s) && c < |s.cpus| && s.cpus[c].newList != [] && t < |s.tasks|
    ensures SameWinners(s, DoIrqWork(k, s, c), t)
  {
  }

  lemma OthersKeepWinners(k: Config, s: Sys, x: Step, s': Sys, t: TaskId)
    requires Next(k, s, x, s') && !x.AgentStep? && t < |s.tasks|
    ensures SameWinners(s, s', t)
  {
    if x.StartTask? {
      ReadyKeepsWinners(k, s, x.c, x.t, t);
    } else if x.IrqWork? {
      IrqWorkKeepsWinners(k, s, x.c, t);
    } else if x.Pick? || x.SwitchOut? || x.SwitchIn? {
      SchedKeepsWinners(k, s, x, t);
    }
  }

  lemma KeptTwice(a: Sys, b: Sys, c: Sys, t: TaskId)
    ensures WinnersKept(a, b, t) && WinnersKept(b, c, t) ==> WinnersKept(a, c, t)
  {
  }

  lemma StepKeepsWinners(k: Config, ss: seq<Sys>, xs: seq<Step>, j: nat, t: TaskId)
    requires IsRun(k, ss, xs) && Boot(k, ss[0]) && j < |xs|
    ensures t < |ss[j].tasks| ==> WinnersKept(ss[j], ss[j + 1], t)
  {
    BootOk(k, ss[0]);
    RunKeeps(k, ss, xs, j);
    assert Next(k, ss[j], xs[j], ss[j + 1]);
    if t < |ss[j].tasks| {
      WinnerIsFinal(k, ss[j], xs[j], ss[j + 1], t);
    }
  }

  lemma {:induction false} KeptAlong(ss: seq<Sys>, i: nat, j: nat, t: TaskId)
    requires i <= j < |ss| && t < |ss[i].tasks|
    requires forall m | i <= m < j :: t < |ss[m].tasks| ==> WinnersKept(ss[m], ss[m + 1], t)
    ensures WinnersKept(ss[i], ss[j], t)
    decreases j
  {
    if i < j {
      KeptAlong(ss, i, j - 1, t);
      assert WinnersKept(ss[j - 1], ss[j - 1 + 1], t);
      KeptTwice(ss[i], ss[j - 1], ss[j], t);
    }
  }

  /** Over a whole run: what once won a wait has won it for good. */
  lemma WinnerStays(k: Config, ss: seq<Sys>, xs: seq<Step>, i: nat, j: nat, t: TaskId)
    requires IsRun(k, ss, xs) && Boot(k, ss[0]) && i <= j <= |xs| && t < |ss[i].tasks|
    ensures WinnersKept(ss[i], ss[j], t)
  {
    forall m | i <= m < j ensures t < |ss[m].tasks| ==> WinnersKept(ss[m], ss[m + 1], t) {
      StepKeepsWinners(k, ss, xs, m, t);
    }
    KeptAlong(ss, i, j, t);
  }

  // ---- exactly one waker succeeds

  /** The step in which a call of __wake_up takes the task out of its wait; only such a call
      returns success. */
  predicate Succeeds(g: Agent, v: Task) {
    g.pc == ComSpin || (g.pc == IntTry && v.sLock == None && v.state == WaitEvent)
  }

  /** In s, step x is the success of a waker of wait n of task t. */
  ghost predicate Wins(s: Sys, x: Step, t: TaskId, n: nat) {
    && t < |s.tasks| && s.tasks[t].waits == n && x.AgentStep? && x.a in s.agents
    && s.agents[x.a].target == t && Succeeds(s.agents[x.a], s.tasks[t])
  }

  ghost function WinOf(s: Sys, x: Step): Win
    requires x.AgentStep? && x.a in s.agents
  {
    var g := s.agents[x.a];
    Win(Got(g.pend, g.msg), g.gen, x.a)
  }

  /** A waker that succeeds is the first for that wait, and it becomes the winner on record. */
  lemma SuccessIsFirst(k: Config, s: Sys, x: Step, s': Sys, t: TaskId, n: nat)
    requires Inv(k, s) && Next(k, s, x, s') && Wins(s, x, t, n)
    ensures n !in s.tasks[t].won
    ensures t < |s'.tasks| && n in s'.tasks[t].won && s'.tasks[t].won[n] == WinOf(s, x)
  {
    assert TaskOk(k, s, t) && AgentOk(k, s, x.a);
  }

  lemma AgentAddsWinner(k: Config, s: Sys, a: nat, s': Sys, t: TaskId, n: nat)
    requires Sized(k, s) && a in s.agents && s' == DoAgent(k, s, a) && t < |s.tasks| && !Wins(s, AgentStep(a), t, n)
    ensures t < |s'.tasks| && (n in s'.tasks[t].won ==> n in s.tasks[t].won)
  {
  }

  /** Nothing else makes a winner. */
  lemma OnlySuccessWins(k: Config, s: Sys, x: Step, s': Sys, t: TaskId, n: nat)
    requires Inv(k, s) && Next(k, s, x, s') && t < |s.tasks| && !Wins(s, x, t, n)
    ensures t < |s'.tasks| && (n in s'.tasks[t].won ==> n in s.tasks[t].won)
  {
    if x.AgentStep? {
      AgentAddsWinner(k, s, x.a, s', t, n);
    } else {
      OthersKeepWinners(k, s, x, s', t);
    }
  }

  /** What the record of wait n of task t says about the first j steps of a run. */
  ghost predicate Recorded(ss: seq<Sys>, xs: seq<Step>, j: nat, t: TaskId, n: nat) {
    && j < |ss| && j <= |xs| < |ss| && t < |ss[j].tasks|
    && (n in ss[j].tasks[t].won <==> exists i | 0 <= i < j :: Wins(ss[i], xs[i], t, n))
    && (forall i | 0 <= i < j && Wins(ss[i], xs[i], t, n) :: n in ss[j].tasks[t].won && ss[j].tasks[t].won[n] == WinOf(ss[i], xs[i]))
    && (forall h, i | 0 <= h < i < j :: !(Wins(ss[h], xs[h], t, n) && Wins(ss[i], xs[i], t, n)))
  }

  lemma RecordNext(k: Config, ss: seq<Sys>, xs: seq<Step>, j: nat, t: TaskId, n: nat)
    requires j < |xs| && |ss| == |xs| + 1 && Inv(k, ss[j]) && Next(k, ss[j], xs[j], ss[j + 1]) && Recorded(ss, xs, j, t, n)
    ensures Recorded(ss, xs, j + 1, t, n)
  {
    WinnerIsFinal(k, ss[j], xs[j], ss[j + 1], t);
    if Wins(ss[j], xs[j], t, n) {
      SuccessIsFirst(k, ss[j], xs[j], ss[j + 1], t, n);
    } else {
      OnlySuccessWins(k, ss[j], xs[j], ss[j + 1], t, n);
    }
  }

  lemma RecordStep(k: Config, ss: seq<Sys>, xs: seq<Step>, j: nat, t: TaskId, n: nat)
    requires IsRun(k, ss, xs) && Boot(k, ss[0]) && j < |xs|
    ensures Recorded(ss, xs, j, t, n) ==> Recorded(ss, xs, j + 1, t, n)
  {
    BootOk(k, ss[0]);
    RunKeeps(k, ss, xs, j);
    assert Next(k, ss[j], xs[j], ss[j + 1]);
    if Recorded(ss, xs, j, t, n) {
      RecordNext(k, ss, xs, j, t, n);
    }
  }

  lemma RecordStart(k: Config, ss: seq<Sys>, xs: seq<Step>, t: TaskId, n: nat)
    requires |ss| == |xs| + 1 && Boot(k, ss[0]) && t < |ss[0].tasks|
    ensures Recorded(ss, xs, 0, t, n)
  {
  }

  lemma {:induction false} RecordAlong(ss: seq<Sys>, xs: seq<Step>, j: nat, t: TaskId, n: nat)
    requires Recorded(ss, xs, 0, t, n) && forall m | 0 <= m < j :: Recorded(ss, xs, m, t, n) ==> Recorded(ss, xs, m + 1, t, n)
    ensures Recorded(ss, xs, j, t, n)
    decreases j
  {
    if j > 0 {
      RecordAlong(ss, xs, j - 1, t, n);
      assert Recorded(ss, xs, j - 1, t, n) ==> Recorded(ss, xs, j - 1 + 1, t, n);
    }
  }

  /** Over every run: the winner on record of a wait is the one waker that succeeded, and there is
      exactly one success for every wait on record and none for any other. */
  lemma OneSuccess(k: Config, ss: seq<Sys>, xs: seq<Step>, j: nat, t: TaskId, n: nat)
    requires IsRun(k, ss, xs) && Boot(k, ss[0]) && j <= |xs| && t < |ss[0].tasks|
    ensures Recorded(ss, xs, j, t, n)
  {
    RecordStart(k, ss, xs, t, n);
    forall m | 0 <= m < j ensures Recorded(ss, xs, m, t, n) ==> Recorded(ss, xs, m + 1, t, n) {
      RecordStep(k, ss, xs, m, t, n);
    }
    RecordAlong(ss, xs, j, t, n);
  }

  /** Every wait that is over had exactly one successful waker. */
  lemma FinishedWait(k: Config, ss: seq<Sys>, xs: seq<Step>, t: TaskId, n: nat) returns (i: nat)
    requires IsRun(k, ss, xs) && Boot(k, ss[0]) && t < |ss[|xs|].tasks|
    requires
      var v := ss[|xs|].tasks[t];
      1 <= n <= v.waits && (n == v.waits ==> v.state != WaitEvent)
    ensures i < |xs| && Wins(ss[i], xs[i], t, n)
    ensures forall j | 0 <= j < |xs| && Wins(ss[j], xs[j], t, n) :: j == i
    ensures n in ss[|xs|].tasks[t].seen ==>
              var g := ss[i].agents[xs[i].a]; ss[|xs|].tasks[t].seen[n] == Got(g.pend, g.msg)
  {
    BootOk(k, ss[0]);
    RunKeeps(k, ss, xs, |xs|);
    assert TaskOk(k, ss[|xs|], t);
    OneSuccess(k, ss, xs, |xs|, t, n);
    i :| 0 <= i < |xs| && Wins(ss[i], xs[i], t, n);
  }

  /** A waker that goes on to link the task, and then returns success, is the winner of its wait. */
  lemma OwnerIsWinner(k: Config, s: Sys, a: nat)
    requires Reachable(k, s) && a in s.agents && Owns(s.agents[a])
    ensures
      var t := s.agents[a].target;
      && t < |s.tasks| && s.tasks[t].waits in s.tasks[t].won
      && s.tasks[t].won[s.tasks[t].waits].waker == a
  {
    ReachableOk(k, s);
    assert AgentOk(k, s, a);
  }

  // ---- nothing is lost or stuck

  /** A task in WAKING is on a list or in the hands of exactly one waker that will link it. */
  lemma WakingIsKept(k: Config, s: Sys, t: TaskId)
    requires Reachable(k, s) && t < |s.tasks| && s.tasks[t].state == Waking
    ensures s.tasks[t].place == Nowhere <==> HasOwner(s, t)
    ensures forall a, b | a in s.agents && b in s.agents && s.agents[a].target == t && s.agents[b].target == t
              && Owns(s.agents[a]) && Owns(s.agents[b]) :: a == b
  {
    ReachableOk(k, s);
    assert TaskOk(k, s, t);
    if HasOwner(s, t) {
      var a :| a in s.agents && s.agents[a].target == t && Owns(s.agents[a]);
      assert AgentOk(k, s, a);
    }
    forall a, b | a in s.agents && b in s.agents && s.agents[a].target == t && s.agents[b].target == t
      && Owns(s.agents[a]) && Owns(s.agents[b])
      ensures a == b
    {
      assert a != b ==> PairOk(s.agents[a], s.agents[b]);
    }
  }
}
