/** Wakers that can never return. A set of wakers is doomed when each will wait for one of the set:
    besides being blocked, it may be on its way to the spin with nothing that can keep it from it. */
module WakeDoom {
  import opened Prelude
  import opened ReadyQueue
  import opened WakeSystem
  import opened WakeInvariant
  import opened WakeSwitch
  import opened WakeTheorems
  import opened WakeNest
  import opened WakeSpin
  import opened WakeClosed
  import opened WaitGraph

  /** Waker a cannot return before waker b. Beyond what blocks it: it holds the lock and is about to
      spin, or it is about to take the lock of a task that no interrupt can take before. */
  predicate Ties(a: nat, g: Agent, v: Task, b: nat, h: Agent) {
    || Bars(a, g, v, b, h)
    || (g.pc == ComCheck && v.state == WaitEvent && v.cpu == h.cpu)
    || (g.pc == ComLock && v.state == WaitEvent && v.cpu == h.cpu && IrqOff(h))
  }

  ghost predicate TiedTo(s: Sys, a: nat, b: nat) {
    && a in s.agents && b in s.agents && s.agents[a].target < |s.tasks|
    && Ties(a, s.agents[a], s.tasks[s.agents[a].target], b, s.agents[b])
  }

  ghost function Tied(s: Sys): Rel {
    (a: nat, b: nat) => TiedTo(s, a, b)
  }

  ghost predicate Doomed(s: Sys, w: set<nat>) {
    Closed(Tied(s), w)
  }

  lemma NextInDoomed(s: Sys, w: set<nat>, a: nat) returns (b: nat)
    requires Doomed(s, w) && a in w
    ensures b in w && TiedTo(s, a, b)
  {
    assert WaitsIn(Tied(s), w, a);
    b :| b in w && Tied(s)(a, b);
  }

  /** Being blocked is the present case of it. */
  lemma ClosedIsDoomed(s: Sys, w: set<nat>)
    requires Closed(Blocked(s), w)
    ensures Doomed(s, w)
  {
    ClosedMono(Blocked(s), Tied(s), w);
  }

  // ---- timer interrupts are never doomed

  /** The task of a timer handler is on no CPU, so nobody that holds its lock is tied. */
  lemma HolderIsFree(k: Config, s: Sys, y: nat, z: nat, b: nat)
    requires Inv(k, s) && NestOk(s) && y in s.agents && s.agents[y].isTimer && z in s.agents
    requires s.tasks[s.agents[y].target].sLock == Some(z)
    ensures !TiedTo(s, z, b)
  {
    var t := s.agents[y].target;
    assert AgentOk(k, s, y) && TaskOk(k, s, t) && AgentOk(k, s, z);
    if b in s.agents {
      assert AgentOk(k, s, b);
    }
  }

  lemma TimerTie(k: Config, s: Sys, y: nat, z: nat)
    requires Inv(k, s) && NestOk(s) && y in s.agents && s.agents[y].isTimer && TiedTo(s, y, z)
    ensures s.tasks[s.agents[y].target].sLock == Some(z)
  {
    assert AgentOk(k, s, y) && TaskOk(k, s, s.agents[y].target) && AgentOk(k, s, z);
  }

  lemma TimerNotDoomed(k: Config, s: Sys, w: set<nat>, y: nat)
    requires Inv(k, s) && NestOk(s) && Doomed(s, w) && y in w && y in s.agents
    ensures !s.agents[y].isTimer
  {
    if s.agents[y].isTimer {
      var z := NextInDoomed(s, w, y);
      TimerTie(k, s, y, z);
      var b := NextInDoomed(s, w, z);
      HolderIsFree(k, s, y, z, b);
    }
  }

  // ---- a doomed set stays doomed

  /** The task that a doomed waker holds, or is about to lock, is frozen on the CPU of b. */
  lemma TieFreezes(k: Config, s: Sys, a: nat, b: nat)
    requires Inv(k, s) && TiedTo(s, a, b)
    requires var g, v := s.agents[a], s.tasks[s.agents[a].target];
             g.pc in {ComLock, ComCheck, ComSpin} && v.state == WaitEvent && v.cpu == s.agents[b].cpu
    ensures Frozen(s, s.agents[a].target, s.agents[b].cpu) && !Undisturbed(s, s.agents[b].cpu)
    ensures s.agents[a].cpu != s.agents[b].cpu && a != b
  {
    assert AgentOk(k, s, a) && AgentOk(k, s, b) && TaskOk(k, s, s.agents[a].target);
  }

  /** With interrupts off on its CPU nothing takes the task. */
  lemma NothingTakes(k: Config, s: Sys, x: Step, t: TaskId, b: nat)
    requires Inv(k, s) && NestOk(s) && Enabled(k, s, x) && b in s.agents && Frozen(s, t, s.agents[b].cpu) && IrqOff(s.agents[b])
    ensures !Takes(s, x, t)
  {
    if x.AgentStep? {
      assert AgentOk(k, s, x.a) && CpuOk(k, s, s.agents[x.a].cpu) && TaskOk(k, s, t) && AgentOk(k, s, b);
    }
  }

  /** The step of a doomed waker takes it nearer to the spin and no further. */
  lemma OwnStep(k: Config, s: Sys, a: nat, b: nat)
    requires Inv(k, s) && TiedTo(s, a, b) && Enabled(k, s, AgentStep(a))
    ensures
      var s', g := DoAgent(k, s, a), s.agents[a];
      && a in s'.agents && s'.agents == s.agents[a := g.(pc := s'.agents[a].pc)] && TiedTo(s', a, b)
      && ((g.pc == ComLock && s'.agents[a].pc == ComCheck) || (g.pc == ComCheck && s'.agents[a].pc == ComSpin))
      && forall t | 0 <= t < |s.tasks| :: t < |s'.tasks| && (s.tasks[t].sLock.Some? ==> s'.tasks[t].sLock == s.tasks[t].sLock)
  {
    BlockedOrNot(s, a, b);
    if BlockedBy(s, a, b) {
      BlockedWaits(k, s, a, b);
    }
    TieFreezes(k, s, a, b);
  }

  lemma BlockedOrNot(s: Sys, a: nat, b: nat)
    requires TiedTo(s, a, b)
    ensures BlockedBy(s, a, b) || (s.agents[a].pc in {ComLock, ComCheck} && s.tasks[s.agents[a].target].state == WaitEvent && s.tasks[s.agents[a].target].cpu == s.agents[b].cpu)
  {
  }

  /** s' has waker b where it was, at least as deep in its locks. */
  ghost predicate Stays(s: Sys, s': Sys, b: nat) {
    && b in s.agents && b in s'.agents && s'.agents[b] == s.agents[b].(pc := s'.agents[b].pc)
    && (IrqOff(s.agents[b]) ==> IrqOff(s'.agents[b]))
    && (forall t | 0 <= t < |s.tasks| && s.tasks[t].sLock == Some(b) :: t < |s'.tasks| && s'.tasks[t].sLock == Some(b))
  }

  lemma MemberStays(k: Config, s: Sys, x: Step, w: set<nat>, b: nat)
    requires Inv(k, s) && Enabled(k, s, x) && Doomed(s, w) && b in w
    ensures Stays(s, Apply(k, s, x), b)
  {
    var c := NextInDoomed(s, w, b);
    if x == AgentStep(b) {
      OwnStep(k, s, b, c);
    } else {
      WakerStays(k, s, x, b);
      forall t | 0 <= t < |s.tasks| && s.tasks[t].sLock == Some(b) ensures t < |Apply(k, s, x).tasks| && Apply(k, s, x).tasks[t].sLock == Some(b) {
        LockStays(k, s, x, t, b);
      }
    }
  }

  lemma FreezeStays(k: Config, s: Sys, x: Step, a: nat, b: nat)
    requires Inv(k, s) && NestOk(s) && Enabled(k, s, x) && x != AgentStep(a) && TiedTo(s, a, b)
    requires var g, v := s.agents[a], s.tasks[s.agents[a].target];
             && v.state == WaitEvent && v.cpu == s.agents[b].cpu
             && (g.pc == ComCheck || g.pc == ComSpin || (g.pc == ComLock && IrqOff(s.agents[b])))
    ensures Frozen(Apply(k, s, x), s.agents[a].target, s.agents[b].cpu)
  {
    var t := s.agents[a].target;
    TieFreezes(k, s, a, b);
    if s.agents[a].pc == ComLock {
      NothingTakes(k, s, x, t, b);
    } else {
      assert AgentOk(k, s, a);
    }
    FrozenStays(k, s, t, s.agents[b].cpu, x);
  }

  lemma TieStays(k: Config, s: Sys, x: Step, a: nat, b: nat)
    requires Inv(k, s) && NestOk(s) && Enabled(k, s, x) && x != AgentStep(a) && TiedTo(s, a, b)
    requires Stays(s, Apply(k, s, x), b) && !s.agents[b].isTimer
    ensures TiedTo(Apply(k, s, x), a, b)
  {
    var g, h := s.agents[a], s.agents[b];
    StepKeeps(k, s, x);
    WakerStays(k, s, x, a);
    if g.cpu == h.cpu && a < b {
    } else if g.pc == ComLock && s.tasks[g.target].sLock == Some(b) {
    } else {
      if g.pc == ComSpin {
        assert AgentOk(k, s, a);
      }
      FreezeStays(k, s, x, a, b);
    }
  }

  lemma MemberTied(k: Config, s: Sys, x: Step, w: set<nat>, a: nat) returns (b: nat)
    requires Inv(k, s) && NestOk(s) && Enabled(k, s, x) && Doomed(s, w) && a in w
    ensures b in w && TiedTo(Apply(k, s, x), a, b)
  {
    b := NextInDoomed(s, w, a);
    if x == AgentStep(a) {
      OwnStep(k, s, a, b);
    } else {
      MemberStays(k, s, x, w, b);
      TimerNotDoomed(k, s, w, b);
      TieStays(k, s, x, a, b);
    }
  }

  /** Whatever anybody does, a doomed set stays doomed: none of its wakers ever returns. */
  lemma DoomedStays(k: Config, s: Sys, x: Step, w: set<nat>)
    requires Inv(k, s) && NestOk(s) && Enabled(k, s, x) && Doomed(s, w)
    ensures Doomed(Apply(k, s, x), w)
  {
    var r := Tied(Apply(k, s, x));
    forall a | a in w ensures WaitsIn(r, w, a) {
      var b := MemberTied(k, s, x, w, a);
      assert r(a, b);
    }
  }
}
