/** Wakers that wait for each other. The wakers of a closed set never make a step again, and a waker in
    no closed set waits, through others at most, for a step that can be made. */
module WakeClosed {
  import opened Prelude
  import opened ReadyQueue
  import opened WakeSystem
  import opened WakeInvariant
  import opened WakeSwitch
  import opened WakeTheorems
  import opened WakeNest
  import opened WakeSpin
  import opened WaitGraph

  /** Waker a cannot make its next step before waker b has made one: b runs on top of a, holds the lock
      that a needs, runs on the CPU whose switch a waits for, or is the timer interrupt whose handler
      a waits for. */
  predicate Bars(a: nat, g: Agent, v: Task, b: nat, h: Agent) {
    || (a < b && g.cpu == h.cpu)
    || (g.pc == ComLock && v.sLock == Some(b))
    || (g.pc == ComSpin && v.cpu == h.cpu)
    || (g.pc == ComStopWait && v.timer.running && h.isTimer && h.target == g.target)
  }

  ghost predicate BlockedBy(s: Sys, a: nat, b: nat) {
    && a in s.agents && b in s.agents && s.agents[a].target < |s.tasks|
    && Bars(a, s.agents[a], s.tasks[s.agents[a].target], b, s.agents[b])
  }

  ghost function Blocked(s: Sys): Rel {
    (a: nat, b: nat) => BlockedBy(s, a, b)
  }

  lemma BlockedWaits(k: Config, s: Sys, a: nat, b: nat)
    requires Sized(k, s) && BlockedBy(s, a, b)
    ensures !Enabled(k, s, AgentStep(a))
  {
  }

  // ---- a closed set stays closed

  /** No other step takes a waker away. */
  lemma WakerStays(k: Config, s: Sys, x: Step, a: nat)
    requires Sized(k, s) && Enabled(k, s, x) && a in s.agents && x != AgentStep(a)
    ensures a in Apply(k, s, x).agents && Apply(k, s, x).agents[a] == s.agents[a]
  {
  }

  lemma WakerKeepsLock(k: Config, s: Sys, y: nat, t: TaskId, b: nat)
    requires Sized(k, s) && Enabled(k, s, AgentStep(y)) && AgentOk(k, s, y) && y != b && t < |s.tasks| && s.tasks[t].sLock == Some(b)
    ensures t < |DoAgent(k, s, y).tasks| && DoAgent(k, s, y).tasks[t].sLock == Some(b)
  {
  }

  lemma LockStays(k: Config, s: Sys, x: Step, t: TaskId, b: nat)
    requires Inv(k, s) && Enabled(k, s, x) && x != AgentStep(b) && t < |s.tasks| && s.tasks[t].sLock == Some(b)
    ensures t < |Apply(k, s, x).tasks| && Apply(k, s, x).tasks[t].sLock == Some(b)
  {
    if x.AgentStep? {
      WakerKeepsLock(k, s, x.a, t, b);
    }
  }

  lemma WakerKeepsHandler(k: Config, s: Sys, y: nat, t: TaskId, b: nat)
    requires Sized(k, s) && Enabled(k, s, AgentStep(y)) && AgentOk(k, s, y) && y != b && t < |s.tasks| && s.tasks[t].timer.running
    requires b in s.agents && s.agents[b].isTimer && s.agents[b].target == t && PairOk(s.agents[y], s.agents[b])
    ensures t < |DoAgent(k, s, y).tasks| && DoAgent(k, s, y).tasks[t].timer.running
  {
  }

  lemma HandlerStays(k: Config, s: Sys, x: Step, t: TaskId, b: nat)
    requires Inv(k, s) && Enabled(k, s, x) && x != AgentStep(b) && t < |s.tasks| && s.tasks[t].timer.running
    requires b in s.agents && s.agents[b].isTimer && s.agents[b].target == t
    ensures t < |Apply(k, s, x).tasks| && Apply(k, s, x).tasks[t].timer.running
  {
    if x.AgentStep? {
      assert AgentOk(k, s, x.a) && PairOk(s.agents[x.a], s.agents[b]);
      WakerKeepsHandler(k, s, x.a, t, b);
    }
  }

  lemma SpinFrozen(k: Config, s: Sys, a: nat, b: nat)
    requires Inv(k, s) && a in s.agents && b in s.agents && s.agents[a].pc == ComSpin
    requires s.tasks[s.agents[a].target].cpu == s.agents[b].cpu
    ensures Frozen(s, s.agents[a].target, s.agents[b].cpu) && !Undisturbed(s, s.agents[b].cpu)
    ensures s.tasks[s.agents[a].target].sLock == Some(a)
  {
    assert AgentOk(k, s, a) && AgentOk(k, s, b) && TaskOk(k, s, s.agents[a].target);
  }

  lemma SpinStays(k: Config, s: Sys, x: Step, a: nat, b: nat)
    requires Inv(k, s) && Enabled(k, s, x) && a in s.agents && b in s.agents && s.agents[a].pc == ComSpin
    requires s.tasks[s.agents[a].target].cpu == s.agents[b].cpu
    ensures Frozen(Apply(k, s, x), s.agents[a].target, s.agents[b].cpu)
  {
    SpinFrozen(k, s, a, b);
    FrozenStays(k, s, s.agents[a].target, s.agents[b].cpu, x);
  }

  /** What blocks a waker goes on to block it until the blocking waker makes a step. */
  lemma BlockStays(k: Config, s: Sys, x: Step, a: nat, b: nat)
    requires Inv(k, s) && Enabled(k, s, x) && BlockedBy(s, a, b) && x != AgentStep(b)
    ensures x != AgentStep(a) && BlockedBy(Apply(k, s, x), a, b)
  {
    BlockedWaits(k, s, a, b);
    WakerStays(k, s, x, a);
    WakerStays(k, s, x, b);
    var g, h := s.agents[a], s.agents[b];
    if g.pc == ComLock && s.tasks[g.target].sLock == Some(b) {
      LockStays(k, s, x, g.target, b);
    } else if g.pc == ComSpin && s.tasks[g.target].cpu == h.cpu {
      SpinStays(k, s, x, a, b);
    } else if g.pc == ComStopWait && s.tasks[g.target].timer.running && h.isTimer && h.target == g.target {
      HandlerStays(k, s, x, g.target, b);
    } else {
      StepKeeps(k, s, x);
    }
  }

  /** A closed set stays closed, and none of its wakers makes a step, whatever anybody does. */
  lemma ClosedStays(k: Config, s: Sys, x: Step, w: set<nat>)
    requires Inv(k, s) && Closed(Blocked(s), w) && Enabled(k, s, x)
    ensures (forall a | a in w :: x != AgentStep(a)) && Closed(Blocked(Apply(k, s, x)), w)
  {
    forall a | a in w ensures x != AgentStep(a) {
      assert WaitsIn(Blocked(s), w, a);
      var b :| b in w && BlockedBy(s, a, b);
      BlockedWaits(k, s, a, b);
    }
    forall a | a in w ensures WaitsIn(Blocked(Apply(k, s, x)), w, a) {
      assert WaitsIn(Blocked(s), w, a);
      var b :| b in w && BlockedBy(s, a, b);
      BlockStays(k, s, x, a, b);
      assert Blocked(Apply(k, s, x))(a, b);
    }
  }

  // ---- outside closed sets

  /** The next step of the waker, or a step of the scheduler it waits for, can be made. */
  ghost predicate Helped(k: Config, s: Sys, e: nat)
    requires Sized(k, s)
  {
    && e in s.agents
    && (|| Enabled(k, s, AgentStep(e))
        || (s.agents[e].pc == ComSpin && (Enabled(k, s, Pick(k.home[s.agents[e].target])) || Enabled(k, s, SwitchOut(k.home[s.agents[e].target])))))
  }

  lemma FreeIsHelped(k: Config, s: Sys, e: nat)
    requires Inv(k, s) && e in s.agents && Free(Blocked(s), e)
    ensures Helped(k, s, e)
  {
    var g := s.agents[e];
    assert AgentOk(k, s, e) && TaskOk(k, s, g.target);
    assert forall b | b in s.agents :: !Blocked(s)(e, b);
    assert forall b | b in s.agents :: !BlockedBy(s, e, b);
    assert Youngest(s, e, g.cpu);
    if g.pc == ComSpin && s.tasks[g.target].cpu != -1 {
      assert Undisturbed(s, k.home[g.target]);
    }
  }

  /** No chain of wakers from a on comes back to itself, and one leads to a step that can be made. */
  ghost predicate GoesOn(k: Config, s: Sys, a: nat)
    requires Sized(k, s)
  {
    && (forall l | Chain(Blocked(s), l) && l[0] == a :: NoDup(l))
    && (exists l | Chain(Blocked(s), l) && l[0] == a :: Helped(k, s, l[|l| - 1]))
  }

  /** A waker waits, through others at most, for a step that can be made exactly when it is in no closed
      set. */
  lemma GoesOnIff(k: Config, s: Sys, a: nat)
    requires Inv(k, s) && a in s.agents
    ensures GoesOn(k, s, a) <==> !InClosed(Blocked(s), a)
  {
    var r := Blocked(s);
    ClosedIff(r, a);
    if !InClosed(r, a) {
      assert Within(r, s.agents.Keys);
      var l := ChainEnds(r, [a], s.agents.Keys);
      assert l[0] == [a][0];
      FreeIsHelped(k, s, l[|l| - 1]);
    }
  }
}
