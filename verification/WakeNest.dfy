/** Wakers of one CPU nest: only the youngest runs, and one that has interrupts off is the youngest. */
module WakeNest {
  import opened WakeSystem
  import opened WakeTheorems

  ghost predicate NestOk(s: Sys) {
    forall a, b | a in s.agents && b in s.agents && a < b && s.agents[a].cpu == s.agents[b].cpu :: !IrqOff(s.agents[a])
  }

  lemma AgentKeepsNest(k: Config, s: Sys, e: nat)
    requires Sized(k, s) && NestOk(s) && Enabled(k, s, AgentStep(e))
    ensures NestOk(DoAgent(k, s, e))
  {
    var s' := DoAgent(k, s, e);
    forall a, b | a in s'.agents && b in s'.agents && a < b && s'.agents[a].cpu == s'.agents[b].cpu ensures !IrqOff(s'.agents[a]) {
      assert s'.agents[a].cpu == s.agents[a].cpu && s'.agents[b].cpu == s.agents[b].cpu;
    }
  }

  lemma NestKeeps(k: Config, s: Sys, x: Step)
    requires Sized(k, s) && NestOk(s) && Enabled(k, s, x)
    ensures NestOk(Apply(k, s, x))
  {
    if x.AgentStep? {
      AgentKeepsNest(k, s, x.a);
    }
  }

  lemma {:induction false} RunNest(k: Config, ss: seq<Sys>, xs: seq<Step>, i: nat)
    requires IsRun(k, ss, xs) && NestOk(ss[0]) && i <= |xs|
    ensures NestOk(ss[i])
  {
    if i > 0 {
      RunNest(k, ss, xs, i - 1);
      assert Next(k, ss[i - 1], xs[i - 1], ss[i - 1 + 1]);
      NestKeeps(k, ss[i - 1], xs[i - 1]);
    }
  }

  /** In every reachable state. */
  lemma ReachableNest(k: Config, s: Sys)
    requires Reachable(k, s)
    ensures NestOk(s)
  {
    var ss, xs :| IsRun(k, ss, xs) && Boot(k, ss[0]) && ss[|xs|] == s;
    RunNest(k, ss, xs, |xs|);
  }
}
