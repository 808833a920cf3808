/** The idle and kick protocol of a virtual CPU (virt/vm.c, virt/virq.c, the wait_event macro
    of include/minos/event.h, wake and __wake_up): any number of senders on any CPU, in task
    or interrupt context, against one vcpu that scans its bitmaps, marks itself as waiting
    and switches out. One step is one atomic access or one interrupt-off region. */
module VcpuWake {
  import opened Prelude
  import opened WakeSystem

  /** Where the vcpu is. Locked, Mark and Unlock are inside the event lock, Window is between
      the unlock and the exception that enters the scheduler, Switch and Switched are inside
      switch_to_task before and after cpu = -1. */
  datatype VPc =
    | Guest | Scan(i: nat) | WantLock | Locked(i: nat) | Mark | Unlock
    | Window | Switch | Switched | Off

  /** Where a sender is. Post: about to set the pending bit. Kick: about to call wake. */
  datatype SPc =
    | Post | Kick | IntTest | IntLock
    | EvLock | SLock | Check | Fail | Spin | Link | EvUnlock | Done

  /** onHome: the sender runs on the CPU of the vcpu. */
  datatype Sender = Sender(onHome: bool, virq: nat, pc: SPc)

  datatype Holder = Free | ByVcpu | BySender(a: nat)

  /** `current`: the vcpu is the current task of its CPU. `cpuSet`: its cpu field is not -1. */
  datatype Vm = Vm(state: TaskState, current: bool, cpuSet: bool, listed: bool, vpc: VPc,
                   pending: set<nat>, active: set<nat>,
                   sLock: Option<nat>, evLock: Holder, senders: seq<Sender>)

  datatype Step =
    | Send(onHome: bool, virq: nat) | SenderStep(a: nat)
    | Idle | VcpuStep | CannotIdle | Take(virq: nat) | Complete(virq: nat)
    | Preempt | SwitchIn

  predicate IrqOff(v: Vm) {
    v.vpc == WantLock || v.vpc.Locked? || v.vpc == Mark || v.vpc == Unlock || v.vpc == Switch || v.vpc == Switched
  }

  predicate InCommon(p: SPc) {
    p == SLock || p == Check || p == Fail || p == Spin || p == Link || p == EvUnlock
  }

  /** The sender keeps the CPU of the vcpu to itself: it is an interrupt handler, or it has
      disabled preemption. */
  predicate Blocks(g: Sender) {
    g.onHome && (g.pc == IntTest || g.pc == IntLock || InCommon(g.pc))
  }

  predicate Unstopped(v: Vm) {
    forall a | 0 <= a < |v.senders| :: !Blocks(v.senders[a])
  }

  predicate CanStep(v: Vm, g: Sender) {
    && g.pc != Done
    && (g.onHome ==> !IrqOff(v))
    // a task that runs on the CPU of the vcpu runs instead of the vcpu
    && (g.onHome && (g.pc == EvLock || InCommon(g.pc)) ==> !v.current)
    && (g.pc == EvLock ==> v.evLock == Free)
    && (g.pc == SLock ==> v.sLock == None)
    && (g.pc == Spin ==> !v.cpuSet)
  }

  predicate Enabled(n: nat, v: Vm, x: Step) {
    match x
    case Send(onHome, virq) => virq < n && (onHome ==> !IrqOff(v))
    case SenderStep(a) => a < |v.senders| && CanStep(v, v.senders[a])
    case Idle => v.current && Unstopped(v) && v.vpc == Guest
    case VcpuStep =>
      && v.current && Unstopped(v) && v.vpc != Guest && v.vpc != Off
      && (v.vpc == WantLock ==> v.evLock == Free)
    case CannotIdle => v.current && Unstopped(v) && (v.vpc.Scan? || v.vpc.Locked?)
    case Take(virq) => v.current && Unstopped(v) && v.vpc == Guest && virq in v.pending && virq !in v.active
    case Complete(virq) => v.current && Unstopped(v) && v.vpc == Guest && virq in v.active
    case Preempt => v.current && Unstopped(v) && !IrqOff(v) && v.state == Running
    case SwitchIn => !v.current && Unstopped(v) && v.listed && v.state in {Ready, Waking}
  }

  /** Does the i-th bit that vcpu_has_irq looks at stop the vcpu from idling? */
  predicate BitSet(n: nat, v: Vm, i: nat) {
    if i < n then i in v.pending else i - n in v.active
  }

  /** What a step of sender a at g does to everything but the senders. */
  function Effect(v: Vm, a: nat, g: Sender): Vm {
    match g.pc
    case Post => v.(pending := v.pending + {g.virq})
    case IntLock => if v.sLock != None || v.state != WaitEvent then v else v.(state := Running)
    case EvLock => v.(evLock := BySender(a))
    case SLock => v.(sLock := Some(a))
    case Fail => v.(sLock := None)
    case Spin => v.(state := Waking, sLock := None)
    case Link => v.(listed := true)
    case EvUnlock => v.(evLock := Free)
    case _ => v
  }

  function NextPc(v: Vm, g: Sender): SPc {
    match g.pc
    case Post => Kick
    case Kick => if g.onHome && v.current then IntTest else EvLock
    case IntTest => if v.state == WaitEvent then IntLock else Done
    case IntLock => Done
    case EvLock => SLock
    case SLock => Check
    case Check => if v.state == WaitEvent then Spin else Fail
    case Fail => EvUnlock
    case Spin => Link
    case Link => EvUnlock
    case EvUnlock => Done
    case Done => Done
  }

  function DoSender(v: Vm, a: nat): Vm
    requires a < |v.senders|
  {
    var g := v.senders[a];
    Effect(v, a, g).(senders := v.senders[a := g.(pc := NextPc(v, g))])
  }

  function DoVcpu(n: nat, v: Vm): Vm {
    match v.vpc
    case Scan(i) =>
      if i >= 2 * n then v.(vpc := WantLock)
      else if BitSet(n, v, i) then v.(vpc := Guest)
      else v.(vpc := Scan(i + 1))
    case WantLock => v.(evLock := ByVcpu, vpc := Locked(0))
    case Locked(i) =>
      if i >= 2 * n then v.(vpc := Mark)
      else if BitSet(n, v, i) then v.(evLock := Free, vpc := Guest)
      else v.(vpc := Locked(i + 1))
    case Mark => v.(state := WaitEvent, vpc := Unlock)
    case Unlock => v.(evLock := Free, vpc := Window)
    case Window => if v.state == WaitEvent then v.(listed := false, vpc := Switch) else v.(vpc := Guest)
    case Switch => v.(cpuSet := false, vpc := Switched)
    case Switched => v.(current := false, vpc := Off)
    case _ => v
  }

  function Apply(n: nat, v: Vm, x: Step): Vm
    requires Enabled(n, v, x)
  {
    match x
    case Send(onHome, virq) => v.(senders := v.senders + [Sender(onHome, virq, Post)])
    case SenderStep(a) => DoSender(v, a)
    case Idle => v.(vpc := Scan(0))
    case VcpuStep => DoVcpu(n, v)
    case CannotIdle => v.(vpc := Guest, evLock := if v.vpc.Locked? then Free else v.evLock)
    case Take(virq) => v.(pending := v.pending - {virq}, active := v.active + {virq})
    case Complete(virq) => v.(active := v.active - {virq})
    case Preempt => v.(state := Ready, current := false, cpuSet := false)
    case SwitchIn => v.(state := Running, current := true, cpuSet := true,
                        vpc := if v.vpc == Off then Window else v.vpc)
  }

  // ---- the invariant

  /** The sender has not yet tried to wake the vcpu. */
  predicate Early(g: Sender) { g.pc == Kick || g.pc == EvLock }

  /** The sender is on its way to wake the vcpu. */
  predicate OnWay(g: Sender) {
    Early(g) || g.pc == IntTest || g.pc == IntLock || g.pc == SLock || g.pc == Check || g.pc == Spin
  }

  ghost predicate HasEarly(v: Vm) {
    exists a :: 0 <= a < |v.senders| && Early(v.senders[a])
  }

  ghost predicate HasOnWay(v: Vm) {
    exists a :: 0 <= a < |v.senders| && OnWay(v.senders[a])
  }

  /** What holds of sender a at g. */
  ghost predicate SenderVal(n: nat, v: Vm, a: nat, g: Sender) {
    && g.virq < n
    && (InCommon(g.pc) <==> v.evLock == BySender(a))
    && (g.pc == Check || g.pc == Fail || g.pc == Spin <==> v.sLock == Some(a))
    && (g.pc == Fail ==> v.state != WaitEvent)
    && (g.pc == Spin ==> v.state == WaitEvent)
    && (g.pc == Link ==> v.state == Waking && !v.listed)
    && (g.pc == IntTest || g.pc == IntLock ==> g.onHome && v.current && !IrqOff(v))
    && (Blocks(g) ==> !IrqOff(v))
    && (g.onHome && InCommon(g.pc) ==> !v.current)
  }

  ghost predicate SendersOk(n: nat, v: Vm) {
    forall a | 0 <= a < |v.senders| :: SenderVal(n, v, a, v.senders[a])
  }

  ghost predicate VcpuOk(n: nat, v: Vm) {
    && (v.evLock == ByVcpu <==> v.vpc.Locked? || v.vpc == Mark || v.vpc == Unlock)
    && (v.evLock.BySender? ==> v.evLock.a < |v.senders|)
    && (v.sLock.Some? ==> v.sLock.value < |v.senders|)
    && (v.state == WaitEvent && !v.cpuSet ==> !v.listed)
    && (v.vpc == Switch ==> !v.listed)
    && (IrqOff(v) ==> v.current)
    && (v.vpc == Off ==> !v.current)
    && (v.current && v.vpc != Switched ==> v.cpuSet)
    && (v.state == WaitEvent ==>
          && (v.vpc == Unlock || v.vpc == Window || v.vpc == Switch || v.vpc == Switched || v.vpc == Off)
          && (v.vpc == Window ==> v.current)
          && (v.vpc == Switched || v.vpc == Off ==> !v.cpuSet))
    && (v.vpc == Unlock || v.vpc == Switch ==> v.state == WaitEvent)
    && (v.current && v.vpc != Switched ==> v.state == Running || v.state == WaitEvent)
    && (forall i | i in v.pending :: i < n)
  }

  /** What the second scan has passed over was set by a sender that still has to call wake. */
  ghost predicate ScanOk(n: nat, v: Vm) {
    && (v.vpc.Locked? ==> (exists i :: i in v.pending && i < v.vpc.i) ==> HasEarly(v))
    && (v.vpc == Mark && v.pending != {} ==> HasEarly(v))
    && (v.state == WaitEvent && v.pending != {} ==> HasOnWay(v))
  }

  ghost predicate Inv(n: nat, v: Vm) {
    VcpuOk(n, v) && ScanOk(n, v) && SendersOk(n, v)
  }

  lemma SelfStep(n: nat, v: Vm, a: nat, g: Sender)
    requires VcpuOk(n, v) && SenderVal(n, v, a, g) && CanStep(v, g)
    ensures SenderVal(n, Effect(v, a, g), a, g.(pc := NextPc(v, g)))
  {
  }

  lemma OtherStep(n: nat, v: Vm, a: nat, g: Sender, b: nat, h: Sender)
    requires a != b && VcpuOk(n, v) && SenderVal(n, v, a, g) && SenderVal(n, v, b, h) && CanStep(v, g)
    ensures SenderVal(n, Effect(v, a, g), b, h)
  {
  }

  lemma SenderKeepsSenders(n: nat, v: Vm, a: nat)
    requires VcpuOk(n, v) && SendersOk(n, v) && Enabled(n, v, SenderStep(a))
    ensures SendersOk(n, DoSender(v, a))
  {
    var v' := DoSender(v, a);
    var g := v.senders[a];
    forall b | 0 <= b < |v'.senders| ensures SenderVal(n, v', b, v'.senders[b]) {
      if b == a {
        SelfStep(n, v, a, g);
      } else {
        OtherStep(n, v, a, g, b, v.senders[b]);
      }
    }
  }

  lemma SenderKeepsVcpu(n: nat, v: Vm, a: nat)
    requires VcpuOk(n, v) && Enabled(n, v, SenderStep(a)) && SenderVal(n, v, a, v.senders[a])
    ensures VcpuOk(n, DoSender(v, a))
  {
  }

  /** During the locked scan a sender can get no further than the event lock. */
  lemma SenderKeepsEarly(n: nat, v: Vm, a: nat)
    requires VcpuOk(n, v) && Enabled(n, v, SenderStep(a)) && (v.vpc.Locked? || v.vpc == Mark)
    requires HasEarly(v) || v.senders[a].pc == Post
    ensures HasEarly(DoSender(v, a))
  {
    var v' := DoSender(v, a);
    if v.senders[a].pc == Post {
      assert Early(v'.senders[a]);
    } else {
      var b :| 0 <= b < |v.senders| && Early(v.senders[b]);
      assert Early(v'.senders[b]);
    }
  }

  /** A sender stays on its way, sees the vcpu awake, or wakes it; it gives up only when the
      lock it found taken belongs to another sender that is on its way. */
  lemma SenderKeepsOnWay(n: nat, v: Vm, a: nat)
    requires VcpuOk(n, v) && SendersOk(n, v) && Enabled(n, v, SenderStep(a))
    requires v.state == WaitEvent && DoSender(v, a).state == WaitEvent
    requires HasOnWay(v) || v.senders[a].pc == Post
    ensures HasOnWay(DoSender(v, a))
  {
    var v' := DoSender(v, a);
    assert SenderVal(n, v, a, v.senders[a]);
    if v.senders[a].pc == Post {
      assert OnWay(v'.senders[a]);
    } else if v.senders[a].pc == IntLock {
      var h := v.sLock.value;
      assert SenderVal(n, v, h, v.senders[h]);
      assert OnWay(v'.senders[h]);
    } else {
      var b :| 0 <= b < |v.senders| && OnWay(v.senders[b]);
      assert OnWay(v'.senders[b]);
    }
  }

  lemma SenderStepKeeps(n: nat, v: Vm, a: nat)
    requires Inv(n, v) && Enabled(n, v, SenderStep(a))
    ensures Inv(n, DoSender(v, a))
  {
    var v' := DoSender(v, a);
    assert SenderVal(n, v, a, v.senders[a]);
    SenderKeepsVcpu(n, v, a);
    SenderKeepsSenders(n, v, a);
    if (v.vpc.Locked? || v.vpc == Mark) && (HasEarly(v) || v.senders[a].pc == Post) {
      SenderKeepsEarly(n, v, a);
    }
    if v'.state == WaitEvent && v'.pending != {} {
      SenderKeepsOnWay(n, v, a);
    }
  }

  lemma VcpuStepKeeps(n: nat, v: Vm)
    requires Inv(n, v) && Enabled(n, v, VcpuStep)
    ensures Inv(n, DoVcpu(n, v))
  {
    var v' := DoVcpu(n, v);
    assert HasEarly(v) == HasEarly(v') && HasOnWay(v) == HasOnWay(v');
    if v.vpc == Mark && HasEarly(v) {
      var b :| 0 <= b < |v.senders| && Early(v.senders[b]);
      assert OnWay(v'.senders[b]);
    }
    if v.vpc.Locked? && v.vpc.i >= 2 * n && v.pending != {} {
      var i :| i in v.pending;
      assert i < v.vpc.i;
    }
    forall a | 0 <= a < |v.senders| ensures SenderVal(n, v', a, v'.senders[a]) {
      assert SenderVal(n, v, a, v.senders[a]);
    }
  }

  lemma SendKeeps(n: nat, v: Vm, x: Step)
    requires Inv(n, v) && Enabled(n, v, x) && x.Send?
    ensures Inv(n, Apply(n, v, x))
  {
    var v' := Apply(n, v, x);
    forall a | 0 <= a < |v'.senders| ensures SenderVal(n, v', a, v'.senders[a]) {
      assert a < |v.senders| ==> SenderVal(n, v, a, v.senders[a]);
    }
    if HasEarly(v) {
      var b :| 0 <= b < |v.senders| && Early(v.senders[b]);
      assert Early(v'.senders[b]);
    }
    if HasOnWay(v) {
      var b :| 0 <= b < |v.senders| && OnWay(v.senders[b]);
      assert OnWay(v'.senders[b]);
    }
  }

  lemma OtherKeeps(n: nat, v: Vm, x: Step)
    requires Inv(n, v) && Enabled(n, v, x) && !x.Send? && !x.SenderStep? && !x.VcpuStep?
    ensures Inv(n, Apply(n, v, x))
  {
    var v' := Apply(n, v, x);
    forall a | 0 <= a < |v'.senders| ensures SenderVal(n, v', a, v'.senders[a]) {
      assert SenderVal(n, v, a, v.senders[a]);
    }
  }

  lemma StepKeeps(n: nat, v: Vm, x: Step)
    requires Inv(n, v) && Enabled(n, v, x)
    ensures Inv(n, Apply(n, v, x))
  {
    if x.Send? {
      SendKeeps(n, v, x);
    } else if x.SenderStep? {
      SenderStepKeeps(n, v, x.a);
    } else if x.VcpuStep? {
      VcpuStepKeeps(n, v);
    } else {
      OtherKeeps(n, v, x);
    }
  }

  // ---- safety

  ghost predicate Boot(v: Vm) {
    v == Vm(Ready, false, false, true, Guest, {}, {}, None, Free, [])
  }

  ghost predicate Next(n: nat, v: Vm, x: Step, v': Vm) {
    Enabled(n, v, x) && v' == Apply(n, v, x)
  }

  ghost predicate IsRun(n: nat, vs: seq<Vm>, xs: seq<Step>) {
    |vs| == |xs| + 1 && forall i | 0 <= i < |xs| :: Next(n, vs[i], xs[i], vs[i + 1])
  }

  ghost predicate Reachable(n: nat, v: Vm) {
    exists vs, xs :: IsRun(n, vs, xs) && Boot(vs[0]) && vs[|xs|] == v
  }

  lemma {:induction false} RunKeeps(n: nat, vs: seq<Vm>, xs: seq<Step>, i: nat)
    requires IsRun(n, vs, xs) && Inv(n, vs[0]) && i <= |xs|
    ensures Inv(n, vs[i])
  {
    if i > 0 {
      RunKeeps(n, vs, xs, i - 1);
      assert Next(n, vs[i - 1], xs[i - 1], vs[i]);
      StepKeeps(n, vs[i - 1], xs[i - 1]);
    }
  }

  lemma ReachableOk(n: nat, v: Vm)
    requires Reachable(n, v)
    ensures Inv(n, v)
  {
    var vs, xs :| IsRun(n, vs, xs) && Boot(vs[0]) && vs[|xs|] == v;
    RunKeeps(n, vs, xs, |xs|);
  }

  /** No lost wake-up: while the vcpu waits and an accepted virq is pending, some sender is
      still on its way to wake it. */
  lemma NoLostWakeup(n: nat, v: Vm)
    requires Reachable(n, v) && v.state == WaitEvent && v.pending != {}
    ensures exists a :: 0 <= a < |v.senders| && OnWay(v.senders[a])
  {
    ReachableOk(n, v);
  }

  // ---- progress

  /** A step of a sender that exists, or of the vcpu on its way out. */
  predicate Helps(x: Step) { x.SenderStep? || x.VcpuStep? }

  function Rank(p: SPc): nat {
    match p
    case Post => 9 case Kick => 8 case EvLock => 7 case SLock => 6 case Check => 5
    case Spin => 4 case Fail => 4 case Link => 3 case EvUnlock => 2
    case IntTest => 2 case IntLock => 1 case Done => 0
  }

  function VRank(p: VPc): nat {
    match p
    case Unlock => 4 case Window => 3 case Switch => 2 case Switched => 1 case _ => 0
  }

  function Ranks(gs: seq<Sender>): nat {
    if gs == [] then 0 else Rank(gs[0].pc) + Ranks(gs[1..])
  }

  function Measure(v: Vm): nat { Ranks(v.senders) + VRank(v.vpc) }

  lemma {:induction false} RanksUpdate(gs: seq<Sender>, a: nat, g: Sender)
    requires a < |gs|
    ensures Ranks(gs[a := g]) == Ranks(gs) - Rank(gs[a].pc) + Rank(g.pc)
  {
    if a == 0 {
      assert gs[a := g][1..] == gs[1..];
    } else {
      RanksUpdate(gs[1..], a - 1, g);
      assert gs[a := g][1..] == gs[1..][a - 1 := g];
    }
  }

  lemma HelpDecreases(n: nat, v: Vm, x: Step)
    requires VcpuOk(n, v) && Enabled(n, v, x) && Helps(x) && v.state == WaitEvent
    ensures Measure(Apply(n, v, x)) < Measure(v)
  {
    if x.SenderStep? {
      var g := v.senders[x.a];
      RanksUpdate(v.senders, x.a, g.(pc := NextPc(v, g)));
    }
  }

  /** The sender that holds the event lock can always go on once the vcpu is off its CPU. */
  lemma HolderGoesOn(n: nat, v: Vm)
    requires Inv(n, v) && v.vpc == Off && v.evLock.BySender? && v.state == WaitEvent
    ensures Enabled(n, v, SenderStep(v.evLock.a))
  {
    var a := v.evLock.a;
    assert SenderVal(n, v, a, v.senders[a]);
    if v.sLock.Some? {
      assert SenderVal(n, v, v.sLock.value, v.senders[v.sLock.value]);
    }
  }

  /** Somebody can always move: no deadlock between the event lock, the task lock, the spin
      on the cpu field and the interrupts of the vcpu's own CPU. */
  lemma HelpExists(n: nat, v: Vm) returns (x: Step)
    requires Inv(n, v) && v.state == WaitEvent && v.pending != {}
    ensures Helps(x) && Enabled(n, v, x)
  {
    if v.vpc != Off {
      if a :| 0 <= a < |v.senders| && Blocks(v.senders[a]) {
        assert SenderVal(n, v, a, v.senders[a]);
        x := SenderStep(a);
      } else {
        x := VcpuStep;
      }
    } else if v.evLock.BySender? {
      HolderGoesOn(n, v);
      x := SenderStep(v.evLock.a);
    } else {
      var a :| 0 <= a < |v.senders| && OnWay(v.senders[a]);
      assert SenderVal(n, v, a, v.senders[a]);
      if v.sLock.Some? {
        assert SenderVal(n, v, v.sLock.value, v.senders[v.sLock.value]);
      }
      x := SenderStep(a);
    }
  }

  /** Whatever order the enabled steps are taken in, only so many fit while the vcpu waits. */
  lemma {:induction false} WaitIsBounded(n: nat, vs: seq<Vm>, xs: seq<Step>, i: nat)
    requires IsRun(n, vs, xs) && Inv(n, vs[0]) && i <= |xs|
    requires forall j | 0 <= j < |xs| :: Helps(xs[j]) && vs[j].state == WaitEvent
    ensures Measure(vs[i]) + i <= Measure(vs[0])
  {
    if i > 0 {
      WaitIsBounded(n, vs, xs, i - 1);
      RunKeeps(n, vs, xs, i - 1);
      assert Next(n, vs[i - 1], xs[i - 1], vs[i]);
      HelpDecreases(n, vs[i - 1], xs[i - 1]);
    }
  }

  lemma LongerRun(n: nat, v: Vm, x: Step, vs: seq<Vm>, xs: seq<Step>)
    requires IsRun(n, vs, xs) && Next(n, v, x, vs[0])
    ensures IsRun(n, [v] + vs, [x] + xs)
  {
    var us, ys := [v] + vs, [x] + xs;
    forall i | 0 <= i < |ys| ensures Next(n, us[i], ys[i], us[i + 1]) {
      if i > 0 {
        assert Next(n, vs[i - 1], xs[i - 1], vs[i]);
      }
    }
  }

  lemma HelpStep(n: nat, v: Vm) returns (x: Step, v': Vm)
    requires Inv(n, v) && v.state == WaitEvent && v.pending != {}
    ensures Helps(x) && Next(n, v, x, v') && Inv(n, v') && Measure(v') < Measure(v)
    ensures v'.state == WaitEvent ==> v'.pending != {}
  {
    x := HelpExists(n, v);
    HelpDecreases(n, v, x);
    StepKeeps(n, v, x);
    v' := Apply(n, v, x);
  }

  /** A run of helping steps from v, no longer than its measure, after which the vcpu waits no more. */
  ghost predicate Wakes(n: nat, v: Vm, vs: seq<Vm>, xs: seq<Step>) {
    && IsRun(n, vs, xs) && vs[0] == v && vs[|xs|].state != WaitEvent
    && |xs| <= Measure(v) && forall i | 0 <= i < |xs| :: Helps(xs[i])
  }

  lemma WakesLater(n: nat, v: Vm, x: Step, v': Vm, vs: seq<Vm>, xs: seq<Step>)
    requires Helps(x) && Next(n, v, x, v') && Measure(v') < Measure(v) && Wakes(n, v', vs, xs)
    ensures Wakes(n, v, [v] + vs, [x] + xs)
  {
    LongerRun(n, v, x, vs, xs);
  }

  /** A waiting vcpu with a pending virq is woken without any further send. */
  lemma {:induction false} WokenUp(n: nat, v: Vm) returns (vs: seq<Vm>, xs: seq<Step>)
    requires Inv(n, v) && v.state == WaitEvent && v.pending != {}
    ensures Wakes(n, v, vs, xs)
    decreases Measure(v)
  {
    var x, v' := HelpStep(n, v);
    vs, xs := [v'], [];
    if v'.state == WaitEvent {
      vs, xs := WokenUp(n, v');
    }
    WakesLater(n, v, x, v', vs, xs);
    vs, xs := [v] + vs, [x] + xs;
  }
}
