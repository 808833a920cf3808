/** What holds of a whole pass of the timer interrupt: what it leaves behind, when it can go on, and
    how many steps it makes. */
module TimerTheorems {
  import opened Prelude
  import opened TimerPass

  // ---- runs

  ghost predicate Step1(s: State, x: Step, s': State, k: nat, now: nat) {
    Sized(s) && Enabled(s, x, k) && s' == Apply(s, x, k, now)
  }

  /** A run of a pass that begins with the timers s0. */
  ghost predicate IsRun(s0: Timers, ss: seq<State>, xs: seq<Step>, k: nat, now: nat) {
    |ss| == |xs| + 1 && Start(s0, ss[0], now) && forall i | 0 <= i < |xs| :: Step1(ss[i], xs[i], ss[i + 1], k, now)
  }

  lemma {:induction false} RunKeeps(s0: Timers, ss: seq<State>, xs: seq<Step>, k: nat, now: nat, i: nat)
    requires IsRun(s0, ss, xs, k, now) && i <= |xs|
    ensures Inv(s0, ss[i], now)
  {
    if i == 0 {
      StartOk(s0, ss[0], now);
    } else {
      RunKeeps(s0, ss, xs, k, now, i - 1);
      assert Step1(ss[i - 1], xs[i - 1], ss[i - 1 + 1], k, now);
      StepKeeps(s0, ss[i - 1], xs[i - 1], k, now);
    }
  }

  // ---- the result of a pass

  /** What a pass that began with s0 leaves behind. */
  ghost predicate PassResult(s0: Timers, s: State, now: nat) {
    && Good(s.ts, now) && Settled(s.ts, now) && |s.ts.expires| == |s0.expires| == |s0.stop|
    // a timer that was not raced fires at most once, only if it was due, and not when it was stopped
    // before its turn
    && OncePer(s.fired, s.raced)
    && (forall t | t in s.fired && t !in s.raced :: t in s0.active && t < |s0.expires| && IsDue(s0, t, now) && t !in s.skipped)
    // a timer whose last change was to be armed is on the list for that time
    && (forall t | t in s.armed :: t in s.ts.active && t < |s.ts.expires| && s.ts.expires[t] == s.armed[t] > now + MARGIN)
    // a timer left alone fires if it was due and not being stopped, and is kept if it was not due
    && (forall t | t in s0.active && t < |s0.expires| && t !in s.touched ::
          if IsDue(s0, t, now) then t !in s.ts.active && (t in s.fired <==> !s0.stop[t])
          else t in s.ts.active && s.ts.expires[t] == s0.expires[t])
    // and no other timer appears
    && (forall t: Tid | t !in s0.active && t !in s.touched :: t !in s.ts.active) && s.raced <= s.touched
  }

  lemma DoneResult(s0: Timers, s: State, now: nat)
    requires Inv(s0, s, now) && s.pc == Done
    ensures PassResult(s0, s, now)
  {
    forall t: Tid | t !in s.touched ensures Untouched(s0, s.ts, t, None, s.handled, s.fired) {
    }
  }

  /** Every pass that comes to its end has that result. */
  lemma PassEnds(s0: Timers, ss: seq<State>, xs: seq<Step>, k: nat, now: nat)
    requires IsRun(s0, ss, xs, k, now) && ss[|xs|].pc == Done
    ensures PassResult(s0, ss[|xs|], now)
  {
    RunKeeps(s0, ss, xs, k, now, |xs|);
    DoneResult(s0, ss[|xs|], now);
  }

  // ---- armed and stopped timers along a run

  /** The step links timer u. */
  ghost predicate Links(s: State, x: Step, u: Tid) {
    x.Go? && s.pc.Handler? && s.pc.at == Link(u)
  }

  /** The step takes timer u off the lists for stop_timer. */
  ghost predicate Stops(s: State, x: Step, u: Tid) {
    || (x.Go? && s.pc.Handler? && s.pc.at == Spin(u))
    || (x.OtherStep? && x.b in s.others && s.others[x.b].locked && s.others[x.b].t == u)
  }

  ghost predicate ArmedFor(s: State, u: Tid, e: nat) {
    u in s.armed && s.armed[u] == e
  }

  lemma LinkStep(s: State, x: Step, s': State, k: nat, now: nat, u: Tid)
    requires Step1(s, x, s', k, now) && Links(s, x, u) && !s.late
    ensures u < |s.ts.expires| && ArmedFor(s', u, s.ts.expires[u])
  {
  }

  lemma ArmedStep(s: State, x: Step, s': State, k: nat, now: nat, u: Tid, e: nat)
    requires Step1(s, x, s', k, now) && !Stops(s, x, u) && !Links(s, x, u)
    ensures ArmedFor(s, u, e) ==> ArmedFor(s', u, e)
  {
  }

  lemma {:induction false} ArmedChain(ss: seq<State>, i: nat, j: nat, u: Tid, e: nat)
    requires i <= j < |ss| && ArmedFor(ss[i], u, e)
    requires forall m | i <= m < j :: ArmedFor(ss[m], u, e) ==> ArmedFor(ss[m + 1], u, e)
    ensures ArmedFor(ss[j], u, e)
    decreases j
  {
    if i < j {
      ArmedChain(ss, i, j - 1, u, e);
      assert ArmedFor(ss[j - 1], u, e) ==> ArmedFor(ss[j - 1 + 1], u, e);
    }
  }

  lemma ArmedAlong(s0: Timers, ss: seq<State>, xs: seq<Step>, k: nat, now: nat, i: nat, j: nat, u: Tid)
    requires IsRun(s0, ss, xs, k, now) && i < j <= |xs| && Links(ss[i], xs[i], u) && !ss[i].late
    requires forall m | i < m < j :: !Links(ss[m], xs[m], u) && !Stops(ss[m], xs[m], u)
    ensures u < |ss[i].ts.expires| && ArmedFor(ss[j], u, ss[i].ts.expires[u])
  {
    assert Step1(ss[i], xs[i], ss[i + 1], k, now);
    LinkStep(ss[i], xs[i], ss[i + 1], k, now, u);
    var e := ss[i].ts.expires[u];
    forall m | i + 1 <= m < j ensures ArmedFor(ss[m], u, e) ==> ArmedFor(ss[m + 1], u, e) {
      assert Step1(ss[m], xs[m], ss[m + 1], k, now);
      ArmedStep(ss[m], xs[m], ss[m + 1], k, now, u, e);
    }
    ArmedChain(ss, i + 1, j, u, e);
  }

  /** A timer that a handler arms during the pass without being raced, and that nothing stops or arms
      afterwards, is on the active list with that expiry when the pass is over. */
  lemma ArmedIsKept(s0: Timers, ss: seq<State>, xs: seq<Step>, k: nat, now: nat, i: nat, u: Tid)
    requires IsRun(s0, ss, xs, k, now) && ss[|xs|].pc == Done
    requires i < |xs| && Links(ss[i], xs[i], u) && !ss[i].late
    requires forall m | i < m < |xs| :: !Links(ss[m], xs[m], u) && !Stops(ss[m], xs[m], u)
    ensures
      var s := ss[|xs|];
      && u < |s.ts.expires| == |ss[i].ts.expires| && u in s.ts.active && s.ts.expires[u] == ss[i].ts.expires[u]
      && !IsDue(s.ts, u, now)
  {
    ArmedAlong(s0, ss, xs, k, now, i, |xs|, u);
    RunKeeps(s0, ss, xs, k, now, i);
    PassEnds(s0, ss, xs, k, now);
  }

  lemma {:induction false} SkippedAlong(s0: Timers, ss: seq<State>, xs: seq<Step>, k: nat, now: nat, i: nat, j: nat, u: Tid)
    requires IsRun(s0, ss, xs, k, now) && i < j <= |xs| && Stops(ss[i], xs[i], u) && u !in ss[i].handled
    ensures u in ss[j].skipped
    decreases j
  {
    assert Step1(ss[j - 1], xs[j - 1], ss[j - 1 + 1], k, now);
    if j > i + 1 {
      SkippedAlong(s0, ss, xs, k, now, i, j - 1, u);
    }
  }

  /** A timer that is stopped before its turn, and never raced, does not fire in this pass. */
  lemma StoppedIsSilent(s0: Timers, ss: seq<State>, xs: seq<Step>, k: nat, now: nat, i: nat, u: Tid)
    requires IsRun(s0, ss, xs, k, now) && i < |xs| && Stops(ss[i], xs[i], u) && u !in ss[i].handled
    requires u !in ss[|xs|].raced
    ensures u !in ss[|xs|].fired
  {
    SkippedAlong(s0, ss, xs, k, now, i, |xs|, u);
    RunKeeps(s0, ss, xs, k, now, |xs|);
  }

  // ---- when arming goes wrong

  /** A race leaves the timer to be linked with expiry 0: it is due at once, although it was armed
      ahead or stopped. */
  lemma RaceMakesDue(s: State, x: Step, k: nat, now: nat, u: Tid)
    requires Sized(s) && Locks(s) && Enabled(s, x, k) && Race(s, x, u) && NoDup(s.ts.active)
    ensures
      var s1 := Apply(s, x, k, now);
      && s1.pc == s.pc && CanGo(s1) && |s1.ts.expires| == |s.ts.expires|
      && var s2 := DoHandler(s1, s1.pc.at, s1.pc.rest, now);
         u in s2.ts.active && u < |s2.ts.expires| && IsDue(s2.ts, u, now)
  {
  }

  lemma RacedMore(s: State, x: Step, s': State, k: nat, now: nat, u: Tid)
    requires Step1(s, x, s', k, now)
    ensures u in s'.raced <==> u in s.raced || Race(s, x, u)
  {
  }

  ghost predicate WasRaced(ss: seq<State>, xs: seq<Step>, i: nat, u: Tid) {
    i <= |xs| < |ss| && exists j | 0 <= j < i :: Race(ss[j], xs[j], u)
  }

  lemma WasRacedMore(ss: seq<State>, xs: seq<Step>, i: nat, u: Tid)
    requires i < |xs| < |ss|
    ensures WasRaced(ss, xs, i + 1, u) <==> WasRaced(ss, xs, i, u) || Race(ss[i], xs[i], u)
  {
  }

  /** The timers on record as raced are those for which there was a race. */
  lemma {:induction false} RacedIs(s0: Timers, ss: seq<State>, xs: seq<Step>, k: nat, now: nat, i: nat, u: Tid)
    requires IsRun(s0, ss, xs, k, now) && i <= |xs|
    ensures u in ss[i].raced <==> WasRaced(ss, xs, i, u)
  {
    if i > 0 {
      RacedIs(s0, ss, xs, k, now, i - 1, u);
      RacedMore(ss[i - 1], xs[i - 1], ss[i - 1 + 1], k, now, u);
      WasRacedMore(ss, xs, i - 1, u);
    }
  }

  /** The step stores an expiry for timer u. */
  ghost predicate Stores(s: State, x: Step, u: Tid) {
    x.Go? && s.pc.Handler? && s.pc.at == Next && s.pc.rest != [] && s.pc.rest[0].Mod? && s.pc.rest[0].u == u
  }

  /** In every state of every run: the timer that is being armed is due exactly when it was raced since
      the store of its expiry, and then linking it puts it on the list as due. */
  lemma DueIffRaced(s0: Timers, ss: seq<State>, xs: seq<Step>, k: nat, now: nat, i: nat, u: Tid)
    requires IsRun(s0, ss, xs, k, now) && i <= |xs| && Pending(ss[i].pc) == Some(u)
    ensures u < |ss[i].ts.expires| && (IsDue(ss[i].ts, u, now) <==> RacedSince(ss, xs, i, u))
  {
    RunKeeps(s0, ss, xs, k, now, i);
    LateIff(s0, ss, xs, k, now, i, u);
  }

  /** There was a race for u, and no store for it afterwards. */
  ghost predicate RacedSince(ss: seq<State>, xs: seq<Step>, i: nat, u: Tid)
    requires |ss| == |xs| + 1 && i <= |xs|
  {
    exists j | 0 <= j < i :: Race(ss[j], xs[j], u) && forall m | j < m < i :: !Stores(ss[m], xs[m], u)
  }

  lemma LateStep(s: State, x: Step, s': State, k: nat, now: nat, u: Tid)
    requires Step1(s, x, s', k, now) && Pending(s'.pc) == Some(u)
    ensures Pending(s.pc) == Some(u) || Stores(s, x, u)
    ensures s'.late <==> Race(s, x, u) || (s.late && !Stores(s, x, u))
  {
  }

  /** What one more step does to it. */
  lemma RacedStep(ss: seq<State>, xs: seq<Step>, i: nat, u: Tid)
    requires |ss| == |xs| + 1 && i < |xs| && !(Race(ss[i], xs[i], u) && Stores(ss[i], xs[i], u))
    ensures RacedSince(ss, xs, i + 1, u) <==> Race(ss[i], xs[i], u) || (RacedSince(ss, xs, i, u) && !Stores(ss[i], xs[i], u))
  {
    if RacedSince(ss, xs, i, u) && !Stores(ss[i], xs[i], u) {
      var j :| 0 <= j < i && Race(ss[j], xs[j], u) && forall m | j < m < i :: !Stores(ss[m], xs[m], u);
      assert forall m | j < m < i + 1 :: !Stores(ss[m], xs[m], u);
    }
    if RacedSince(ss, xs, i + 1, u) && !Race(ss[i], xs[i], u) {
      var j :| 0 <= j < i + 1 && Race(ss[j], xs[j], u) && forall m | j < m < i + 1 :: !Stores(ss[m], xs[m], u);
      assert j < i;
    }
  }

  lemma {:induction false} LateIff(s0: Timers, ss: seq<State>, xs: seq<Step>, k: nat, now: nat, i: nat, u: Tid)
    requires IsRun(s0, ss, xs, k, now) && i <= |xs| && Pending(ss[i].pc) == Some(u)
    ensures ss[i].late <==> RacedSince(ss, xs, i, u)
  {
    if i > 0 {
      assert Step1(ss[i - 1], xs[i - 1], ss[i - 1 + 1], k, now);
      LateStep(ss[i - 1], xs[i - 1], ss[i], k, now, u);
      RacedStep(ss, xs, i - 1, u);
      if Pending(ss[i - 1].pc) == Some(u) {
        LateIff(s0, ss, xs, k, now, i - 1, u);
      }
    }
  }

  // ---- when a pass can go on

  /** The handler is at the spin of stop_timer for its own timer. */
  ghost predicate StopsItself(s: State) {
    s.pc.Handler? && s.pc.at.Spin? && s.running == Some(s.pc.at.u)
  }

  /** The handler needs the lock, and another CPU holds it at the spin of stop_timer for the timer
      whose handler runs. */
  ghost predicate StoppedFromOutside(s: State) {
    && s.pc.Handler? && (s.pc.at.Link? || s.pc.at.Lock?)
    && s.lock.ByOther? && s.lock.b in s.others && s.running == Some(s.others[s.lock.b].t)
  }

  ghost predicate Stuck(s: State) {
    StopsItself(s) || StoppedFromOutside(s)
  }

  lemma {:induction false} WithoutIn(l: seq<nat>, t: nat)
    ensures forall u | u in Without(l, t) :: u in l
  {
    if l != [] && l[0] != t {
      WithoutIn(l[1..], t);
    }
  }

  /** Places, locks and list entries, which every step keeps, races or not. */
  ghost predicate Basic(s: State) {
    Sized(s) && Locks(s) && forall i | 0 <= i < |s.ts.later| :: s.ts.later[i] < |s.ts.expires|
  }

  lemma InList(l: seq<Tid>, r: seq<Tid>, n: nat)
    requires (forall i | 0 <= i < |l| :: l[i] < n) && forall u | u in r :: u in l
    ensures forall i | 0 <= i < |r| :: r[i] < n
  {
    forall i | 0 <= i < |r| ensures r[i] < n {
      assert r[i] in r;
    }
  }

  lemma StopBasic(s: State, u: Tid)
    requires Basic(s) && u < |s.ts.expires|
    ensures
      var r := Detached(s.ts, u);
      && (forall i | 0 <= i < |r.active| :: r.active[i] < |r.expires|)
      && (forall i | 0 <= i < |r.later| :: r.later[i] < |r.expires|)
  {
    WithoutIn(s.ts.active, u);
    WithoutIn(s.ts.later, u);
    InList(s.ts.active, Without(s.ts.active, u), |s.ts.expires|);
    InList(s.ts.later, Without(s.ts.later, u), |s.ts.expires|);
  }

  lemma HandlerLists(s: State, now: nat)
    requires Basic(s) && s.pc.Handler?
    ensures
      var r := DoHandler(s, s.pc.at, s.pc.rest, now);
      && Shaped(r.ts) && |r.ts.expires| == |s.ts.expires|
      && (forall i | 0 <= i < |r.ts.active| :: r.ts.active[i] < |r.ts.expires|)
      && (forall i | 0 <= i < |r.ts.later| :: r.ts.later[i] < |r.ts.expires|)
  {
    if !s.pc.at.Next? {
      StopBasic(s, s.pc.at.u);
      assert Linked(s.ts, s.pc.at.u).active == Detached(s.ts, s.pc.at.u).active + [s.pc.at.u];
    }
  }

  lemma HandlerBasic(s: State, now: nat)
    requires Basic(s) && s.pc.Handler? && CanGo(s)
    ensures Basic(DoHandler(s, s.pc.at, s.pc.rest, now))
  {
    GoLocks(s, [], now);
    HandlerLists(s, now);
  }

  lemma OtherBasic(s: State, x: Step, k: nat, now: nat)
    requires Basic(s) && Enabled(s, x, k) && !x.Go?
    ensures Basic(Apply(s, x, k, now))
  {
    if x.OtherStep? && s.others[x.b].locked {
      StopBasic(s, s.others[x.b].t);
    }
  }

  lemma PlainBasic(s: State, calls: seq<Call>, now: nat)
    requires Basic(s) && !s.pc.Handler? && CanGo(s) && InRange(calls, |s.ts.expires|)
    ensures Basic(DoGo(s, calls, now))
  {
    GoLocks(s, calls, now);
  }

  lemma BasicKeeps(s: State, x: Step, k: nat, now: nat)
    requires Basic(s) && Enabled(s, x, k)
    ensures Basic(Apply(s, x, k, now))
  {
    if !x.Go? {
      OtherBasic(s, x, k, now);
    } else if s.pc.Handler? {
      HandlerBasic(s, now);
    } else {
      PlainBasic(s, x.calls, now);
    }
  }

  lemma {:induction false} RunBasic(s0: Timers, ss: seq<State>, xs: seq<Step>, k: nat, now: nat, i: nat)
    requires IsRun(s0, ss, xs, k, now) && i <= |xs|
    ensures Basic(ss[i])
  {
    if i == 0 {
      StartOk(s0, ss[0], now);
    } else {
      RunBasic(s0, ss, xs, k, now, i - 1);
      assert Step1(ss[i - 1], xs[i - 1], ss[i - 1 + 1], k, now);
      BasicKeeps(ss[i - 1], xs[i - 1], k, now);
    }
  }

  /** A stuck pass stays so for ever: whatever anybody does, it makes no step. */
  lemma StuckStays(s: State, x: Step, k: nat, now: nat)
    requires Basic(s) && Stuck(s) && Enabled(s, x, k)
    ensures !x.Go? && Stuck(Apply(s, x, k, now))
  {
  }

  /** The pass can make its next step, at the latest when the CPU that holds the lock has made one. */
  ghost predicate GoesOn(s: State, k: nat, now: nat)
    requires Sized(s)
  {
    || CanGo(s)
    || (s.lock.ByOther? && Enabled(s, OtherStep(s.lock.b), k) && CanGo(Apply(s, OtherStep(s.lock.b), k, now)))
  }

  /** The pass goes on exactly when it is neither over nor stuck. */
  lemma GoesOnIff(s: State, k: nat, now: nat)
    requires Basic(s)
    ensures GoesOn(s, k, now) <==> s.pc != Done && !Stuck(s)
  {
  }

  /** In every state of every run. */
  lemma PassGoesOn(s0: Timers, ss: seq<State>, xs: seq<Step>, k: nat, now: nat, i: nat)
    requires IsRun(s0, ss, xs, k, now) && i <= |xs|
    ensures Sized(ss[i]) && (GoesOn(ss[i], k, now) <==> ss[i].pc != Done && !Stuck(ss[i]))
  {
    RunBasic(s0, ss, xs, k, now, i);
    GoesOnIff(ss[i], k, now);
  }

  // ---- when a pass gets stuck

  ghost predicate SparesItself(t: Tid, calls: seq<Call>) {
    forall i | 0 <= i < |calls| :: calls[i] != Stop(t)
  }

  /** No handler calls stop_timer for its own timer. */
  ghost predicate NoSelfStop(ss: seq<State>, xs: seq<Step>) {
    && |ss| == |xs| + 1
    && forall i | 0 <= i < |xs| && ss[i].pc == Check && xs[i].Go? && ss[i].running.Some? :: SparesItself(ss[i].running.value, xs[i].calls)
  }

  /** What is left of the handler spares its timer. */
  ghost predicate Spares(s: State) {
    s.pc.Handler? && s.running.Some? ==>
      SparesItself(s.running.value, s.pc.rest) && s.pc.at != Lock(s.running.value) && s.pc.at != Spin(s.running.value)
  }

  lemma SparesKeeps(s: State, x: Step, k: nat, now: nat)
    requires Basic(s) && Spares(s) && Enabled(s, x, k)
    requires s.pc == Check && x.Go? ==> SparesItself(s.running.value, x.calls)
    ensures Spares(Apply(s, x, k, now))
  {
  }

  lemma SparesNext(s: State, x: Step, s': State, k: nat, now: nat)
    requires Basic(s) && Step1(s, x, s', k, now)
    requires s.pc == Check && x.Go? && s.running.Some? ==> SparesItself(s.running.value, x.calls)
    ensures Spares(s) ==> Spares(s')
  {
    if Spares(s) {
      SparesKeeps(s, x, k, now);
    }
  }

  lemma {:induction false} RunSpares(s0: Timers, ss: seq<State>, xs: seq<Step>, k: nat, now: nat, i: nat)
    requires IsRun(s0, ss, xs, k, now) && NoSelfStop(ss, xs) && i <= |xs|
    ensures Spares(ss[i])
  {
    if i > 0 {
      RunSpares(s0, ss, xs, k, now, i - 1);
      RunBasic(s0, ss, xs, k, now, i - 1);
      SparesNext(ss[i - 1], xs[i - 1], ss[i - 1 + 1], k, now);
    }
  }

  /** When no handler stops its own timer, a pass is stuck exactly when another CPU is stopping the
      running timer at the moment its handler needs the lock. */
  lemma StuckIff(s0: Timers, ss: seq<State>, xs: seq<Step>, k: nat, now: nat, i: nat)
    requires IsRun(s0, ss, xs, k, now) && NoSelfStop(ss, xs) && i <= |xs|
    ensures Stuck(ss[i]) <==> StoppedFromOutside(ss[i])
  {
    RunSpares(s0, ss, xs, k, now, i);
  }

  /** A handler that comes to stop its own timer gets stuck. */
  lemma SelfStopSticks(s: State, k: nat, now: nat)
    requires Basic(s) && s.pc.Handler? && s.pc.at == Next && s.pc.rest != [] && s.running == Some(s.pc.rest[0].u)
    requires s.pc.rest[0].Stop? && s.ts.mine[s.pc.rest[0].u] && s.lock == Free
    ensures
      var s1 := DoGo(s, [], now);
      Basic(s1) && CanGo(s1) && Stuck(DoGo(s1, [], now))
  {
    BasicKeeps(s, Go([]), k, now);
  }

  /** A handler that arms or stops any timer gets stuck when another CPU takes the lock first to stop
      the running timer. */
  lemma OutsideStopSticks(s: State, b: nat, k: nat, now: nat)
    requires Basic(s) && s.pc.Handler? && s.pc.at == Next && s.pc.rest != [] && s.lock == Free
    requires b in s.others && s.running == Some(s.others[b].t) && (s.pc.rest[0].Stop? ==> s.ts.mine[s.pc.rest[0].u])
    ensures
      && Enabled(s, OtherStep(b), k)
      && var s1 := Apply(s, OtherStep(b), k, now);
         Basic(s1) && CanGo(s1) && Stuck(DoGo(s1, [], now))
  {
    BasicKeeps(s, OtherStep(b), k, now);
  }

  // ---- the number of steps of a pass

  /** The steps the handler has left at most. */
  function Left(at: At, rest: seq<Call>): nat {
    3 * |rest| + match at case Next => 0 case Link(_) => 1 case Lock(_) => 2 case Spin(_) => 1
  }

  function Stage(s: State, k: nat): nat {
    var n := |s.ts.expires|;
    match s.pc
    case Done => 0
    case Loop => 1 + |s.ts.active|
    case Relock => n + 2
    case Leave => n + 3
    case Handler(at, rest) => n + 4 + Left(at, rest)
    case Check => n + 5 + 3 * k
  }

  function Weight(d: nat, w: nat): nat {
    d * w
  }

  /** The due timers, with the one that is being armed if it was raced. */
  function Owed(s: State, now: nat): nat {
    Dues(s.ts, now) + if Pending(s.pc).Some? && s.late then 1 else 0
  }

  /** The steps that one due timer costs at most. */
  function Cost(ts: Timers, k: nat): nat {
    |ts.expires| + 5 + 3 * k
  }

  /** How many steps the pass has left at most, when handlers make at most k calls. */
  function Measure(s: State, k: nat, now: nat): nat {
    Weight(Owed(s, now), Cost(s.ts, k)) + Stage(s, k)
  }

  lemma WeightMono(c: nat, d: nat, w: nat)
    ensures c <= d ==> Weight(c, w) <= Weight(d, w)
    ensures c < d ==> Weight(c, w) + w <= Weight(d, w)
  {
    MulMono(c, d, w);
    if c < d {
      MulMono(c + 1, d, w);
      assert (c + 1) * w == c * w + w;
    }
  }

  lemma {:induction false} FewEntries(l: seq<nat>, n: nat)
    requires NoDup(l) && forall i | 0 <= i < |l| :: l[i] < n
    ensures |l| <= n
    decreases n
  {
    if n > 0 {
      var r := Without(l, n - 1);
      WithoutIs(l, n - 1);
      WithoutLength(l, n - 1);
      forall i | 0 <= i < |r| ensures r[i] < n - 1 {
        assert r[i] in r;
      }
      FewEntries(r, n - 1);
    }
  }

  lemma {:induction false} WithoutLength(l: seq<nat>, t: nat)
    ensures |l| <= |Without(l, t)| + 1
  {
    if l != [] && l[0] != t {
      WithoutLength(l[1..], t);
    }
  }

  lemma SwapDues(ts: Timers, now: nat)
    requires Good(ts, now)
    ensures Dues(Swapped(ts), now) == 0
  {
    forall i | 0 <= i < |ts.later| ensures ts.later[i] < |ts.expires| && ts.expires[ts.later[i]] > now + MARGIN {
      assert ts.later[i] in ts.later;
    }
    NoneDue(ts.later, ts.expires, now + MARGIN);
  }

  lemma LoopDues(s: State, now: nat)
    requires Sized(s) && Good(s.ts, now) && s.pc == Loop
    ensures
      var r := DoLoop(s, now);
      if s.ts.active != [] && IsDue(s.ts, s.ts.active[0], now) then Owed(r, now) + 1 == Owed(s, now) else Owed(r, now) <= Owed(s, now)
  {
    if s.ts.active == [] {
      SwapDues(s.ts, now);
    } else {
      FirstOff(s.ts, now);
    }
  }

  lemma LoopDescends(s: State, k: nat, now: nat)
    requires Sized(s) && Good(s.ts, now) && s.pc == Loop
    ensures Measure(DoLoop(s, now), k, now) < Measure(s, k, now)
  {
    LoopDues(s, now);
    WeightMono(Owed(DoLoop(s, now), now), Owed(s, now), Cost(s.ts, k));
  }

  lemma {:induction false} NoneDue(l: seq<Tid>, expires: seq<nat>, limit: nat)
    requires forall i | 0 <= i < |l| :: l[i] < |expires| && expires[l[i]] > limit
    ensures DueCount(l, expires, limit) == 0
  {
    if l != [] {
      NoneDue(l[1..], expires, limit);
    }
  }

  lemma HandlerDues(s0: Timers, s: State, now: nat)
    requires Inv(s0, s, now) && s.pc.Handler? && CanGo(s)
    ensures
      var r := DoHandler(s, s.pc.at, s.pc.rest, now);
      Owed(r, now) <= Owed(s, now) && |r.ts.expires| == |s.ts.expires|
  {
    match s.pc.at
    case Next =>
      if s.pc.rest != [] && s.pc.rest[0].Mod? {
        var c := s.pc.rest[0];
        ExpiringKeeps(s.ts, c.u, Max(c.cval, now + c.after + PRECISION), now);
      }
    case Link(u) => LinkedKeeps(s.ts, u, now);
    case Lock(_) =>
    case Spin(u) => DetachedKeeps(s.ts, u, now);
  }

  lemma HandlerStage(s: State, k: nat, now: nat)
    requires Sized(s) && s.pc.Handler?
    ensures
      var r := DoHandler(s, s.pc.at, s.pc.rest, now);
      |r.ts.expires| == |s.ts.expires| && Stage(r, k) < Stage(s, k)
  {
  }

  lemma HandlerDescends(s0: Timers, s: State, k: nat, now: nat)
    requires Inv(s0, s, now) && s.pc.Handler? && CanGo(s)
    ensures Measure(DoHandler(s, s.pc.at, s.pc.rest, now), k, now) < Measure(s, k, now)
  {
    HandlerDues(s0, s, now);
    HandlerStage(s, k, now);
    WeightMono(Owed(DoHandler(s, s.pc.at, s.pc.rest, now), now), Owed(s, now), Cost(s.ts, k));
  }

  /** Every step of the pass or its handler lowers the measure. */
  lemma GoDescends(s0: Timers, s: State, calls: seq<Call>, k: nat, now: nat)
    requires Inv(s0, s, now) && CanGo(s) && |calls| <= k
    ensures Measure(DoGo(s, calls, now), k, now) < Measure(s, k, now)
  {
    match s.pc
    case Loop => LoopDescends(s, k, now);
    case Handler(at, rest) => HandlerDescends(s0, s, k, now);
    case Relock => FewEntries(s.ts.active, |s.ts.expires|);
    case _ =>
  }

  /** And a step of another CPU raises it only by a race, by the cost of one timer. */
  lemma OthersDescend(s0: Timers, s: State, x: Step, k: nat, now: nat)
    requires Inv(s0, s, now) && Enabled(s, x, k) && !x.Go?
    ensures
      var r, w := Apply(s, x, k, now), Cost(s.ts, k);
      r.races >= s.races && |r.ts.expires| == |s.ts.expires| && Measure(r, k, now) + Weight(s.races, w) <= Measure(s, k, now) + Weight(r.races, w)
  {
    var r, w := Apply(s, x, k, now), Cost(s.ts, k);
    if x.OtherStep? && s.others[x.b].locked {
      DetachedKeeps(s.ts, s.others[x.b].t, now);
      WeightMono(Owed(r, now), Owed(s, now) + (r.races - s.races), w);
      WeightAdds(Owed(s, now), r.races - s.races, w);
      WeightAdds(s.races, r.races - s.races, w);
    }
  }

  lemma WeightAdds(c: nat, d: nat, w: nat)
    ensures Weight(c + d, w) == Weight(c, w) + Weight(d, w)
  {
  }

  /** The steps of the pass and its handlers among the first j. */
  function Goes(xs: seq<Step>, j: nat): nat
    requires j <= |xs|
  {
    if j == 0 then 0 else Goes(xs, j - 1) + if xs[j - 1].Go? then 1 else 0
  }

  lemma BoundStep(s0: Timers, s: State, x: Step, s': State, k: nat, now: nat)
    requires Inv(s0, s, now) && Step1(s, x, s', k, now)
    ensures
      var w := Cost(s0, k);
      (if x.Go? then 1 else 0) + Measure(s', k, now) + Weight(s.races, w) <= Measure(s, k, now) + Weight(s'.races, w)
  {
    if x.Go? {
      GoDescends(s0, s, x.calls, k, now);
    } else {
      OthersDescend(s0, s, x, k, now);
    }
  }

  /** Over every run, whatever other CPUs do, the pass and its handlers make a bounded number of
      steps, to which each race adds the cost of one timer: as long as it is not stuck and not raced for
      ever, a pass ends. */
  lemma {:induction false} PassIsBounded(s0: Timers, ss: seq<State>, xs: seq<Step>, k: nat, now: nat, j: nat)
    requires IsRun(s0, ss, xs, k, now) && j <= |xs|
    ensures Goes(xs, j) + Measure(ss[j], k, now) <= Measure(ss[0], k, now) + Weight(ss[j].races, Cost(s0, k))
    decreases j
  {
    if j > 0 {
      PassIsBounded(s0, ss, xs, k, now, j - 1);
      RunKeeps(s0, ss, xs, k, now, j - 1);
      BoundStep(s0, ss[j - 1], xs[j - 1], ss[j - 1 + 1], k, now);
    }
  }

  lemma AloneStep(s0: Timers, s: State, k: nat, now: nat)
    requires Inv(s0, s, now) && Spares(s) && !s.lock.ByOther? && s.pc != Done
    ensures
      && Enabled(s, Go([]), k)
      && var s1 := Apply(s, Go([]), k, now);
         Inv(s0, s1, now) && Spares(s1) && !s1.lock.ByOther? && Measure(s1, k, now) < Measure(s, k, now)
  {
    StepKeeps(s0, s, Go([]), k, now);
    assert forall i | 0 <= i < |s.ts.later| :: s.ts.later[i] in s.ts.later;
    SparesKeeps(s, Go([]), k, now);
    GoDescends(s0, s, [], k, now);
  }

  /** A pass that other CPUs leave alone comes to its end. */
  lemma {:induction false} AloneEnds(s0: Timers, s: State, k: nat, now: nat) returns (ss: seq<State>, xs: seq<Step>)
    requires Inv(s0, s, now) && Spares(s) && !s.lock.ByOther?
    ensures |ss| == |xs| + 1 && ss[0] == s && ss[|xs|].pc == Done
    ensures forall i | 0 <= i < |xs| :: xs[i] == Go([]) && Step1(ss[i], xs[i], ss[i + 1], k, now)
    decreases Measure(s, k, now)
  {
    if s.pc == Done {
      ss, xs := [s], [];
    } else {
      AloneStep(s0, s, k, now);
      var rs, ys := AloneEnds(s0, Apply(s, Go([]), k, now), k, now);
      ss, xs := [s] + rs, [Go([])] + ys;
    }
  }

  /** When no handler stops its own timer, every state of every run in which no other CPU holds the
      lock can be continued, by the pass alone, to the end of the pass. */
  lemma PassCanEnd(s0: Timers, ss: seq<State>, xs: seq<Step>, k: nat, now: nat, i: nat) returns (rs: seq<State>, ys: seq<Step>)
    requires IsRun(s0, ss, xs, k, now) && NoSelfStop(ss, xs) && i <= |xs| && !ss[i].lock.ByOther?
    ensures |rs| == |ys| + 1 && rs[0] == ss[i] && rs[|ys|].pc == Done
    ensures forall j | 0 <= j < |ys| :: ys[j] == Go([]) && Step1(rs[j], ys[j], rs[j + 1], k, now)
  {
    RunKeeps(s0, ss, xs, k, now, i);
    RunSpares(s0, ss, xs, k, now, i);
    rs, ys := AloneEnds(s0, ss[i], k, now);
  }

  // ---- two passes that get stuck, and one that fires what it should not

  /** A CPU with n timers of which the first is due at time 0. */
  function Some1(n: nat): Timers
    requires n > 0
  {
    Timers([0], [], seq(n, i => if i == 0 then 0 else PRECISION), seq(n, i => false), seq(n, i => true))
  }

  function Begin(ts: Timers): State {
    State(ts, None, ByPass, Loop, map[], {}, [], map[], {}, {}, {}, 0, false)
  }

  lemma BeginOk(n: nat)
    requires n > 0
    ensures Start(Some1(n), Begin(Some1(n)), 0)
  {
  }

  lemma Extend(s0: Timers, ss: seq<State>, xs: seq<Step>, k: nat, now: nat, x: Step, s: State)
    requires IsRun(s0, ss, xs, k, now) && Step1(ss[|xs|], x, s, k, now)
    ensures IsRun(s0, ss + [s], xs + [x], k, now)
  {
    var rs, ys := ss + [s], xs + [x];
    forall i | 0 <= i < |ys| ensures Step1(rs[i], ys[i], rs[i + 1], k, now) {
      if i < |xs| {
        assert Step1(ss[i], xs[i], ss[i + 1], k, now);
      }
    }
  }

  /** The first two steps: the timer is taken off and its handler begins. */
  function InHandler(ts: Timers, calls: seq<Call>): State {
    State(ts.(active := []), Some(0), Free, Handler(Next, calls), map[], {0}, [0], map[], {}, {}, {}, 0, false)
  }

  lemma HandlerBegins(n: nat, calls: seq<Call>) returns (ss: seq<State>, xs: seq<Step>)
    requires n > 0 && |calls| == 1 && calls[0].u < n
    ensures IsRun(Some1(n), ss, xs, 1, 0) && |xs| == 2 && ss[2] == InHandler(Some1(n), calls)
    ensures forall i | 0 <= i < 2 :: xs[i].Go? && !ss[i].pc.Handler?
    ensures ss[1].pc == Check && ss[1].running == Some(0) && xs[1].calls == calls && ss[0].pc == Loop
  {
    var s0, s2 := Begin(Some1(n)), InHandler(Some1(n), calls);
    var s1 := DoLoop(s0, 0);
    BeginOk(n);
    assert [0][1..] == [];
    assert [] + [0] == [0];
    assert {} + {0} == {0};
    assert Step1(s0, Go([]), s1, 1, 0) && Step1(s1, Go(calls), s2, 1, 0);
    ss, xs := [s0, s1, s2], [Go([]), Go(calls)];
  }

  /** A handler that stops its own timer: core/timer.c spins on running_timer for ever. */
  lemma SelfStopReachable() returns (ss: seq<State>, xs: seq<Step>)
    ensures IsRun(Some1(1), ss, xs, 1, 0) && Stuck(ss[|xs|])
  {
    ss, xs := HandlerBegins(1, [Stop(0)]);
    var s2 := ss[2];
    var s3 := DoGo(s2, [], 0);
    var s4 := DoGo(s3, [], 0);
    RunBasic(Some1(1), ss, xs, 1, 0, 2);
    SelfStopSticks(s2, 1, 0);
    Extend(Some1(1), ss, xs, 1, 0, Go([]), s3);
    Extend(Some1(1), ss + [s3], xs + [Go([])], 1, 0, Go([]), s4);
    ss, xs := ss + [s3] + [s4], xs + [Go([])] + [Go([])];
  }

  /** virt/vwdt.c: the handler re-arms its timer while another CPU has begun to stop it. */
  lemma RearmReachable() returns (ss: seq<State>, xs: seq<Step>)
    ensures IsRun(Some1(1), ss, xs, 1, 0) && NoSelfStop(ss, xs) && Stuck(ss[|xs|])
  {
    ss, xs := HandlerBegins(1, [Mod(0, 0, 0)]);
    var s2 := ss[2];
    var s3 := Apply(s2, StopCall(0, 0), 1, 0);
    RunBasic(Some1(1), ss, xs, 1, 0, 2);
    BasicKeeps(s2, StopCall(0, 0), 1, 0);
    OutsideStopSticks(s3, 0, 1, 0);
    var s4 := Apply(s3, OtherStep(0), 1, 0);
    var s5 := DoGo(s4, [], 0);
    Extend(Some1(1), ss, xs, 1, 0, StopCall(0, 0), s3);
    Extend(Some1(1), ss + [s3], xs + [StopCall(0, 0)], 1, 0, OtherStep(0), s4);
    Extend(Some1(1), ss + [s3] + [s4], xs + [StopCall(0, 0)] + [OtherStep(0)], 1, 0, Go([]), s5);
    ss, xs := ss + [s3] + [s4] + [s5], xs + [StopCall(0, 0)] + [OtherStep(0)] + [Go([])];
  }

  /** Timer 1 is being armed, and another CPU has the lock to stop it. */
  lemma RaceBegins() returns (ss: seq<State>, xs: seq<Step>)
    ensures IsRun(Some1(2), ss, xs, 1, 0) && |xs| == 5 && Sized(ss[5]) && Enabled(ss[5], OtherStep(0), 1) && Race(ss[5], OtherStep(0), 1)
    ensures ss[5].ts.active == [] && ss[5].pc == Handler(Link(1), []) && |ss[5].ts.expires| == 2 && ss[5].others == map[0 := Stopper(1, true)]
  {
    ss, xs := HandlerBegins(2, [Mod(1, 0, 0)]);
    var s2 := ss[2];
    RunBasic(Some1(2), ss, xs, 1, 0, 2);
    var s3 := DoGo(s2, [], 0);
    assert s3.pc == Handler(Link(1), []);
    Extend(Some1(2), ss, xs, 1, 0, Go([]), s3);
    var s4 := Apply(s3, StopCall(0, 1), 1, 0);
    Extend(Some1(2), ss + [s3], xs + [Go([])], 1, 0, StopCall(0, 1), s4);
    var s5 := Apply(s4, OtherStep(0), 1, 0);
    Extend(Some1(2), ss + [s3] + [s4], xs + [Go([])] + [StopCall(0, 1)], 1, 0, OtherStep(0), s5);
    ss, xs := ss + [s3] + [s4] + [s5], xs + [Go([])] + [StopCall(0, 1)] + [OtherStep(0)];
  }

  /** While a handler arms timer 1, another CPU stops it: it is put on the list with expiry 0. */
  lemma RaceLinked() returns (ss: seq<State>, xs: seq<Step>)
    ensures IsRun(Some1(2), ss, xs, 1, 0) && |xs| == 7 && Basic(ss[7])
    ensures
      var s := ss[7];
      && |s.ts.expires| == 2 && s.ts.active == [1] && s.ts.expires[1] == 0 && !s.ts.stop[1] && 1 in s.raced
      && s.pc == Handler(Next, []) && s.lock == Free
  {
    ss, xs := RaceBegins();
    var s5 := ss[5];
    RunBasic(Some1(2), ss, xs, 1, 0, 5);
    var s6 := Apply(s5, OtherStep(0), 1, 0);
    BasicKeeps(s5, OtherStep(0), 1, 0);
    assert s6.ts.active == [] && s6.pc == s5.pc && s6.lock == Free && s6.ts.expires[1] == 0 && 1 in s6.raced;
    assert Without([], 1) + [1] == [1];
    Extend(Some1(2), ss, xs, 1, 0, OtherStep(0), s6);
    ss, xs := GoOn(Some1(2), ss + [s6], xs + [OtherStep(0)], 1, 0);
  }

  /** One more step of the pass. */
  lemma GoOn(s0: Timers, ss: seq<State>, xs: seq<Step>, k: nat, now: nat) returns (rs: seq<State>, ys: seq<Step>)
    requires IsRun(s0, ss, xs, k, now) && Basic(ss[|xs|]) && CanGo(ss[|xs|])
    ensures IsRun(s0, rs, ys, k, now) && |ys| == |xs| + 1 && rs[|ys|] == DoGo(ss[|xs|], [], now) && Basic(rs[|ys|])
  {
    var s := DoGo(ss[|xs|], [], now);
    BasicKeeps(ss[|xs|], Go([]), k, now);
    Extend(s0, ss, xs, k, now, Go([]), s);
    rs, ys := ss + [s], xs + [Go([])];
  }

  /** And it fires in this pass, although it was not due and not even on the list when the pass began. */
  lemma RaceReachable() returns (ss: seq<State>, xs: seq<Step>)
    ensures IsRun(Some1(2), ss, xs, 1, 0) && 1 !in Some1(2).active && !IsDue(Some1(2), 1, 0)
    ensures 1 in ss[|xs|].fired
  {
    ss, xs := RaceLinked();
    ss, xs := GoOn(Some1(2), ss, xs, 1, 0);
    ss, xs := GoOn(Some1(2), ss, xs, 1, 0);
    ss, xs := GoOn(Some1(2), ss, xs, 1, 0);
    ss, xs := GoOn(Some1(2), ss, xs, 1, 0);
    ss, xs := GoOn(Some1(2), ss, xs, 1, 0);
  }
}
