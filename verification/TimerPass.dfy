/** One pass of the timer interrupt (core/timer.c) as a transition system. The pass takes due timers
    off the active list and runs their handlers with the lock released. Meanwhile the handlers arm
    and stop timers of their CPU, and other CPUs stop them. One step is one region under the lock
    or one store without it; the spin of stop_timer is a guard. */
module TimerPass {
  import opened Prelude

  const PRECISION: nat := 1_000_000  // TIMER_PRECISION, in nanoseconds
  const MARGIN: nat := PRECISION / 2

  type Tid = nat

  /** The timers of one CPU: the active list, the temporary list of the pass, and per timer its
      expiry, its stop flag and whether its cpu field names this CPU. */
  datatype Timers = Timers(active: seq<Tid>, later: seq<Tid>, expires: seq<nat>, stop: seq<bool>, mine: seq<bool>)

  /** A call that a handler makes. Mod is mod_timer or start_timer, called when NOW() is `after` past
      the start of the pass. A timer of another CPU would fail the ASSERT of __mod_timer. */
  datatype Call = Mod(u: Tid, after: nat, cval: nat) | Stop(u: Tid)

  /** Where a handler is: between calls, before the locked part of __mod_timer, before the lock of
      stop_timer, at its spin. */
  datatype At = Next | Link(u: Tid) | Lock(u: Tid) | Spin(u: Tid)

  /** Where the pass is. Check: a due timer is off the list, its stop flag not yet read. */
  datatype Pc = Loop | Check | Handler(at: At, rest: seq<Call>) | Leave | Relock | Done

  datatype Holder = Free | ByPass | ByHandler | ByOther(b: nat)

  /** Another CPU in stop_timer for timer t, with the lock or before it. */
  datatype Stopper = Stopper(t: Tid, locked: bool)

  /** The last eight fields record history: the timers taken off as due, those whose handler ran,
      those whose last change was to be armed and for when, those that were stopped before their
      turn, and those that anything happened to; the timers that another CPU stopped in the middle of
      their arming, how often that happened, and whether it did to the timer that is being armed. */
  datatype State = State(
    ts: Timers, running: Option<Tid>, lock: Holder, pc: Pc, others: map<nat, Stopper>,
    handled: set<Tid>, fired: seq<Tid>, armed: map<Tid, nat>, skipped: set<Tid>, touched: set<Tid>,
    raced: set<Tid>, races: nat, late: bool)

  /** Go: the pass or its handler; at Check, `calls` is what the handler will do. */
  datatype Step = Go(calls: seq<Call>) | StopCall(b: nat, t: Tid) | OtherStep(b: nat)

  // ---- timers

  function Max(a: nat, b: nat): nat {
    if a < b then b else a
  }

  ghost predicate Shaped(ts: Timers) {
    |ts.expires| == |ts.stop| == |ts.mine|
  }

  predicate IsDue(ts: Timers, t: Tid, now: nat)
    requires t < |ts.expires|
  {
    ts.expires[t] <= now + MARGIN
  }

  /** The store of mod_timer before the lock. */
  function Expiring(ts: Timers, u: Tid, e: nat): Timers
    requires u < |ts.expires|
  {
    ts.(expires := ts.expires[u := e])
  }

  /** The locked part of __mod_timer. */
  function Linked(ts: Timers, u: Tid): Timers
    requires Shaped(ts) && u < |ts.expires|
  {
    ts.(active := Without(ts.active, u) + [u], later := Without(ts.later, u),
        stop := ts.stop[u := false], mine := ts.mine[u := true])
  }

  /** The store of stop_timer before the lock. */
  function Flagged(ts: Timers, u: Tid): Timers
    requires Shaped(ts) && u < |ts.expires|
  {
    ts.(stop := ts.stop[u := true])
  }

  /** The locked part of stop_timer behind the spin. */
  function Detached(ts: Timers, u: Tid): Timers
    requires Shaped(ts) && u < |ts.expires|
  {
    ts.(active := Without(ts.active, u), later := Without(ts.later, u),
        expires := ts.expires[u := 0], mine := ts.mine[u := false])
  }

  /** Every timer is on one list at most, and a timer put aside is not due. */
  ghost predicate Good(ts: Timers, now: nat) {
    && Shaped(ts) && NoDup(ts.active) && NoDup(ts.later)
    && (forall t | t in ts.active :: t < |ts.expires| && t !in ts.later)
    && (forall t | t in ts.later :: t < |ts.expires| && !IsDue(ts, t, now))
  }

  // ---- due timers are counted

  /** How many timers of the list are due. */
  function DueCount(l: seq<Tid>, expires: seq<nat>, limit: nat): nat {
    if l == [] then 0
    else (if l[0] < |expires| && expires[l[0]] <= limit then 1 else 0) + DueCount(l[1..], expires, limit)
  }

  function Dues(ts: Timers, now: nat): nat {
    DueCount(ts.active, ts.expires, now + MARGIN)
  }

  lemma {:induction false} DueAppend(l: seq<Tid>, t: Tid, expires: seq<nat>, limit: nat)
    ensures DueCount(l + [t], expires, limit) == DueCount(l, expires, limit) + if t < |expires| && expires[t] <= limit then 1 else 0
  {
    if l == [] {
      assert l + [t] == [t];
    } else {
      assert (l + [t])[1..] == l[1..] + [t];
      DueAppend(l[1..], t, expires, limit);
    }
  }

  /** A later expiry of one timer makes no timer due. */
  lemma {:induction false} DueLater(l: seq<Tid>, t: Tid, expires: seq<nat>, e: nat, limit: nat)
    requires t < |expires| && e > limit
    ensures DueCount(l, expires[t := e], limit) <= DueCount(l, expires, limit)
  {
    if l != [] {
      DueLater(l[1..], t, expires, e, limit);
    }
  }

  lemma {:induction false} DueOther(l: seq<Tid>, t: Tid, expires: seq<nat>, e: nat, limit: nat)
    requires t !in l && t < |expires|
    ensures DueCount(l, expires[t := e], limit) == DueCount(l, expires, limit)
  {
    if l != [] {
      DueOther(l[1..], t, expires, e, limit);
    }
  }

  /** Taking a timer off the list, whatever its expiry becomes. */
  lemma {:induction false} DueWithout(l: seq<Tid>, t: Tid, expires: seq<nat>, e: nat, limit: nat)
    requires NoDup(l) && t < |expires|
    ensures DueCount(Without(l, t), expires[t := e], limit) <= DueCount(l, expires, limit)
  {
    if l != [] {
      if l[0] != t {
        DueWithout(l[1..], t, expires, e, limit);
      } else {
        DueOther(l[1..], t, expires, e, limit);
      }
    }
  }

  /** r comes from ts with a change of timer t only. */
  ghost predicate OneChange(ts: Timers, r: Timers, t: Tid) {
    && Shaped(ts) && Shaped(r) && |r.expires| == |ts.expires|
    && (forall u: Tid | u != t :: (u in r.active <==> u in ts.active) && (u in r.later <==> u in ts.later))
    && (forall u: Tid | u != t && u < |ts.expires| :: r.expires[u] == ts.expires[u] && r.stop[u] == ts.stop[u])
  }

  /** And timer t does not become due by it. */
  ghost predicate NoNewDue(ts: Timers, r: Timers, t: Tid, now: nat) {
    OneChange(ts, r, t) && Dues(r, now) <= Dues(ts, now) && (t in r.active && t < |r.expires| ==> !IsDue(r, t, now))
  }

  /** Arming: the expiry is a whole PRECISION ahead, and the margin is half of that. */
  lemma ExpiringKeeps(ts: Timers, u: Tid, e: nat, now: nat)
    requires Good(ts, now) && u < |ts.expires| && e >= now + PRECISION
    ensures Good(Expiring(ts, u, e), now) && NoNewDue(ts, Expiring(ts, u, e), u, now)
  {
    DueLater(ts.active, u, ts.expires, e, now + MARGIN);
  }

  /** Linking makes at most that timer due. */
  lemma LinkedKeeps(ts: Timers, u: Tid, now: nat)
    requires Good(ts, now) && u < |ts.expires|
    ensures Good(Linked(ts, u), now) && OneChange(ts, Linked(ts, u), u)
    ensures Dues(Linked(ts, u), now) <= Dues(ts, now) + if IsDue(ts, u, now) then 1 else 0
    ensures u in Linked(ts, u).active && Linked(ts, u).expires == ts.expires
  {
    WithoutIs(ts.active, u);
    WithoutIs(ts.later, u);
    assert ts.expires[u := ts.expires[u]] == ts.expires;
    DueWithout(ts.active, u, ts.expires, ts.expires[u], now + MARGIN);
    DueAppend(Without(ts.active, u), u, ts.expires, now + MARGIN);
  }

  lemma DetachedKeeps(ts: Timers, u: Tid, now: nat)
    requires Good(ts, now) && u < |ts.expires|
    ensures Good(Detached(ts, u), now) && NoNewDue(ts, Detached(ts, u), u, now)
    ensures u !in Detached(ts, u).active && u !in Detached(ts, u).later
  {
    WithoutIs(ts.active, u);
    WithoutIs(ts.later, u);
    DueWithout(ts.active, u, ts.expires, 0, now + MARGIN);
  }

  // ---- steps

  ghost predicate InRange(calls: seq<Call>, n: nat) {
    forall i | 0 <= i < |calls| :: calls[i].u < n
  }

  ghost predicate Sized(s: State) {
    var n := |s.ts.expires|;
    && Shaped(s.ts) && (forall i | 0 <= i < |s.ts.active| :: s.ts.active[i] < n) && (s.running.Some? ==> s.running.value < n)
    && (s.pc.Handler? ==> InRange(s.pc.rest, n) && (!s.pc.at.Next? ==> s.pc.at.u < n))
    && (s.pc.Check? ==> s.running.Some?)
    && forall b | b in s.others :: s.others[b].t < n
  }

  /** The pass, or its handler, can make its next step. */
  ghost predicate CanGo(s: State) {
    match s.pc
    case Done => false
    case Relock => s.lock == Free
    case Handler(Link(u), _) => s.lock == Free
    case Handler(Lock(u), _) => s.lock == Free
    case Handler(Spin(u), _) => s.running != Some(u)
    case _ => true
  }

  /** A handler makes at most k calls. */
  ghost predicate Enabled(s: State, x: Step, k: nat)
    requires Sized(s)
  {
    match x
    case Go(calls) => CanGo(s) && |calls| <= k && InRange(calls, |s.ts.expires|)
    case StopCall(b, t) => b !in s.others && t < |s.ts.expires| && s.ts.mine[t]
    case OtherStep(b) => b in s.others && (if s.others[b].locked then s.running != Some(s.others[b].t) else s.lock == Free)
  }

  function Aside(ts: Timers): Timers
    requires ts.active != []
  {
    ts.(active := ts.active[1..], later := ts.later + [ts.active[0]])
  }

  function Popped(ts: Timers): Timers
    requires ts.active != []
  {
    ts.(active := ts.active[1..])
  }

  function Swapped(ts: Timers): Timers {
    ts.(active := ts.later, later := [])
  }

  /** Timer u has been stopped. */
  function Stopped(s: State, u: Tid): State
    requires Shaped(s.ts) && u < |s.ts.expires|
  {
    s.(ts := Detached(s.ts, u), lock := Free, armed := s.armed - {u}, touched := s.touched + {u},
       skipped := if u in s.handled then s.skipped else s.skipped + {u})
  }

  /** Another CPU has stopped it, perhaps in the middle of its arming. */
  function Halted(s: State, u: Tid): State
    requires Shaped(s.ts) && u < |s.ts.expires|
  {
    var r := Stopped(s, u);
    if Pending(s.pc) == Some(u) then r.(raced := s.raced + {u}, races := s.races + 1, late := true) else r
  }

  function DoLoop(s: State, now: nat): State
    requires Shaped(s.ts) && forall i | 0 <= i < |s.ts.active| :: s.ts.active[i] < |s.ts.expires|
  {
    if s.ts.active == [] then s.(ts := Swapped(s.ts), lock := Free, pc := Done)
    else
      var t := s.ts.active[0];
      if IsDue(s.ts, t, now) then
        s.(ts := Popped(s.ts), running := Some(t), lock := Free, pc := Check, handled := s.handled + {t})
      else s.(ts := Aside(s.ts))
  }

  function DoCall(s: State, c: Call, rest: seq<Call>, now: nat): State
    requires Shaped(s.ts) && c.u < |s.ts.expires|
  {
    match c
    case Mod(u, after, cval) =>
      s.(ts := Expiring(s.ts, u, Max(cval, now + after + PRECISION)), pc := Handler(Link(u), rest), touched := s.touched + {u}, late := false)
    case Stop(u) =>
      if s.ts.mine[u] then s.(ts := Flagged(s.ts, u), pc := Handler(Lock(u), rest), touched := s.touched + {u})
      else s.(pc := Handler(Next, rest))
  }

  function DoHandler(s: State, at: At, rest: seq<Call>, now: nat): State
    requires Shaped(s.ts) && (!at.Next? ==> at.u < |s.ts.expires|) && (rest != [] ==> rest[0].u < |s.ts.expires|)
  {
    match at
    case Next => if rest == [] then s.(pc := Leave) else DoCall(s, rest[0], rest[1..], now)
    case Link(u) =>
      s.(ts := Linked(s.ts, u), pc := Handler(Next, rest), armed := if s.late then s.armed else s.armed[u := s.ts.expires[u]],
         touched := s.touched + {u})
    case Lock(u) => s.(lock := ByHandler, pc := Handler(Spin(u), rest))
    case Spin(u) => Stopped(s, u).(pc := Handler(Next, rest))
  }

  function DoGo(s: State, calls: seq<Call>, now: nat): State
    requires Shaped(s.ts) && forall i | 0 <= i < |s.ts.active| :: s.ts.active[i] < |s.ts.expires|
    requires s.pc.Handler? ==> (!s.pc.at.Next? ==> s.pc.at.u < |s.ts.expires|) && (s.pc.rest != [] ==> s.pc.rest[0].u < |s.ts.expires|)
    requires s.pc.Check? ==> s.running.Some? && s.running.value < |s.ts.expires|
  {
    match s.pc
    case Loop => DoLoop(s, now)
    case Check =>
      if s.ts.stop[s.running.value] then s.(pc := Leave)
      else s.(pc := Handler(Next, calls), fired := s.fired + [s.running.value])
    case Handler(at, rest) => DoHandler(s, at, rest, now)
    case Leave => s.(running := None, pc := Relock)
    case Relock => s.(lock := ByPass, pc := Loop)
    case Done => s
  }

  ghost function Apply(s: State, x: Step, k: nat, now: nat): State
    requires Sized(s) && Enabled(s, x, k)
  {
    match x
    case Go(calls) => DoGo(s, calls, now)
    case StopCall(b, t) =>
      s.(ts := Flagged(s.ts, t), others := s.others[b := Stopper(t, false)], touched := s.touched + {t})
    case OtherStep(b) =>
      var o := s.others[b];
      if o.locked then Halted(s, o.t).(others := s.others - {b})
      else s.(lock := ByOther(b), others := s.others[b := o.(locked := true)])
  }

  /** Another CPU stops the very timer u that a handler is arming, between the store of its expiry and
      the lock. */
  ghost predicate Race(s: State, x: Step, u: Tid) {
    x.OtherStep? && x.b in s.others && s.others[x.b] == Stopper(u, true) && Pending(s.pc) == Some(u)
  }

  // ---- what holds between steps

  ghost predicate Locks(s: State) {
    && (s.lock == ByPass <==> s.pc == Loop)
    && (s.lock == ByHandler <==> s.pc.Handler? && s.pc.at.Spin?)
    && (s.lock.ByOther? ==> s.lock.b in s.others)
    && (forall b | b in s.others :: s.others[b].locked <==> s.lock == ByOther(b))
    && (s.running.Some? <==> s.pc.Check? || s.pc.Handler? || s.pc.Leave?)
  }

  /** A timer that nothing happened to is where it was, put aside, or taken off; `open` is taken off
      and its flag is not yet read. */
  ghost predicate Untouched(s0: Timers, ts: Timers, u: Tid, open: Option<Tid>, handled: set<Tid>, fired: seq<Tid>) {
    && (u in s0.active <==> u in ts.active || u in ts.later || u in handled)
    && (u in handled ==> u !in ts.active && u !in ts.later)
    && (u < |s0.expires| && |ts.expires| == |ts.stop| == |s0.stop| == |s0.expires| ==>
          && ts.expires[u] == s0.expires[u] && ts.stop[u] == s0.stop[u]
          && (u in handled && open != Some(u) ==> (u in fired <==> !s0.stop[u])))
  }

  /** A timer fires twice only if it was raced. */
  ghost predicate OncePer(fired: seq<Tid>, raced: set<Tid>) {
    forall i, j | 0 <= i < j < |fired| && fired[i] == fired[j] :: fired[i] in raced
  }

  ghost predicate FiredOk(s0: Timers, now: nat, open: Option<Tid>, handled: set<Tid>, fired: seq<Tid>, skipped: set<Tid>, raced: set<Tid>) {
    && OncePer(fired, raced) && (forall u | u in fired :: u in handled)
    && (open.Some? ==> open.value in handled && (open.value !in fired || open.value in raced))
    && (forall u | u in handled && u !in raced :: u in s0.active && u < |s0.expires| && IsDue(s0, u, now) && u !in skipped)
  }

  /** A timer that is due was raced, or it was due from the start and nothing has happened to its place
      and time. */
  ghost predicate DueOk(s0: Timers, ts: Timers, now: nat, handled: set<Tid>, armed: map<Tid, nat>, skipped: set<Tid>, raced: set<Tid>) {
    && |ts.expires| == |s0.expires| == |s0.stop|
    && forall u | u in ts.active && u < |ts.expires| && IsDue(ts, u, now) && u !in raced ::
         u !in handled && u in s0.active && ts.expires[u] == s0.expires[u] && u !in armed && u !in skipped
  }

  /** An armed timer is on a list for its time; the one that is being armed has a new time, and is due
      exactly when it was raced since. */
  ghost predicate ArmedOk(ts: Timers, now: nat, pending: Option<Tid>, late: bool, armed: map<Tid, nat>, raced: set<Tid>) {
    && (forall u | u in armed ::
          && u < |ts.expires| && (u in ts.active || u in ts.later) && armed[u] > now + MARGIN
          && (pending != Some(u) ==> ts.expires[u] == armed[u]))
    && (pending.Some? ==>
          && pending.value < |ts.expires| && (IsDue(ts, pending.value, now) <==> late)
          && (late ==> pending.value in raced && pending.value !in armed))
  }

  ghost predicate Others(s0: Timers, ts: Timers, open: Option<Tid>, handled: set<Tid>, fired: seq<Tid>, touched: set<Tid>) {
    forall u: Tid | u !in touched :: Untouched(s0, ts, u, open, handled, fired)
  }

  function Pending(pc: Pc): Option<Tid> {
    if pc.Handler? && pc.at.Link? then Some(pc.at.u) else None
  }

  function Open(s: State): Option<Tid> {
    if s.pc.Check? then s.running else None
  }

  /** Nothing is left to do. */
  ghost predicate Settled(ts: Timers, now: nat) {
    ts.later == [] && forall u | u in ts.active :: u < |ts.expires| && !IsDue(ts, u, now)
  }

  ghost predicate Hist(s0: Timers, s: State, now: nat) {
    && Good(s.ts, now) && FiredOk(s0, now, Open(s), s.handled, s.fired, s.skipped, s.raced)
    && DueOk(s0, s.ts, now, s.handled, s.armed, s.skipped, s.raced) && ArmedOk(s.ts, now, Pending(s.pc), s.late, s.armed, s.raced)
    && Others(s0, s.ts, Open(s), s.handled, s.fired, s.touched) && s.raced <= s.touched
    && (s.pc.Done? ==> Settled(s.ts, now))
  }

  ghost predicate Inv(s0: Timers, s: State, now: nat) {
    Sized(s) && Locks(s) && Hist(s0, s, now)
  }

  /** The start of a pass. */
  ghost predicate Start(s0: Timers, s: State, now: nat) {
    && Good(s0, now) && s0.later == [] && s.ts == s0 && s.running == None && s.lock == ByPass && s.pc == Loop
    && s.others == map[] && s.handled == {} && s.fired == [] && s.armed == map[] && s.skipped == {} && s.touched == {}
    && s.raced == {} && s.races == 0 && !s.late
  }

  lemma StartOk(s0: Timers, s: State, now: nat)
    requires Start(s0, s, now)
    ensures Inv(s0, s, now)
  {
    assert forall i | 0 <= i < |s0.active| :: s0.active[i] in s0.active;
  }

  // ---- every step keeps it

  lemma OthersTouch(s0: Timers, ts: Timers, r: Timers, u: Tid, open: Option<Tid>, handled: set<Tid>, fired: seq<Tid>, touched: set<Tid>)
    requires Others(s0, ts, open, handled, fired, touched) && OneChange(ts, r, u)
    ensures Others(s0, r, open, handled, fired, touched + {u})
  {
    forall v: Tid | v !in touched + {u} ensures Untouched(s0, r, v, open, handled, fired) {
      assert Untouched(s0, ts, v, open, handled, fired);
    }
  }

  lemma DueTouch(s0: Timers, ts: Timers, r: Timers, u: Tid, now: nat, handled: set<Tid>, armed: map<Tid, nat>, skipped: set<Tid>,
                 raced: set<Tid>, armed': map<Tid, nat>, skipped': set<Tid>, raced': set<Tid>)
    requires DueOk(s0, ts, now, handled, armed, skipped, raced) && OneChange(ts, r, u) && raced <= raced'
    requires u in r.active && u < |r.expires| && IsDue(r, u, now) ==> u in raced'
    requires forall v | v in armed' :: v in armed || v == u
    requires forall v | v in skipped' :: v in skipped || v == u
    ensures DueOk(s0, r, now, handled, armed', skipped', raced')
  {
  }

  /** mod_timer stores the expiry. */
  lemma ExpiringHist(s0: Timers, s: State, c: Call, rest: seq<Call>, now: nat)
    requires Inv(s0, s, now) && s.pc.Handler? && s.pc.at == Next && c.Mod? && c.u < |s.ts.expires|
    ensures Hist(s0, DoCall(s, c, rest, now), now)
  {
    var e := Max(c.cval, now + c.after + PRECISION);
    var r := Expiring(s.ts, c.u, e);
    ExpiringKeeps(s.ts, c.u, e, now);
    OthersTouch(s0, s.ts, r, c.u, None, s.handled, s.fired, s.touched);
    DueTouch(s0, s.ts, r, c.u, now, s.handled, s.armed, s.skipped, s.raced, s.armed, s.skipped, s.raced);
  }

  lemma ArmedLinked(ts: Timers, u: Tid, now: nat, late: bool, armed: map<Tid, nat>, raced: set<Tid>)
    requires Good(ts, now) && ArmedOk(ts, now, Some(u), late, armed, raced)
    ensures ArmedOk(Linked(ts, u), now, None, late, if late then armed else armed[u := ts.expires[u]], raced)
  {
    WithoutIs(ts.active, u);
    WithoutIs(ts.later, u);
  }

  lemma LinkedHist(s0: Timers, s: State, u: Tid, rest: seq<Call>, now: nat)
    requires Inv(s0, s, now) && s.pc == Handler(Link(u), rest)
    ensures Hist(s0, DoHandler(s, Link(u), rest, now), now)
  {
    var r := Linked(s.ts, u);
    LinkedKeeps(s.ts, u, now);
    OthersTouch(s0, s.ts, r, u, None, s.handled, s.fired, s.touched);
    var armed := if s.late then s.armed else s.armed[u := s.ts.expires[u]];
    DueTouch(s0, s.ts, r, u, now, s.handled, s.armed, s.skipped, s.raced, armed, s.skipped, s.raced);
    ArmedLinked(s.ts, u, now, s.late, s.armed, s.raced);
  }

  lemma ArmedStopped(ts: Timers, u: Tid, now: nat, pending: Option<Tid>, late: bool, armed: map<Tid, nat>, raced: set<Tid>)
    requires Good(ts, now) && u < |ts.expires| && ArmedOk(ts, now, pending, late, armed, raced)
    ensures
      var here := pending == Some(u);
      ArmedOk(Detached(ts, u), now, pending, late || here, armed - {u}, if here then raced + {u} else raced)
  {
    WithoutIs(ts.active, u);
    WithoutIs(ts.later, u);
  }

  lemma SettledStopped(ts: Timers, u: Tid, now: nat)
    requires Good(ts, now) && u < |ts.expires| && Settled(ts, now)
    ensures Settled(Detached(ts, u), now)
  {
    WithoutIs(ts.active, u);
  }

  /** A timer is taken off the lists. */
  lemma HaltedHist(s0: Timers, s: State, u: Tid, now: nat, pc: Pc, others: map<nat, Stopper>)
    requires Hist(s0, s, now) && u < |s.ts.expires| && (pc.Done? <==> s.pc.Done?)
    requires (pc.Check? <==> s.pc.Check?) && Pending(pc) == Pending(s.pc)
    ensures Hist(s0, Halted(s, u).(pc := pc, others := others), now)
  {
    var r, h := Detached(s.ts, u), Halted(s, u);
    DetachedKeeps(s.ts, u, now);
    OthersTouch(s0, s.ts, r, u, Open(s), s.handled, s.fired, s.touched);
    DueTouch(s0, s.ts, r, u, now, s.handled, s.armed, s.skipped, s.raced, h.armed, h.skipped, h.raced);
    ArmedStopped(s.ts, u, now, Pending(s.pc), s.late, s.armed, s.raced);
    if s.pc.Done? {
      SettledStopped(s.ts, u, now);
    }
  }

  lemma FlaggedHist(s0: Timers, s: State, u: Tid, now: nat, pc: Pc, others: map<nat, Stopper>)
    requires Hist(s0, s, now) && u < |s.ts.expires| && (pc.Check? <==> s.pc.Check?) && Pending(pc) == Pending(s.pc)
    requires pc.Done? <==> s.pc.Done?
    ensures Hist(s0, s.(ts := Flagged(s.ts, u), pc := pc, others := others, touched := s.touched + {u}), now)
  {
    var r := Flagged(s.ts, u);
    forall v: Tid | v !in s.touched + {u} ensures Untouched(s0, r, v, Open(s), s.handled, s.fired) {
      assert Untouched(s0, s.ts, v, Open(s), s.handled, s.fired);
    }
  }

  /** The first timer is not due: it is put aside. */
  lemma AsideHist(s0: Timers, s: State, now: nat)
    requires Inv(s0, s, now) && s.pc == Loop && s.ts.active != [] && !IsDue(s.ts, s.ts.active[0], now)
    ensures Hist(s0, s.(ts := Aside(s.ts)), now) && Dues(Aside(s.ts), now) == Dues(s.ts, now)
  {
    var t, r := s.ts.active[0], Aside(s.ts);
    FirstOff(s.ts, now);
    assert s.ts.active == [t] + r.active && t in s.ts.active;
    forall u: Tid | u !in s.touched ensures Untouched(s0, r, u, None, s.handled, s.fired) {
      assert Untouched(s0, s.ts, u, None, s.handled, s.fired);
    }
  }

  /** The list without its first timer t. */
  lemma FirstOff(ts: Timers, now: nat)
    requires Good(ts, now) && ts.active != []
    ensures forall u :: u in ts.active[1..] <==> u in ts.active && u != ts.active[0]
    ensures Good(Popped(ts), now) && ts.active[0] !in ts.later
    ensures IsDue(ts, ts.active[0], now) ==> Dues(Popped(ts), now) == Dues(ts, now) - 1
  {
    var t := ts.active[0];
    assert ts.active == [t] + ts.active[1..] && t in ts.active;
  }

  lemma PoppedOthers(s0: Timers, ts: Timers, handled: set<Tid>, fired: seq<Tid>, touched: set<Tid>, now: nat)
    requires Good(ts, now) && ts.active != [] && Others(s0, ts, None, handled, fired, touched)
    requires ts.active[0] !in touched ==> ts.active[0] !in fired
    ensures Others(s0, Popped(ts), Some(ts.active[0]), handled + {ts.active[0]}, fired, touched)
  {
    FirstOff(ts, now);
    forall u: Tid | u !in touched ensures Untouched(s0, Popped(ts), u, Some(ts.active[0]), handled + {ts.active[0]}, fired) {
      assert Untouched(s0, ts, u, None, handled, fired);
    }
  }

  /** The first timer is due: it is taken off. */
  lemma PoppedHist(s0: Timers, s: State, now: nat)
    requires Inv(s0, s, now) && s.pc == Loop && s.ts.active != [] && IsDue(s.ts, s.ts.active[0], now)
    ensures Hist(s0, DoLoop(s, now), now) && Dues(DoLoop(s, now).ts, now) == Dues(s.ts, now) - 1
  {
    FirstOff(s.ts, now);
    PoppedOthers(s0, s.ts, s.handled, s.fired, s.touched, now);
  }

  lemma SwappedHist(s0: Timers, s: State, now: nat)
    requires Inv(s0, s, now) && s.pc == Loop && s.ts.active == []
    ensures Hist(s0, DoLoop(s, now), now)
  {
    var r := Swapped(s.ts);
    forall u: Tid | u !in s.touched ensures Untouched(s0, r, u, None, s.handled, s.fired) {
      assert Untouched(s0, s.ts, u, None, s.handled, s.fired);
    }
  }

  /** The stop flag of the timer is read. */
  lemma CheckHist(s0: Timers, s: State, calls: seq<Call>, now: nat)
    requires Inv(s0, s, now) && s.pc == Check
    ensures Hist(s0, DoGo(s, calls, now), now)
  {
    var t := s.running.value;
    var fired := if s.ts.stop[t] then s.fired else s.fired + [t];
    forall u: Tid | u !in s.touched ensures Untouched(s0, s.ts, u, None, s.handled, fired) {
      assert Untouched(s0, s.ts, u, Some(t), s.handled, s.fired);
    }
  }

  lemma HandlerSized(s: State, now: nat)
    requires Sized(s) && s.pc.Handler?
    requires var r := DoHandler(s, s.pc.at, s.pc.rest, now); Good(r.ts, now) && |r.ts.expires| == |s.ts.expires|
    ensures Sized(DoHandler(s, s.pc.at, s.pc.rest, now))
  {
    var r := DoHandler(s, s.pc.at, s.pc.rest, now);
    assert forall i | 0 <= i < |r.ts.active| :: r.ts.active[i] in r.ts.active;
  }

  /** What the steps do to the positions of the pass and the lock. */
  lemma GoSized(s: State, calls: seq<Call>, now: nat)
    requires Sized(s) && CanGo(s) && InRange(calls, |s.ts.expires|)
    requires Good(DoGo(s, calls, now).ts, now) && |DoGo(s, calls, now).ts.expires| == |s.ts.expires|
    ensures Sized(DoGo(s, calls, now))
  {
    if s.pc.Handler? {
      HandlerSized(s, now);
    } else {
      var r := DoGo(s, calls, now);
      assert forall i | 0 <= i < |r.ts.active| :: r.ts.active[i] in r.ts.active;
    }
  }

  lemma GoLocks(s: State, calls: seq<Call>, now: nat)
    requires Sized(s) && Locks(s) && CanGo(s)
    ensures Locks(DoGo(s, calls, now))
  {
  }

  lemma HandlerHist(s0: Timers, s: State, now: nat)
    requires Inv(s0, s, now) && s.pc.Handler? && CanGo(s)
    ensures Hist(s0, DoHandler(s, s.pc.at, s.pc.rest, now), now)
  {
    var rest := s.pc.rest;
    match s.pc.at
    case Next =>
      if rest != [] {
        if rest[0].Mod? {
          ExpiringHist(s0, s, rest[0], rest[1..], now);
        } else if s.ts.mine[rest[0].u] {
          FlaggedHist(s0, s, rest[0].u, now, Handler(Lock(rest[0].u), rest[1..]), s.others);
        }
      }
    case Link(u) => LinkedHist(s0, s, u, rest, now);
    case Lock(u) =>
    case Spin(u) => HaltedHist(s0, s, u, now, Handler(Next, rest), s.others);
  }

  lemma GoHist(s0: Timers, s: State, calls: seq<Call>, now: nat)
    requires Inv(s0, s, now) && CanGo(s)
    ensures Hist(s0, DoGo(s, calls, now), now)
  {
    match s.pc
    case Loop =>
      if s.ts.active == [] {
        SwappedHist(s0, s, now);
      } else if IsDue(s.ts, s.ts.active[0], now) {
        PoppedHist(s0, s, now);
      } else {
        AsideHist(s0, s, now);
      }
    case Check => CheckHist(s0, s, calls, now);
    case Handler(_, _) => HandlerHist(s0, s, now);
    case _ =>
  }

  /** The steps of other CPUs. */
  lemma OtherKeeps(s0: Timers, s: State, x: Step, k: nat, now: nat)
    requires Inv(s0, s, now) && Enabled(s, x, k) && !x.Go?
    ensures Inv(s0, Apply(s, x, k, now), now)
  {
    var r := Apply(s, x, k, now);
    if x.StopCall? {
      FlaggedHist(s0, s, x.t, now, s.pc, r.others);
    } else if s.others[x.b].locked {
      HaltedHist(s0, s, s.others[x.b].t, now, s.pc, r.others);
      assert forall i | 0 <= i < |r.ts.active| :: r.ts.active[i] in r.ts.active;
    }
  }

  /** Every step of the pass, its handlers and other CPUs keeps the invariant. */
  lemma StepKeeps(s0: Timers, s: State, x: Step, k: nat, now: nat)
    requires Inv(s0, s, now) && Enabled(s, x, k)
    ensures Inv(s0, Apply(s, x, k, now), now)
  {
    if x.Go? {
      GoHist(s0, s, x.calls, now);
      GoSized(s, x.calls, now);
      GoLocks(s, x.calls, now);
    } else {
      OtherKeeps(s0, s, x, k, now);
    }
  }
}
