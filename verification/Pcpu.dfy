/** The run queue of one CPU as the scheduler updates it in place, and the order in which it
    serves tasks of one priority. */
module PcpuQueue {
  import opened Prelude
  import opened ReadyQueue

  /** The run queue and the current task, as a value. */
  datatype Sched = Sched(rq: Rq, cur: TaskId)

  ghost predicate Ok(prio: seq<nat>, s: Sched) {
    && (forall t | 0 <= t < |prio| :: prio[t] < OS_PRIO_MAX)
    && Booked(s.rq) && Distinct(s.rq)
    && s.rq.lists[OS_PRIO_IDLE] != []
    && s.cur < |prio| && IsLast(s.rq.lists[prio[s.cur]], s.cur)
    && (forall p, i | 0 <= p < OS_PRIO_MAX && 0 <= i < |s.rq.lists[p]| ::
          s.rq.lists[p][i] < |prio| && prio[s.rq.lists[p][i]] == p)
  }

  function Added(prio: seq<nat>, s: Sched, t: TaskId): Sched
    requires Shape(s.rq) && t < |prio| && s.cur < |prio| && prio[t] < OS_PRIO_MAX
  {
    s.(rq := AddReady(s.rq, t, prio[t], s.cur, prio[s.cur]))
  }

  /** The queue when the current task leaves it for good or stays. */
  function Left(prio: seq<nat>, s: Sched, leaves: bool): Rq
    requires Shape(s.rq) && s.cur < |prio| && prio[s.cur] < OS_PRIO_MAX
  {
    if leaves then RemoveReady(s.rq, s.cur, prio[s.cur]) else s.rq
  }

  lemma AddedOk(prio: seq<nat>, s: Sched, t: TaskId)
    requires Ok(prio, s) && t < |prio| && t !in s.rq.lists[prio[t]]
    ensures Ok(prio, Added(prio, s, t))
  {
    AddReadyKeeps(s.rq, t, prio[t], s.cur, prio[s.cur]);
    var rq := Added(prio, s, t).rq;
    forall p, i | 0 <= p < OS_PRIO_MAX && 0 <= i < |rq.lists[p]|
      ensures rq.lists[p][i] < |prio| && prio[rq.lists[p][i]] == p
    {
      assert rq.lists[p][i] in rq.lists[p];
    }
  }

  lemma LeftOk(prio: seq<nat>, s: Sched, leaves: bool)
    requires Ok(prio, s) && (leaves ==> prio[s.cur] < OS_PRIO_IDLE)
    ensures
      var rq := Left(prio, s, leaves);
      && Booked(rq) && Distinct(rq) && rq.lists[OS_PRIO_IDLE] != []
      && Lowest(rq.grp, 0) < OS_PRIO_MAX && rq.lists[Lowest(rq.grp, 0)] != []
      && (forall p, i | 0 <= p < OS_PRIO_MAX && 0 <= i < |rq.lists[p]| ::
            rq.lists[p][i] < |prio| && prio[rq.lists[p][i]] == p)
  {
    var rq := Left(prio, s, leaves);
    if leaves {
      RemoveReadyLaw(s.rq, s.cur, prio[s.cur]);
    }
    assert OS_PRIO_IDLE in rq.grp;
    forall p, i | 0 <= p < OS_PRIO_MAX && 0 <= i < |rq.lists[p]|
      ensures rq.lists[p][i] < |prio| && prio[rq.lists[p][i]] == p
    {
      assert rq.lists[p][i] in s.rq.lists[p];
    }
  }

  /** pick_next_task, then the picked task becomes current. */
  ghost function Picked(prio: seq<nat>, s: Sched, leaves: bool): Sched
    requires Ok(prio, s) && (leaves ==> prio[s.cur] < OS_PRIO_IDLE)
  {
    LeftOk(prio, s, leaves);
    var rq := Left(prio, s, leaves);
    var p := Lowest(rq.grp, 0);
    Sched(Rotate(rq, p), rq.lists[p][0])
  }

  lemma PickedOk(prio: seq<nat>, s: Sched, leaves: bool)
    requires Ok(prio, s) && (leaves ==> prio[s.cur] < OS_PRIO_IDLE)
    ensures Ok(prio, Picked(prio, s, leaves))
  {
    LeftOk(prio, s, leaves);
    var rq := Left(prio, s, leaves);
    var p := Lowest(rq.grp, 0);
    RotateLaw(rq, p);
    var rq' := Rotate(rq, p);
    forall q, i | 0 <= q < OS_PRIO_MAX && 0 <= i < |rq'.lists[q]|
      ensures rq'.lists[q][i] < |prio| && prio[rq'.lists[q][i]] == q
    {
      assert rq'.lists[q][i] in rq'.lists[q];
    }
  }

  /** struct pcpu: the fields that core/sched.c updates in place. */
  class Pcpu {
    const prio: seq<nat>
    var readyList: seq<seq<TaskId>>
    var tasksInPrio: seq<int>
    var localRdyGrp: set<nat>
    var current: TaskId

    function View(): Sched
      reads this
    {
      Sched(Rq(readyList, tasksInPrio, localRdyGrp), current)
    }

    ghost predicate Valid()
      reads this
    {
      Ok(prio, View())
    }

    /** create_idle_task: the idle task is linked and its bit set, but it is not counted. */
    constructor (prio: seq<nat>, idle: TaskId)
      requires forall t | 0 <= t < |prio| :: prio[t] < OS_PRIO_MAX
      requires idle < |prio| && prio[idle] == OS_PRIO_IDLE
      ensures Valid() && this.prio == prio && current == idle
      ensures forall p | 0 <= p < OS_PRIO_MAX :: readyList[p] == if p == OS_PRIO_IDLE then [idle] else []
    {
      this.prio := prio;
      readyList := [[], [], [], [], [], [], [], [idle]];
      tasksInPrio := [0, 0, 0, 0, 0, 0, 0, 0];
      localRdyGrp := {OS_PRIO_IDLE};
      current := idle;
    }

    /** The caller's ASSERT: the task is not linked. It is placed behind every task that
        waits for this priority and a running task stays the last. */
    method AddTaskToReadyList(t: TaskId)
      requires Valid() && t < |prio| && t !in readyList[prio[t]]
      modifies this
      ensures Valid() && View() == Added(prio, old(View()), t)
      ensures current == old(current) && t in readyList[prio[t]]
      ensures tasksInPrio == old(tasksInPrio)[prio[t] := old(tasksInPrio)[prio[t]] + 1]
    {
      AddedOk(prio, View(), t);
      AddReadyKeeps(View().rq, t, prio[t], current, prio[current]);
      var p := prio[t];
      tasksInPrio := tasksInPrio[p := tasksInPrio[p] + 1];
      if prio[current] == p {
        readyList := readyList[p := InsertBefore(readyList[p], current, t)];
      } else {
        readyList := readyList[p := readyList[p] + [t]];
      }
      localRdyGrp := localRdyGrp + {p};
    }

    /** pick_next_task followed by the switch. The task picked has the highest priority of
        all linked tasks, was the first of its list and is now the last. */
    method PickNextTask(leaves: bool) returns (next: TaskId)
      requires Valid() && (leaves ==> prio[current] < OS_PRIO_IDLE)
      modifies this
      ensures Valid() && View() == Picked(prio, old(View()), leaves) && next == current
      ensures next < |prio| && forall q | 0 <= q < prio[next] :: readyList[q] == []
      ensures
        var rq := Left(prio, old(View()), leaves);
        rq.lists[prio[next]] != [] && rq.lists[prio[next]][0] == next
    {
      LeftOk(prio, View(), leaves);
      PickedOk(prio, View(), leaves);
      if leaves {
        var p := prio[current];
        readyList := readyList[p := Without(readyList[p], current)];
        if readyList[p] == [] {
          localRdyGrp := localRdyGrp - {p};
        }
        tasksInPrio := tasksInPrio[p := tasksInPrio[p] - 1];
      }
      var p := Lowest(localRdyGrp, 0);
      next := readyList[p][0];
      readyList := readyList[p := readyList[p][1..] + [next]];
      current := next;
    }
  }

  // ---- bounded waiting

  datatype Event = Arrive(t: TaskId) | Pick(leaves: bool)

  ghost predicate May(prio: seq<nat>, s: Sched, e: Event) {
    && Ok(prio, s)
    && match e
       case Arrive(t) => t < |prio| && t !in s.rq.lists[prio[t]]
       case Pick(leaves) => leaves ==> prio[s.cur] < OS_PRIO_IDLE
  }

  ghost function After(prio: seq<nat>, s: Sched, e: Event): Sched
    requires May(prio, s, e)
  {
    match e
    case Arrive(t) => Added(prio, s, t)
    case Pick(leaves) => Picked(prio, s, leaves)
  }

  /** Event e takes s to s', and a pick serves level p. */
  ghost predicate ServeStep(prio: seq<nat>, s: Sched, e: Event, s': Sched, p: nat) {
    May(prio, s, e) && s' == After(prio, s, e) && s'.cur < |prio| && (e.Pick? ==> prio[s'.cur] == p)
  }

  /** ss are the states of the run es, and level p is what every pick serves. */
  ghost predicate Serves(prio: seq<nat>, ss: seq<Sched>, es: seq<Event>, p: nat) {
    |ss| == |es| + 1 && forall i | 0 <= i < |es| :: ServeStep(prio, ss[i], es[i], ss[i + 1], p)
  }

  /** The number of picks among es[lo..hi]. */
  function Picks(es: seq<Event>, lo: nat, hi: nat): nat
    requires lo <= hi <= |es|
    decreases hi - lo
  {
    if lo == hi then 0 else (if es[lo].Pick? then 1 else 0) + Picks(es, lo + 1, hi)
  }

  /** w is at position k of level p and is not running. */
  ghost predicate Waits(s: Sched, p: nat, w: TaskId, k: nat) {
    Shape(s.rq) && p < OS_PRIO_MAX && k < |s.rq.lists[p]| && s.rq.lists[p][k] == w && w != s.cur
  }

  /** An arrival never gets in front of a waiting task. */
  lemma ArrivalKeepsPlace(prio: seq<nat>, s: Sched, t: TaskId, p: nat, w: TaskId, k: nat)
    requires May(prio, s, Arrive(t)) && Waits(s, p, w, k)
    ensures Waits(Added(prio, s, t), p, w, k)
  {
    if prio[t] == prio[s.cur] {
      InsertBeforeLast(s.rq.lists[prio[t]], s.cur, t);
    }
  }

  /** A pick takes a waiting task or brings it one place nearer. */
  lemma PickBringsNearer(prio: seq<nat>, s: Sched, leaves: bool, p: nat, w: TaskId, k: nat)
    requires May(prio, s, Pick(leaves)) && Waits(s, p, w, k)
    requires Picked(prio, s, leaves).cur < |prio| && prio[Picked(prio, s, leaves).cur] == p
    ensures
      var s' := Picked(prio, s, leaves);
      if k == 0 then s'.cur == w else Waits(s', p, w, k - 1)
  {
    LeftOk(prio, s, leaves);
    if leaves {
      RemoveReadyLaw(s.rq, s.cur, prio[s.cur]);
    }
    var rq := Left(prio, s, leaves);
    assert rq.lists[p][k] == w;
    assert Lowest(rq.grp, 0) == p;
  }

  lemma OneEvent(prio: seq<nat>, s: Sched, e: Event, s': Sched, p: nat, w: TaskId, k: nat)
    requires ServeStep(prio, s, e, s', p) && Waits(s, p, w, k)
    ensures if e.Pick? && k == 0 then s'.cur == w else Waits(s', p, w, if e.Pick? then k - 1 else k)
  {
    match e
    case Arrive(t) => ArrivalKeepsPlace(prio, s, t, p, w, k);
    case Pick(leaves) => PickBringsNearer(prio, s, leaves, p, w, k);
  }

  /** A task at position k of the level that is served is picked within k + 1 picks, whatever
      arrives in between. */
  lemma {:induction false} BoundedWaiting(prio: seq<nat>, ss: seq<Sched>, es: seq<Event>, p: nat, w: TaskId,
                                          j: nat, k: nat) returns (i: nat)
    requires p < OS_PRIO_MAX && Serves(prio, ss, es, p) && j < |ss| && Waits(ss[j], p, w, k)
    requires Picks(es, j, |es|) > k
    ensures j <= i < |es| && es[i].Pick? && ss[i + 1].cur == w && Picks(es, j, i + 1) <= k + 1
    decreases |es| - j
  {
    OneEvent(prio, ss[j], es[j], ss[j + 1], p, w, k);
    if es[j].Pick? && k == 0 {
      i := j;
    } else {
      i := BoundedWaiting(prio, ss, es, p, w, j + 1, if es[j].Pick? then k - 1 else k);
    }
  }
}
