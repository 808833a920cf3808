/** The per-CPU ready lists of core/sched.c: one list per priority, a counter per
    priority and a group of bits that says which lists are non-empty. The functions
    give the effect of each operation as a value, the class runs it in place. */
module ReadyQueue {
  import opened Prelude

  const OS_PRIO_MAX: nat := 8
  const OS_PRIO_IDLE: nat := 7

  type TaskId = nat

  datatype Rq = Rq(lists: seq<seq<TaskId>>, inPrio: seq<int>, grp: set<nat>)

  ghost predicate Shape(rq: Rq) {
    && |rq.lists| == OS_PRIO_MAX
    && |rq.inPrio| == OS_PRIO_MAX
  }

  /** The book-keeping law: a bit is set exactly when its list is non-empty, and below
      the idle priority the counter is the length of the list. */
  ghost predicate Booked(rq: Rq) {
    && Shape(rq)
    && (forall p | p in rq.grp :: p < OS_PRIO_MAX)
    && (forall p | 0 <= p < OS_PRIO_MAX :: p in rq.grp <==> rq.lists[p] != [])
    && (forall p | 0 <= p < OS_PRIO_IDLE :: rq.inPrio[p] == |rq.lists[p]|)
  }

  ghost predicate IsLast(l: seq<TaskId>, t: TaskId) {
    |l| > 0 && l[|l| - 1] == t
  }

  function InsertBefore(l: seq<TaskId>, x: TaskId, t: TaskId): seq<TaskId> {
    if l == [] then [t]
    else if l[0] == x then [t] + l
    else [l[0]] + InsertBefore(l[1..], x, t)
  }

  /** add_task_to_ready_list: behind every waiting task, in front of a running task of
      the same priority. */
  function AddReady(rq: Rq, t: TaskId, p: nat, cur: TaskId, curPrio: nat): Rq
    requires Shape(rq) && p < OS_PRIO_MAX
  {
    var l := if curPrio == p then InsertBefore(rq.lists[p], cur, t) else rq.lists[p] + [t];
    Rq(rq.lists[p := l], rq.inPrio[p := rq.inPrio[p] + 1], rq.grp + {p})
  }

  /** remove_task_from_ready_list */
  function RemoveReady(rq: Rq, t: TaskId, p: nat): Rq
    requires Shape(rq) && p < OS_PRIO_MAX
  {
    var l := Without(rq.lists[p], t);
    Rq(rq.lists[p := l], rq.inPrio[p := rq.inPrio[p] - 1],
       if l == [] then rq.grp - {p} else rq.grp)
  }

  /** The least set bit, which is what ffs_one_table holds for a non-zero group. */
  function Lowest(grp: set<nat>, from: nat): (p: nat)
    requires from <= OS_PRIO_MAX
    ensures from <= p <= OS_PRIO_MAX
    ensures p < OS_PRIO_MAX ==> p in grp
    ensures forall q | from <= q < p :: q !in grp
    decreases OS_PRIO_MAX - from
  {
    if from == OS_PRIO_MAX || from in grp then from else Lowest(grp, from + 1)
  }

  /** The head of list p goes to its tail. */
  function Rotate(rq: Rq, p: nat): Rq
    requires Shape(rq) && p < OS_PRIO_MAX && rq.lists[p] != []
  {
    rq.(lists := rq.lists[p := rq.lists[p][1..] + [rq.lists[p][0]]])
  }

  lemma {:induction false} InsertBeforeLast(l: seq<TaskId>, x: TaskId, t: TaskId)
    requires IsLast(l, x) && NoDup(l)
    ensures InsertBefore(l, x, t) == l[..|l| - 1] + [t] + [x]
  {
    if |l| > 1 {
      InsertBeforeLast(l[1..], x, t);
    }
  }

  lemma {:induction false} WithoutLast(l: seq<TaskId>, t: TaskId)
    requires IsLast(l, t) && NoDup(l)
    ensures Without(l, t) == l[..|l| - 1]
  {
    if |l| > 1 {
      WithoutLast(l[1..], t);
    }
  }

  lemma {:induction false} WithoutAt(l: seq<TaskId>, i: nat)
    requires NoDup(l) && i < |l|
    ensures Without(l, l[i]) == l[..i] + l[i + 1..]
  {
    if i > 0 {
      WithoutAt(l[1..], i - 1);
      assert l[1..][..i - 1] == l[1..i];
      assert l[1..][i..] == l[i + 1..];
    }
  }

  /** The lists hold distinct tasks. */
  ghost predicate Distinct(rq: Rq)
    requires Shape(rq)
  {
    forall p | 0 <= p < OS_PRIO_MAX :: NoDup(rq.lists[p])
  }

  /** l' is l with t at place k: the tasks ahead of it stay where they are. */
  ghost predicate Inserted(l: seq<TaskId>, l': seq<TaskId>, t: TaskId, k: int) {
    && |l'| == |l| + 1 && 0 <= k <= |l| && l'[k] == t
    && (forall i | 0 <= i < k :: l'[i] == l[i])
    && (forall i | k <= i < |l| :: l'[i + 1] == l[i])
  }

  lemma AddReadyKeeps(rq: Rq, t: TaskId, p: nat, cur: TaskId, curPrio: nat)
    requires Booked(rq) && Distinct(rq) && p < OS_PRIO_MAX && curPrio < OS_PRIO_MAX
    requires IsLast(rq.lists[curPrio], cur) && t !in rq.lists[p]
    ensures Booked(AddReady(rq, t, p, cur, curPrio)) && Distinct(AddReady(rq, t, p, cur, curPrio))
    ensures
      var rq' := AddReady(rq, t, p, cur, curPrio);
      && IsLast(rq'.lists[curPrio], cur)
      && (forall q | 0 <= q < OS_PRIO_MAX && q != p :: rq'.lists[q] == rq.lists[q])
      && (forall u :: u in rq'.lists[p] <==> u in rq.lists[p] || u == t)
  {
    var l := rq.lists[p];
    if curPrio == p {
      InsertBeforeLast(l, cur, t);
      assert l == l[..|l| - 1] + [cur];
    }
  }

  /** Adding keeps the book-keeping, puts t on list p only and behind every waiting task, which
      keeps its place, and leaves a running task last. */
  lemma AddReadyLaw(rq: Rq, t: TaskId, p: nat, cur: TaskId, curPrio: nat)
    requires Booked(rq) && Distinct(rq) && p < OS_PRIO_MAX && curPrio < OS_PRIO_MAX
    requires IsLast(rq.lists[curPrio], cur) && t !in rq.lists[p]
    ensures
      var rq' := AddReady(rq, t, p, cur, curPrio);
      && Booked(rq') && Distinct(rq') && IsLast(rq'.lists[curPrio], cur)
      && (forall q | 0 <= q < OS_PRIO_MAX && q != p :: rq'.lists[q] == rq.lists[q])
      && Inserted(rq.lists[p], rq'.lists[p], t, if curPrio == p then |rq.lists[p]| - 1 else |rq.lists[p]|)
  {
    AddReadyKeeps(rq, t, p, cur, curPrio);
    if curPrio == p {
      InsertBeforeLast(rq.lists[p], cur, t);
    }
  }

  /** Removing the running task keeps the book-keeping. */
  lemma RemoveReadyLaw(rq: Rq, t: TaskId, p: nat)
    requires Booked(rq) && Distinct(rq) && p < OS_PRIO_IDLE && IsLast(rq.lists[p], t)
    ensures Booked(RemoveReady(rq, t, p)) && Distinct(RemoveReady(rq, t, p))
    ensures
      var rq' := RemoveReady(rq, t, p);
      && (forall q | 0 <= q < OS_PRIO_MAX && q != p :: rq'.lists[q] == rq.lists[q])
      && rq.lists[p] == rq'.lists[p] + [t]
      && t !in rq'.lists[p]
  {
    WithoutLast(rq.lists[p], t);
  }

  /** pick_next_task takes a task of the highest non-empty priority and makes it the last. */
  lemma RotateLaw(rq: Rq, p: nat)
    requires Booked(rq) && Distinct(rq) && p < OS_PRIO_MAX && rq.lists[p] != []
    ensures Booked(Rotate(rq, p)) && Distinct(Rotate(rq, p))
    ensures
      var rq' := Rotate(rq, p);
      && IsLast(rq'.lists[p], rq.lists[p][0])
      && (forall q | 0 <= q < OS_PRIO_MAX && q != p :: rq'.lists[q] == rq.lists[q])
      && (forall u :: u in rq'.lists[p] <==> u in rq.lists[p])
  {
    assert rq.lists[p] == [rq.lists[p][0]] + rq.lists[p][1..];
  }
}
