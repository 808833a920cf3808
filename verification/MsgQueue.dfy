/** The message queue of core/queue.c: a ring of messages, and the protocol between tasks that
    pend with a timeout, tasks that post, and the delay timers. */
module MsgRing {

  class Ring<T(0)> {
    const slots: array<T>
    var qin: nat
    var qout: nat
    var cnt: nat

    ghost predicate Valid()
      reads this, slots
    {
      && cnt <= slots.Length
      && (slots.Length > 0 ==> qin < slots.Length && qout < slots.Length && qin == At(cnt))
    }

    /** The slot i places behind qout. */
    function At(i: nat): nat
      requires slots.Length > 0 && qout < slots.Length && i <= slots.Length
      reads this
    {
      if qout + i < slots.Length then qout + i else qout + i - slots.Length
    }

    /** The messages, the next one to be taken first. */
    ghost function Contents(): seq<T>
      requires Valid()
      reads this, slots
    {
      seq(cnt, i requires 0 <= i < cnt reads this, slots requires Valid() => slots[At(i)])
    }

    constructor (size: nat)
      ensures Valid() && fresh(slots) && slots.Length == size && Contents() == []
    {
      slots := new T[size];
      qin, qout, cnt := 0, 0, 0;
    }

    /** queue_pop */
    method Pop() returns (m: T)
      requires Valid() && cnt > 0
      modifies this
      ensures Valid() && [m] + Contents() == old(Contents())
    {
      ghost var was := Contents();
      m := slots[qout];
      qout, cnt := qout + 1, cnt - 1;
      if qout == slots.Length {
        qout := 0;
      }
      assert forall i | 0 <= i < cnt :: Contents()[i] == was[i + 1];
    }

    /** queue_push */
    method Push(m: T)
      requires Valid() && cnt < slots.Length
      modifies this, slots
      ensures Valid() && Contents() == old(Contents()) + [m]
    {
      slots[qin] := m;
      qin := qin + 1;
      if qin == slots.Length {
        qin := 0;
      }
      cnt := cnt + 1;
    }

    /** queue_push_front */
    method PushFront(m: T)
      requires Valid() && cnt < slots.Length
      modifies this, slots
      ensures Valid() && Contents() == [m] + old(Contents())
    {
      ghost var was := Contents();
      if qout == 0 {
        qout := slots.Length;
      }
      qout := qout - 1;
      slots[qout] := m;
      cnt := cnt + 1;
      assert forall i | 0 < i < cnt :: Contents()[i] == was[i - 1];
    }

    /** queue_flush */
    method Flush()
      requires Valid()
      modifies this
      ensures Valid() && Contents() == []
    {
      qin, qout, cnt := 0, 0, 0;
    }
  }
}

module MsgQueue {
  import opened Prelude

  type Tid = nat
  type Msg = int

  /** What a task is doing with the queue. Timing: a delay timer holds its s_lock to wake it with
      PEND_TO; Late: it has been woken that way and has not taken itself off the wait list yet. */
  datatype Stage = Idle | Waiting | Timing | Late | Handed(msg: Msg)

  datatype Post = Post(msg: Msg, front: bool)

  /** The queue and, as history, the messages accepted, taken out (popped or handed over) in that
      order, received by a caller, and flushed. */
  datatype Queue = Queue(
    cap: nat,
    ring: seq<Msg>,
    waiters: seq<Tid>,
    stage: seq<Stage>,
    post: Option<Post>,
    accepted: seq<Msg>,
    taken: seq<Msg>,
    received: multiset<Msg>,
    flushed: multiset<Msg>
  )

  datatype Step =
    | Pend(t: Tid)
    | Accept
    | Flush
    | TimerStart(t: Tid)
    | TimerDone(t: Tid)
    | Leave(t: Tid)
    | Collect(t: Tid)
    | PostStart(p: Post)
    | PostTry
    | PostPut

  /** The lock of the queue is held from PostStart to the end of the post; delay timers and the
      tasks they wake run meanwhile. */
  predicate Enabled(q: Queue, x: Step) {
    match x
    case Pend(t) => q.post.None? && t < |q.stage| && q.stage[t].Idle?
    case Accept => q.post.None?
    case Flush => q.post.None?
    case TimerStart(t) => t < |q.stage| && q.stage[t].Waiting?
    case TimerDone(t) => t < |q.stage| && q.stage[t].Timing?
    case Leave(t) => q.post.None? && t < |q.stage| && q.stage[t].Late?
    case Collect(t) => t < |q.stage| && q.stage[t].Handed?
    case PostStart(p) => q.post.None?
    case PostTry => q.post.Some? && q.waiters != [] && q.waiters[0] < |q.stage|
    case PostPut => q.post.Some? && q.waiters == []
  }

  function Popped(q: Queue): Queue
    requires q.ring != []
  {
    q.(ring := q.ring[1..], taken := q.taken + [q.ring[0]], received := q.received + multiset{q.ring[0]})
  }

  /** The next state. A post hands its message to the first waiter that can still be woken, and
      puts it into the ring when there is none. */
  function Apply(q: Queue, x: Step): Queue
    requires Enabled(q, x)
  {
    match x
    case Pend(t) => if q.ring != [] then Popped(q) else q.(waiters := q.waiters + [t], stage := q.stage[t := Waiting])
    case Accept => if q.ring != [] then Popped(q) else q
    case Flush => q.(ring := [], flushed := q.flushed + multiset(q.ring))
    case TimerStart(t) => q.(stage := q.stage[t := Timing])
    case TimerDone(t) => q.(stage := q.stage[t := Late])
    case Leave(t) => q.(stage := q.stage[t := Idle], waiters := Without(q.waiters, t))
    case Collect(t) => q.(stage := q.stage[t := Idle], received := q.received + multiset{q.stage[t].msg})
    case PostStart(p) => q.(post := Some(p))
    case PostTry =>
      var t, m := q.waiters[0], q.post.value.msg;
      if q.stage[t].Waiting? then
        q.(waiters := q.waiters[1..], stage := q.stage[t := Handed(m)], post := None,
           accepted := q.accepted + [m], taken := q.taken + [m])
      else q.(waiters := q.waiters[1..])
    case PostPut =>
      var m := q.post.value.msg;
      if |q.ring| >= q.cap then q.(post := None)
      else q.(ring := if q.post.value.front then [m] + q.ring else q.ring + [m], post := None, accepted := q.accepted + [m])
  }

  // ---- the invariant

  /** Messages handed over and not collected yet. */
  function HandedOver(ss: seq<Stage>): multiset<Msg> {
    if ss == [] then multiset{} else One(ss[0]) + HandedOver(ss[1..])
  }

  function One(s: Stage): multiset<Msg> {
    if s.Handed? then multiset{s.msg} else multiset{}
  }

  lemma {:induction false} HandedUpdate(ss: seq<Stage>, t: nat, s: Stage)
    requires t < |ss|
    ensures HandedOver(ss[t := s]) + One(ss[t]) == HandedOver(ss) + One(s)
  {
    if t == 0 {
      assert ss[t := s][1..] == ss[1..];
    } else {
      assert ss[t := s][1..] == ss[1..][t - 1 := s];
      HandedUpdate(ss[1..], t - 1, s);
      Swap(One(ss[0]), HandedOver(ss[1..][t - 1 := s]), One(ss[t]), HandedOver(ss[1..]), One(s));
    }
  }

  lemma Swap(a: multiset<Msg>, b: multiset<Msg>, c: multiset<Msg>, d: multiset<Msg>, e: multiset<Msg>)
    requires b + c == d + e
    ensures a + b + c == a + d + e
  {
    assert a + b + c == a + (b + c);
  }

  predicate OnList(s: Stage) {
    s.Waiting? || s.Timing? || s.Late?
  }

  /** Every waiting task is on the list, once, and only tasks that wait or have timed out are. */
  ghost predicate Listed(ws: seq<Tid>, ss: seq<Stage>) {
    && (forall t: Tid | t < |ss| && ss[t].Waiting? :: t in ws)
    && (forall i | 0 <= i < |ws| :: ws[i] < |ss| && OnList(ss[ws[i]]))
    && (forall i, j | 0 <= i < j < |ws| :: ws[i] != ws[j])
  }

  /** Nobody waits unseen: the list is empty while the ring is not. */
  ghost predicate Waits(q: Queue) {
    Listed(q.waiters, q.stage) && (q.ring != [] ==> q.waiters == [])
  }

  /** Every accepted message is in exactly one place. */
  ghost predicate Conserved(q: Queue) {
    && multiset(q.accepted) == multiset(q.ring) + HandedOver(q.stage) + q.received + q.flushed
    && multiset(q.taken) == HandedOver(q.stage) + q.received
  }

  ghost predicate Inv(q: Queue) {
    Waits(q) && Conserved(q) && |q.ring| <= q.cap
  }

  // ---- every step keeps it

  lemma ListedPend(ws: seq<Tid>, ss: seq<Stage>, t: Tid)
    requires Listed(ws, ss) && t < |ss| && ss[t].Idle?
    ensures Listed(ws + [t], ss[t := Waiting])
  {
    assert t !in ws;
    forall u: Tid | u < |ss| && ss[t := Waiting][u].Waiting? ensures u in ws + [t] {
      assert u == t || u in ws;
    }
  }

  lemma ListedStage(ws: seq<Tid>, ss: seq<Stage>, t: Tid, s: Stage)
    requires Listed(ws, ss) && t < |ss| && !s.Waiting? && (OnList(s) || t !in ws)
    ensures Listed(ws, ss[t := s])
  {
  }

  lemma ListedLeave(ws: seq<Tid>, ss: seq<Stage>, t: Tid)
    requires Listed(ws, ss) && t < |ss|
    ensures Listed(Without(ws, t), ss[t := Idle])
  {
    WithoutIs(ws, t);
    var vs := Without(ws, t);
    forall i | 0 <= i < |vs| ensures vs[i] < |ss| && OnList(ss[t := Idle][vs[i]]) {
      assert vs[i] in ws && vs[i] in vs;
    }
  }

  /** The first waiter leaves the list; it is not waiting any more. */
  lemma ListedTry(ws: seq<Tid>, ss: seq<Stage>, s: Stage)
    requires Listed(ws, ss) && ws != [] && !s.Waiting?
    ensures Listed(ws[1..], ss[ws[0] := s])
  {
    var rs := ss[ws[0] := s];
    forall u: Tid | u < |rs| && rs[u].Waiting? ensures u in ws[1..] {
      assert u in ws && u != ws[0];
    }
  }

  lemma WaitsKept(q: Queue, x: Step)
    requires Inv(q) && Enabled(q, x)
    ensures Waits(Apply(q, x))
  {
    match x
    case Pend(t) => ListedPend(q.waiters, q.stage, t);
    case Leave(t) => ListedLeave(q.waiters, q.stage, t);
    case TimerStart(t) => ListedStage(q.waiters, q.stage, t, Timing);
    case TimerDone(t) => ListedStage(q.waiters, q.stage, t, Late);
    case Collect(t) => ListedStage(q.waiters, q.stage, t, Idle);
    case PostTry =>
      var t := q.waiters[0];
      if q.stage[t].Waiting? {
        ListedTry(q.waiters, q.stage, Handed(q.post.value.msg));
      } else {
        ListedTry(q.waiters, q.stage, q.stage[t]);
        assert q.stage[t := q.stage[t]] == q.stage;
      }
    case _ =>
  }

  lemma PoppedKept(q: Queue)
    requires Conserved(q) && q.ring != []
    ensures Conserved(Popped(q))
  {
    assert q.ring == [q.ring[0]] + q.ring[1..];
  }

  lemma HandedSame(ss: seq<Stage>, t: nat, s: Stage)
    requires t < |ss| && !ss[t].Handed? && !s.Handed?
    ensures HandedOver(ss[t := s]) == HandedOver(ss)
  {
    HandedUpdate(ss, t, s);
    var a, b := HandedOver(ss[t := s]), HandedOver(ss);
    assert a + multiset{} == a && b + multiset{} == b;
  }

  /** Task t changes from one stage that holds no message to another. */
  lemma StageKept(q: Queue, t: Tid, s: Stage, ws: seq<Tid>)
    requires Conserved(q) && t < |q.stage| && !q.stage[t].Handed? && !s.Handed?
    ensures Conserved(q.(stage := q.stage[t := s], waiters := ws))
  {
    HandedSame(q.stage, t, s);
  }

  lemma CollectKept(q: Queue, t: Tid)
    requires Conserved(q) && t < |q.stage| && q.stage[t].Handed?
    ensures Conserved(q.(stage := q.stage[t := Idle], received := q.received + multiset{q.stage[t].msg}))
  {
    HandedUpdate(q.stage, t, Idle);
    assert HandedOver(q.stage) == HandedOver(q.stage[t := Idle]) + multiset{q.stage[t].msg};
  }

  lemma HandOver(q: Queue, t: Tid, m: Msg, ws: seq<Tid>)
    requires Conserved(q) && t < |q.stage| && !q.stage[t].Handed?
    ensures Conserved(q.(waiters := ws, stage := q.stage[t := Handed(m)], post := None,
                         accepted := q.accepted + [m], taken := q.taken + [m]))
  {
    HandedUpdate(q.stage, t, Handed(m));
    assert HandedOver(q.stage[t := Handed(m)]) == HandedOver(q.stage) + multiset{m};
  }

  lemma ConservedKept(q: Queue, x: Step)
    requires Inv(q) && Enabled(q, x)
    ensures Conserved(Apply(q, x))
  {
    match x
    case Pend(t) =>
      if q.ring != [] {
        PoppedKept(q);
      } else {
        StageKept(q, t, Waiting, q.waiters + [t]);
      }
    case Accept =>
      if q.ring != [] {
        PoppedKept(q);
      }
    case Flush =>
    case TimerStart(t) => StageKept(q, t, Timing, q.waiters);
    case TimerDone(t) => StageKept(q, t, Late, q.waiters);
    case Leave(t) => StageKept(q, t, Idle, Without(q.waiters, t));
    case Collect(t) => CollectKept(q, t);
    case PostStart(p) =>
    case PostTry =>
      if q.stage[q.waiters[0]].Waiting? {
        HandOver(q, q.waiters[0], q.post.value.msg, q.waiters[1..]);
      }
    case PostPut =>
  }

  // ---- runs

  predicate Next(q: Queue, x: Step, r: Queue) {
    Enabled(q, x) && r == Apply(q, x)
  }

  ghost predicate Start(q: Queue) {
    && q.ring == [] && q.waiters == [] && q.post.None? && q.accepted == [] && q.taken == []
    && q.received == multiset{} && q.flushed == multiset{} && forall t | 0 <= t < |q.stage| :: q.stage[t].Idle?
  }

  /** A run of the queue: its states and the steps between them. */
  ghost predicate IsRun(qs: seq<Queue>, xs: seq<Step>) {
    |qs| == |xs| + 1 && Start(qs[0]) && forall i | 0 <= i < |xs| :: Next(qs[i], xs[i], qs[i + 1])
  }

  lemma {:induction false} NoneHanded(ss: seq<Stage>)
    requires forall t | 0 <= t < |ss| :: ss[t].Idle?
    ensures HandedOver(ss) == multiset{}
  {
    if ss != [] {
      NoneHanded(ss[1..]);
    }
  }

  lemma {:induction false} RunKeeps(qs: seq<Queue>, xs: seq<Step>, i: nat)
    requires IsRun(qs, xs) && i <= |xs|
    ensures Inv(qs[i])
    decreases i
  {
    if i == 0 {
      NoneHanded(qs[0].stage);
    } else {
      RunKeeps(qs, xs, i - 1);
      assert Next(qs[i - 1], xs[i - 1], qs[i]);
      WaitsKept(qs[i - 1], xs[i - 1]);
      ConservedKept(qs[i - 1], xs[i - 1]);
    }
  }

  /** Over every run the accepted messages are those still in the ring, handed over and not
      collected yet, received, or flushed. */
  lemma Conservation(qs: seq<Queue>, xs: seq<Step>, i: nat)
    requires IsRun(qs, xs) && i <= |xs|
    ensures multiset(qs[i].accepted) ==
              multiset(qs[i].ring) + HandedOver(qs[i].stage) + qs[i].received + qs[i].flushed
    ensures |qs[i].ring| <= qs[i].cap
  {
    RunKeeps(qs, xs, i);
  }

  /** While the ring is not empty nobody waits. */
  lemma NobodyWaits(qs: seq<Queue>, xs: seq<Step>, i: nat, t: Tid)
    requires IsRun(qs, xs) && i <= |xs| && t < |qs[i].stage| && qs[i].ring != []
    ensures !qs[i].stage[t].Waiting? && qs[i].waiters == []
  {
    RunKeeps(qs, xs, i);
  }

  // ---- order

  predicate TailOnly(x: Step) {
    !x.Flush? && (x.PostStart? ==> !x.p.front)
  }

  ghost predicate Fifo(q: Queue) {
    q.accepted == q.taken + q.ring && (q.post.Some? ==> !q.post.value.front)
  }

  lemma FifoPop(taken: seq<Msg>, ring: seq<Msg>)
    requires ring != []
    ensures taken + ring == taken + [ring[0]] + ring[1..]
  {
  }

  lemma FifoPush(taken: seq<Msg>, ring: seq<Msg>, m: Msg)
    ensures taken + ring + [m] == taken + (ring + [m]) && taken + [] == taken && taken + [m] + [] == taken + [m]
  {
  }

  lemma FifoKept(q: Queue, x: Step)
    requires Waits(q) && Fifo(q) && Enabled(q, x) && TailOnly(x)
    ensures Fifo(Apply(q, x))
  {
    if (x.Pend? || x.Accept?) && q.ring != [] {
      FifoPop(q.taken, q.ring);
    } else if x.PostTry? || x.PostPut? {
      FifoPush(q.taken, q.ring, q.post.value.msg);
    }
  }

  /** With tail posts only, messages are taken out in the order in which they were accepted. */
  lemma {:induction false} PostOrder(qs: seq<Queue>, xs: seq<Step>, i: nat)
    requires IsRun(qs, xs) && i <= |xs| && forall j | 0 <= j < |xs| :: TailOnly(xs[j])
    ensures Fifo(qs[i])
    decreases i
  {
    if i > 0 {
      PostOrder(qs, xs, i - 1);
      RunKeeps(qs, xs, i - 1);
      assert Next(qs[i - 1], xs[i - 1], qs[i]);
      FifoKept(qs[i - 1], xs[i - 1]);
    }
  }
}

/** The ring in place does what the protocol says of its messages. */
module MsgRingSteps {
  import opened Prelude
  import opened MsgQueue
  import MsgRing

  /** The ring r holds the messages of q. */
  ghost predicate Same(r: MsgRing.Ring<Msg>, q: Queue)
    reads r, r.slots
  {
    r.Valid() && r.Contents() == q.ring && r.slots.Length == q.cap
  }

  /** queue_pend with a message there, queue_accept */
  method Take(r: MsgRing.Ring<Msg>, ghost q: Queue, ghost x: Step) returns (m: Option<Msg>)
    requires Same(r, q) && Enabled(q, x) && (x.Accept? || x.Pend?)
    modifies r
    ensures Same(r, Apply(q, x)) && m == if q.ring == [] then None else Some(q.ring[0])
  {
    assert r.cnt == |r.Contents()|;
    if r.cnt == 0 {
      return None;
    }
    var first := r.Pop();
    assert q.ring == [first] + r.Contents();
    m := Some(first);
  }

  /** __queue_post when nobody waits; ok is false exactly for a full ring. */
  method Put(r: MsgRing.Ring<Msg>, p: Post, ghost q: Queue) returns (ok: bool)
    requires Same(r, q) && Enabled(q, PostPut) && q.post == Some(p)
    modifies r, r.slots
    ensures Same(r, Apply(q, PostPut)) && (ok <==> |q.ring| < q.cap)
  {
    assert r.cnt == |r.Contents()|;
    ok := r.cnt < r.slots.Length;
    if ok {
      if p.front {
        r.PushFront(p.msg);
      } else {
        r.Push(p.msg);
      }
    }
  }

  /** queue_flush */
  method Clear(r: MsgRing.Ring<Msg>, ghost q: Queue)
    requires Same(r, q) && Enabled(q, Flush)
    modifies r
    ensures Same(r, Apply(q, Flush))
  {
    r.Flush();
  }

  /** Any step on the ring; the steps that are not above leave it alone. */
  method RingStep(r: MsgRing.Ring<Msg>, x: Step, p: Post, ghost q: Queue)
    requires Same(r, q) && Enabled(q, x) && (x.PostPut? ==> q.post == Some(p))
    modifies r, r.slots
    ensures Same(r, Apply(q, x))
  {
    match x {
      case Pend(_) => var _ := Take(r, q, x);
      case Accept => var _ := Take(r, q, x);
      case Flush => Clear(r, q);
      case PostPut => var _ := Put(r, p, q);
      case _ =>
    }
  }
}
