/** When a released area merges completely (virt/vmm.c). The search for neighbours stops at the
    first free area that is at least as large and no neighbour, so it depends on the order of the
    free list. */
module VmMerge {
  import opened VmArea

  predicate Disjoint(a: Area, b: Area) {
    a.end <= b.start || b.end <= a.start
  }

  /** No area is empty and none overlaps with another. */
  ghost predicate Solid(s: seq<Area>, va: Area) {
    && va.start < va.end && (forall i | 0 <= i < |s| :: s[i].start < s[i].end && Disjoint(s[i], va))
    && (forall i, j | 0 <= i < j < |s| :: Disjoint(s[i], s[j]))
  }

  /** No two areas are neighbours. */
  ghost predicate Apart(s: seq<Area>) {
    forall i, j | 0 <= i < j < |s| :: !Touch(s[i], s[j])
  }

  /** Address x is free. */
  ghost predicate Held(s: seq<Area>, x: nat) {
    exists i | 0 <= i < |s| :: s[i].start <= x < s[i].end
  }

  /** a lies behind va, or in front of it, and every address between them is free. */
  ghost predicate Reaches(s: seq<Area>, va: Area, a: Area) {
    || (va.end <= a.start && forall x: nat | va.end <= x < a.start :: Held(s, x))
    || (a.end <= va.start && forall x: nat | a.end <= x < va.start :: Held(s, x))
  }

  /** m lies on the same side of va as y and farther away. */
  predicate Beyond(va: Area, y: Area, m: Area) {
    (va.end <= y.start && y.end <= m.start) || (y.end <= va.start && m.end <= y.start)
  }

  /** An area that stands in the way of free[q]: large, and not to be merged before it. */
  ghost predicate InWay(free: seq<Area>, va: Area, size: int, p: nat, q: nat) {
    && p < q < |free| && Reaches(free, va, free[q]) && Len(free[p]) >= size
    && (!Reaches(free, va, free[p]) || Beyond(va, free[q], free[p]))
  }

  /** Nothing stands in the way of any area that free addresses connect with va. */
  ghost predicate InReach(free: seq<Area>, va: Area, size: int) {
    forall p, q :: !InWay(free, va, size, p, q)
  }

  // ---- one round of the search

  /** Where entry j of the list without entry i was. */
  function Was(i: nat, j: nat): nat {
    if j < i then j else j + 1
  }

  function Now(i: nat, j: nat): nat {
    if j <= i then j else j - 1
  }

  lemma RemovedIs(s: seq<Area>, i: nat)
    requires i < |s|
    ensures forall j | 0 <= j < |s| - 1 :: Removed(s, i)[j] == s[Was(i, j)]
  {
  }

  lemma RemovedApart(s: seq<Area>, i: nat)
    requires i < |s| && Apart(s)
    ensures Apart(Removed(s, i))
  {
    RemovedIs(s, i);
  }

  /** vb is va together with its neighbour a. */
  ghost predicate Joins(a: Area, va: Area, vb: Area) {
    || (va.start == a.end && vb == va.(start := a.start))
    || (va.end == a.start && vb == va.(end := a.end))
  }

  lemma SolidPair(s: seq<Area>, va: Area, i: nat, j: nat)
    requires Solid(s, va) && i < |s| && j < |s| && i != j
    ensures s[i].start < s[i].end && s[j].start < s[j].end && Disjoint(s[i], s[j]) && Disjoint(s[i], va) && Disjoint(s[j], va)
  {
    assert if i < j then Disjoint(s[i], s[j]) else Disjoint(s[j], s[i]);
  }

  lemma JoinedSolid(free: seq<Area>, i: nat, va: Area, vb: Area)
    requires i < |free| && Solid(free, va) && Joins(free[i], va, vb)
    ensures Solid(Removed(free, i), vb)
  {
    var r := Removed(free, i);
    RemovedIs(free, i);
    forall j | 0 <= j < |r| ensures Disjoint(r[j], vb) {
      SolidPair(free, va, i, Was(i, j));
    }
  }

  lemma HeldWithout(free: seq<Area>, i: nat, x: nat)
    requires i < |free| && !(free[i].start <= x < free[i].end)
    ensures Held(Removed(free, i), x) <==> Held(free, x)
  {
    var r := Removed(free, i);
    RemovedIs(free, i);
    if Held(free, x) {
      var j :| 0 <= j < |free| && free[j].start <= x < free[j].end;
      assert r[Now(i, j)] == free[j];
    }
    if Held(r, x) {
      var j :| 0 <= j < |r| && r[j].start <= x < r[j].end;
      assert free[Was(i, j)] == r[j];
    }
  }

  lemma JoinedReaches(free: seq<Area>, i: nat, va: Area, vb: Area, j: nat)
    requires i < |free| && j < |free| && j != i && Solid(free, va) && Joins(free[i], va, vb)
    ensures Reaches(Removed(free, i), vb, free[j]) <==> Reaches(free, va, free[j])
  {
    var r, a := Removed(free, i), free[j];
    SolidPair(free, va, i, j);
    forall x: nat | !(free[i].start <= x < free[i].end) ensures Held(r, x) <==> Held(free, x) {
      HeldWithout(free, i, x);
    }
    assert forall x: nat | free[i].start <= x < free[i].end :: Held(free, x);
    if Reaches(r, vb, a) {
      assert Reaches(free, va, a);
    }
    if Reaches(free, va, a) {
      assert Reaches(r, vb, a);
    }
  }

  lemma JoinedBeyond(a: Area, va: Area, vb: Area, y: Area, m: Area)
    requires a.start < a.end && va.start < va.end && y.start < y.end && m.start < m.end && Joins(a, va, vb)
    requires Disjoint(a, y) && Disjoint(va, y) && Disjoint(a, m) && Disjoint(va, m)
    ensures Beyond(vb, y, m) <==> Beyond(va, y, m)
  {
  }

  lemma JoinedInWay(free: seq<Area>, i: nat, va: Area, vb: Area, size: int, p: nat, q: nat)
    requires i < |free| && p < |free| && q < |free| && p != i && q != i && Solid(free, va) && Joins(free[i], va, vb)
    ensures InWay(Removed(free, i), vb, size, Now(i, p), Now(i, q)) <==> InWay(free, va, size, p, q)
  {
    RemovedIs(free, i);
    JoinedReaches(free, i, va, vb, p);
    JoinedReaches(free, i, va, vb, q);
    SolidPair(free, va, i, p);
    SolidPair(free, va, i, q);
    JoinedBeyond(free[i], va, vb, free[q], free[p]);
  }

  /** A neighbour in front of which everything is small stands in nobody's way, and nothing in its. */
  lemma NeighbourInWay(free: seq<Area>, i: nat, va: Area, size: int, p: nat, q: nat)
    requires i < |free| && Solid(free, va) && Touch(va, free[i]) && (p == i || q == i)
    requires forall j | 0 <= j < i :: Len(free[j]) < size
    ensures !InWay(free, va, size, p, q)
  {
    if p == i && q < |free| && q != i {
      SolidPair(free, va, i, q);
    }
  }

  lemma WayBefore(free: seq<Area>, i: nat, va: Area, vb: Area, size: int, p: nat, q: nat)
    requires i < |free| && Solid(free, va) && Joins(free[i], va, vb) && forall j | 0 <= j < i :: Len(free[j]) < size
    requires InWay(free, va, size, p, q)
    ensures InWay(Removed(free, i), vb, size, Now(i, p), Now(i, q))
  {
    if p == i || q == i {
      NeighbourInWay(free, i, va, size, p, q);
    }
    JoinedInWay(free, i, va, vb, size, p, q);
  }

  lemma WayAfter(free: seq<Area>, i: nat, va: Area, vb: Area, size: int, p: nat, q: nat)
    requires i < |free| && Solid(free, va) && Joins(free[i], va, vb) && InWay(Removed(free, i), vb, size, p, q)
    ensures InWay(free, va, size, Was(i, p), Was(i, q))
  {
    JoinedInWay(free, i, va, vb, size, Was(i, p), Was(i, q));
  }

  lemma JoinedReach(free: seq<Area>, i: nat, va: Area, vb: Area, size: int)
    requires i < |free| && Solid(free, va) && Joins(free[i], va, vb) && forall j | 0 <= j < i :: Len(free[j]) < size
    ensures InReach(Removed(free, i), vb, size) <==> InReach(free, va, size)
  {
    if p: nat, q: nat :| InWay(free, va, size, p, q) {
      WayBefore(free, i, va, vb, size, p, q);
    }
    if p: nat, q: nat :| InWay(Removed(free, i), vb, size, p, q) {
      WayAfter(free, i, va, vb, size, p, q);
    }
  }

  // ---- where the search stops

  /** Between va and an area it reaches there is a neighbour, or the area is one itself. */
  lemma Nearest(free: seq<Area>, va: Area, j: nat) returns (m: nat)
    requires Solid(free, va) && j < |free| && Reaches(free, va, free[j])
    ensures m < |free| && Touch(va, free[m]) && (m == j || Beyond(va, free[m], free[j]))
  {
    m := j;
    if !Touch(va, free[j]) {
      var x: nat := if va.end <= free[j].start then va.end else va.start - 1;
      assert Held(free, x);
      m :| 0 <= m < |free| && free[m].start <= x < free[m].end;
      SolidPair(free, va, m, j);
    }
  }

  /** The list has no neighbour of va up to the large area i: it is in reach exactly without any. */
  lemma StopReach(free: seq<Area>, va: Area, size: int, i: nat)
    requires Solid(free, va) && i <= |free| && (forall j | 0 <= j < i :: !Touch(va, free[j]))
    requires i < |free| ==> !Touch(va, free[i]) && Len(free[i]) >= size
    ensures InReach(free, va, size) <==> forall j | 0 <= j < |free| :: !Touch(va, free[j])
  {
    if j :| 0 <= j < |free| && Touch(va, free[j]) {
      var q: nat := j;
      if Reaches(free, va, free[i]) {
        q := Nearest(free, va, i);
      }
      assert InWay(free, va, size, i, q);
    } else {
      forall p: nat, q: nat ensures !InWay(free, va, size, p, q) {
        if q < |free| && Reaches(free, va, free[q]) {
          var m := Nearest(free, va, q);
        }
      }
    }
  }

  lemma InsertedIs(free: seq<Area>, i: nat, va: Area)
    requires i <= |free|
    ensures
      var r := free[..i] + [va] + free[i..];
      |r| == |free| + 1 && r[i] == va && forall j: nat | j < |free| :: r[Was(i, j)] == free[j]
  {
  }

  lemma InsertApart(free: seq<Area>, i: nat, va: Area)
    requires i <= |free| && Apart(free)
    ensures Apart(free[..i] + [va] + free[i..]) <==> forall j | 0 <= j < |free| :: !Touch(va, free[j])
  {
    var r := free[..i] + [va] + free[i..];
    assert r[i] == va && forall j | 0 <= j < |free| :: free[j] == r[if j < i then j else j + 1];
    if Apart(r) {
      forall j | 0 <= j < |free| ensures !Touch(va, free[j]) {
        assert if j < i then !Touch(r[j], r[i]) else !Touch(r[i], r[j + 1]);
      }
    }
  }

  /** Entry k of r has no neighbours. */
  ghost predicate Whole(r: seq<Area>, k: nat) {
    k < |r| && forall j | 0 <= j < |r| && j != k :: !Touch(r[k], r[j])
  }

  lemma InsertWhole(free: seq<Area>, i: nat, va: Area)
    requires i <= |free|
    ensures Whole(free[..i] + [va] + free[i..], i) <==> forall j | 0 <= j < |free| :: !Touch(va, free[j])
  {
    var r := free[..i] + [va] + free[i..];
    InsertedIs(free, i, va);
    if Whole(r, i) {
      forall j: nat | j < |free| ensures !Touch(va, free[j]) {
        assert !Touch(r[i], r[Was(i, j)]);
      }
    }
    if forall j | 0 <= j < |free| :: !Touch(va, free[j]) {
      forall j: nat | j < |r| && j != i ensures !Touch(r[i], r[j]) {
        assert r[j] == free[if j < i then j else j - 1];
      }
    }
  }

  /** The area that covers the released one has no neighbours exactly when nothing stands in the way;
      from a list without neighbours the search then makes one without neighbours. */
  lemma {:induction false} MergeExact(free: seq<Area>, va: Area, size: int, i: nat) returns (k: nat)
    requires i <= |free| && Solid(free, va)
    requires forall j | 0 <= j < i :: !Touch(va, free[j]) && Len(free[j]) < size
    ensures
      var r := Place(free, va, size, i);
      && k < |r| && r[k].start <= va.start && va.end <= r[k].end
      && (Whole(r, k) <==> InReach(free, va, size))
      && (Apart(free) ==> (Apart(r) <==> InReach(free, va, size)))
    decreases |free|, |free| - i
  {
    if i == |free| {
      assert free[..i] + [va] + free[i..] == free + [va];
      Stops(free, va, size, i);
      k := i;
    } else if Touch(va, free[i]) {
      var vb := if va.start == free[i].end then va.(start := free[i].start) else va.(end := free[i].end);
      JoinedSolid(free, i, va, vb);
      if Apart(free) {
        RemovedApart(free, i);
      }
      JoinedReach(free, i, va, vb, size);
      k := MergeExact(Removed(free, i), vb, size, 0);
    } else if size <= Len(free[i]) {
      Stops(free, va, size, i);
      k := i;
    } else {
      k := MergeExact(free, va, size, i + 1);
    }
  }

  lemma Stops(free: seq<Area>, va: Area, size: int, i: nat)
    requires Solid(free, va) && i <= |free| && (forall j | 0 <= j < i :: !Touch(va, free[j]))
    requires i < |free| ==> !Touch(va, free[i]) && Len(free[i]) >= size
    ensures
      var r := free[..i] + [va] + free[i..];
      && (Whole(r, i) <==> InReach(free, va, size)) && (Apart(free) ==> (Apart(r) <==> InReach(free, va, size)))
  {
    StopReach(free, va, size, i);
    InsertWhole(free, i, va);
    if Apart(free) {
      InsertApart(free, i, va);
    }
  }

  // ---- the areas of a VM

  lemma CountAt(s: seq<Area>, i: nat, x: nat)
    requires i < |s| && In(s[i], x) == 1
    ensures Count(s, x) >= 1
  {
    CountRemoved(s, i, x);
  }

  lemma CountBoth(s: seq<Area>, i: nat, j: nat, x: nat)
    requires i < j < |s| && In(s[i], x) == 1 && In(s[j], x) == 1
    ensures Count(s, x) >= 2
  {
    CountRemoved(s, i, x);
    assert Removed(s, i)[j - 1] == s[j];
    CountAt(Removed(s, i), j - 1, x);
  }

  function Higher(a: Area, b: Area): nat {
    if a.start < b.start then b.start else a.start
  }

  ghost predicate Filled(s: seq<Area>) {
    forall i | 0 <= i < |s| :: s[i].start < s[i].end
  }

  lemma PartitionDisjoint(free: seq<Area>, used: seq<Area>, limit: nat, i: nat, j: nat)
    requires Partition(free, used, limit) && Filled(free) && i < j < |free|
    ensures Disjoint(free[i], free[j])
  {
    if !Disjoint(free[i], free[j]) {
      CountBoth(free, i, j, Higher(free[i], free[j]));
    }
  }

  /** The areas of a partition do not overlap. */
  lemma PartitionSolid(free: seq<Area>, used: seq<Area>, limit: nat, k: nat)
    requires Partition(free, used, limit) && k < |used| && used[k].start < used[k].end
    requires Filled(free)
    ensures Solid(free, used[k].(flags := 0))
  {
    forall i | 0 <= i < |free| ensures Disjoint(free[i], used[k]) {
      if !Disjoint(free[i], used[k]) {
        var x := Higher(free[i], used[k]);
        CountAt(free, i, x);
        CountAt(used, k, x);
      }
    }
    forall i, j | 0 <= i < j < |free| ensures Disjoint(free[i], free[j]) {
      PartitionDisjoint(free, used, limit, i, j);
    }
  }

  /** release_vmm_area on an address space without empty areas: the area that covers the released one
      has no neighbours exactly when nothing stood in the way. */
  lemma ReleaseMerges(free: seq<Area>, used: seq<Area>, limit: nat, i: nat) returns (k: nat)
    requires Partition(free, used, limit) && Filled(free) && i < |used| && used[i].start < used[i].end
    ensures
      var va, size := used[i].(flags := 0), Len(used[i]);
      var r := Place(free, va, size, 0);
      && k < |r| && r[k].start <= va.start && va.end <= r[k].end
      && (Whole(r, k) <==> InReach(free, va, size))
      && (Apart(free) ==> (Apart(r) <==> InReach(free, va, size)))
  {
    PartitionSolid(free, used, limit, i);
    k := MergeExact(free, used[i].(flags := 0), Len(used[i]), 0);
  }

  /** A large free area in front of a neighbour: two neighbours stay unmerged. */
  lemma ReleaseLeavesNeighbours()
    ensures
      var free, va := [Area(0x4000, 0x8000, 0), Area(0, 0x1000, 0)], Area(0x1000, 0x2000, 0);
      Solid(free, va) && Apart(free) && Place(free, va, 0x1000, 0) == [va] + free && Touch(va, free[1])
  {
    var free, va := [Area(0x4000, 0x8000, 0), Area(0, 0x1000, 0)], Area(0x1000, 0x2000, 0);
    assert free[..0] + [va] + free[0..] == [va] + free;
  }

  // ---- over every run

  datatype Space = Space(free: seq<Area>, used: seq<Area>)

  /** What the methods of `Mm` do to the two lists. */
  datatype Op = Take(i: nat, base: nat, end: nat, flags: nat) | Give(i: nat)

  predicate Can(m: Space, x: Op) {
    match x
    case Take(i, base, end, _) => i < |m.free| && m.free[i].start <= base <= end <= m.free[i].end
    case Give(i) => i < |m.used|
  }

  function Do(m: Space, x: Op): Space
    requires Can(m, x)
  {
    match x
    case Take(i, base, end, flags) => Space(Rests(m.free[i], base, end) + Removed(m.free, i), m.used + [Area(base, end, flags)])
    case Give(i) => Space(Place(m.free, m.used[i].(flags := 0), Len(m.used[i]), 0), Removed(m.used, i))
  }

  /** A run from one free area over the whole address space. */
  ghost predicate Run(ms: seq<Space>, xs: seq<Op>, limit: nat) {
    && |ms| == |xs| + 1 && limit > 0 && ms[0] == Space([Area(0, limit, 0)], [])
    && forall i | 0 <= i < |xs| :: Can(ms[i], xs[i]) && ms[i + 1] == Do(ms[i], xs[i])
  }

  ghost predicate Sound(m: Space, limit: nat) {
    Formed(m.free) && Formed(m.used) && Partition(m.free, m.used, limit)
  }

  /** No free areas are neighbours, and no area is empty. */
  ghost predicate Tidy(m: Space) {
    Apart(m.free) && Filled(m.free) && Filled(m.used)
  }

  /** A request for something, or a release with nothing in the way. */
  ghost predicate Gentle(m: Space, x: Op)
    requires Can(m, x)
  {
    match x
    case Take(_, base, end, _) => base < end
    case Give(i) => InReach(m.free, m.used[i].(flags := 0), Len(m.used[i]))
  }

  lemma StepSound(m: Space, x: Op, limit: nat)
    requires Sound(m, limit) && Can(m, x)
    ensures Sound(Do(m, x), limit)
  {
    match x
    case Take(i, base, end, flags) => SplitKeeps(m.free, m.used, limit, i, base, end, flags);
    case Give(i) => PlaceKeeps(m.free, m.used, limit, i);
  }

  lemma {:induction false} PlaceFilled(free: seq<Area>, va: Area, size: int, i: nat)
    requires i <= |free| && Filled(free) && va.start < va.end
    ensures Filled(Place(free, va, size, i))
    decreases |free|, |free| - i
  {
    if i < |free| && va.start == free[i].end {
      PlaceFilled(Removed(free, i), va.(start := free[i].start), size, 0);
    } else if i < |free| && va.end == free[i].start {
      PlaceFilled(Removed(free, i), va.(end := free[i].end), size, 0);
    } else if i < |free| && size > Len(free[i]) {
      PlaceFilled(free, va, size, i + 1);
    }
  }

  /** A piece of an area keeps the others from touching what is left of it. */
  lemma SplitApart(free: seq<Area>, i: nat, base: nat, end: nat)
    requires i < |free| && Apart(free) && Filled(free) && (forall j, m | 0 <= j < m < |free| :: Disjoint(free[j], free[m]))
    requires free[i].start <= base < end <= free[i].end
    ensures Apart(Rests(free[i], base, end) + Removed(free, i))
  {
    var rests, others := Rests(free[i], base, end), Removed(free, i);
    var r, n := rests + others, |rests|;
    RemovedIs(free, i);
    RemovedApart(free, i);
    forall p, q | 0 <= p < q < |r| ensures !Touch(r[p], r[q]) {
      if p >= n {
        assert !Touch(others[p - n], others[q - n]);
      } else if q >= n {
        RestApart(free, i, Was(i, q - n), base, end);
      }
    }
  }

  lemma RestApart(free: seq<Area>, i: nat, j: nat, base: nat, end: nat)
    requires i < |free| && j < |free| && i != j && Apart(free) && Filled(free)
    requires forall j, m | 0 <= j < m < |free| :: Disjoint(free[j], free[m])
    requires free[i].start <= base < end <= free[i].end
    ensures forall a | a in Rests(free[i], base, end) :: !Touch(a, free[j])
  {
    assert if i < j then !Touch(free[i], free[j]) && Disjoint(free[i], free[j]) else !Touch(free[j], free[i]) && Disjoint(free[j], free[i]);
  }

  lemma FreeDisjoint(m: Space, limit: nat)
    requires Sound(m, limit) && Filled(m.free)
    ensures forall i, j | 0 <= i < j < |m.free| :: Disjoint(m.free[i], m.free[j])
  {
    forall i, j | 0 <= i < j < |m.free| ensures Disjoint(m.free[i], m.free[j]) {
      PartitionDisjoint(m.free, m.used, limit, i, j);
    }
  }

  lemma TakeTidy(m: Space, x: Op, limit: nat)
    requires Sound(m, limit) && Tidy(m) && x.Take? && Can(m, x)
    ensures Tidy(Do(m, x)) <==> Gentle(m, x)
  {
    if x.base < x.end {
      FreeDisjoint(m, limit);
      SplitApart(m.free, x.i, x.base, x.end);
    } else {
      assert Do(m, x).used[|m.used|] == Area(x.base, x.end, x.flags);
    }
  }

  lemma GiveTidy(m: Space, x: Op, limit: nat)
    requires Sound(m, limit) && Tidy(m) && x.Give? && Can(m, x)
    ensures Tidy(Do(m, x)) <==> Gentle(m, x)
  {
    var k := ReleaseMerges(m.free, m.used, limit, x.i);
    PlaceFilled(m.free, m.used[x.i].(flags := 0), Len(m.used[x.i]), 0);
  }

  lemma StepTidy(m: Space, x: Op, limit: nat)
    requires Sound(m, limit) && Tidy(m) && Can(m, x)
    ensures Tidy(Do(m, x)) <==> Gentle(m, x)
  {
    if x.Take? {
      TakeTidy(m, x, limit);
    } else {
      GiveTidy(m, x, limit);
    }
  }

  lemma StartSound(limit: nat)
    requires limit > 0
    ensures Sound(Space([Area(0, limit, 0)], []), limit) && Tidy(Space([Area(0, limit, 0)], []))
  {
    forall x: nat ensures Count([Area(0, limit, 0)], x) + Count([], x) == (if x < limit then 1 else 0) {
      CountOne(Area(0, limit, 0), x);
    }
  }

  lemma {:induction false} RunSound(ms: seq<Space>, xs: seq<Op>, limit: nat, i: nat)
    requires Run(ms, xs, limit) && i <= |xs|
    ensures Sound(ms[i], limit)
  {
    StartSound(limit);
    if i > 0 {
      RunSound(ms, xs, limit, i - 1);
      assert ms[i - 1 + 1] == Do(ms[i - 1], xs[i - 1]);
      StepSound(ms[i - 1], xs[i - 1], limit);
    }
  }

  /** Over every run: the address space is tidy in every state exactly when no request was for nothing
      and no release had anything in the way. */
  lemma {:induction false} TidyIff(ms: seq<Space>, xs: seq<Op>, limit: nat, n: nat)
    requires Run(ms, xs, limit) && n <= |xs|
    ensures (forall i | 0 <= i <= n :: Tidy(ms[i])) <==> (forall i | 0 <= i < n :: Gentle(ms[i], xs[i]))
  {
    StartSound(limit);
    if n > 0 {
      TidyIff(ms, xs, limit, n - 1);
      RunSound(ms, xs, limit, n - 1);
      assert ms[n - 1 + 1] == Do(ms[n - 1], xs[n - 1]);
      if Tidy(ms[n - 1]) {
        StepTidy(ms[n - 1], xs[n - 1], limit);
      }
    }
  }
}
