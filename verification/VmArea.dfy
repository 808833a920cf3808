/** The guest address space of a VM as two lists of areas (virt/vmm.c): splitting a free area,
    aligned allocation, and release with merging. Every address is in exactly one area at all
    times. */
module VmArea {
  import opened Prelude

  const PAGE_SIZE: nat := 0x1000
  const PAGE_MASK: nat := 0xfff
  const BLOCK_MASK: nat := 0x1f_ffff

  datatype Area = Area(start: nat, end: nat, flags: nat)

  function Len(a: Area): int {
    a.end - a.start
  }

  function In(a: Area, x: nat): nat {
    if a.start <= x < a.end then 1 else 0
  }

  /** How many areas contain the address x. */
  function Count(s: seq<Area>, x: nat): nat {
    if s == [] then 0 else In(s[0], x) + Count(s[1..], x)
  }

  lemma {:induction false} CountAppend(s: seq<Area>, t: seq<Area>, x: nat)
    ensures Count(s + t, x) == Count(s, x) + Count(t, x)
  {
    if s == [] {
      assert s + t == t;
    } else {
      assert (s + t)[1..] == s[1..] + t;
      CountAppend(s[1..], t, x);
    }
  }

  lemma CountOne(a: Area, x: nat)
    ensures Count([a], x) == In(a, x)
  {
    assert [a][1..] == [];
  }

  function Removed(s: seq<Area>, i: nat): seq<Area>
    requires i < |s|
  {
    s[..i] + s[i + 1..]
  }

  lemma CountRemoved(s: seq<Area>, i: nat, x: nat)
    requires i < |s|
    ensures Count(s, x) == Count(Removed(s, i), x) + In(s[i], x)
  {
    assert s == s[..i] + [s[i]] + s[i + 1..];
    CountAppend(s[..i] + [s[i]], s[i + 1..], x);
    CountAppend(s[..i], [s[i]], x);
    CountAppend(s[..i], s[i + 1..], x);
    CountOne(s[i], x);
  }

  ghost predicate Formed(s: seq<Area>) {
    forall i | 0 <= i < |s| :: s[i].start <= s[i].end
  }

  /** Every address below limit is in exactly one area of the two lists, no other address is in
      any. */
  ghost predicate Partition(free: seq<Area>, used: seq<Area>, limit: nat) {
    forall x: nat :: Count(free, x) + Count(used, x) == (if x < limit then 1 else 0)
  }

  // ---- placing a released area

  /** What __add_free_vmm_area does with the area va from list position i on: merge and start
      again, insert before the first area that is not smaller than va was, or append. */
  function Place(free: seq<Area>, va: Area, size: int, i: nat): (r: seq<Area>)
    requires i <= |free|
    decreases |free|, |free| - i
  {
    if i == |free| then free + [va]
    else if va.start == free[i].end then Place(Removed(free, i), va.(start := free[i].start), size, 0)
    else if va.end == free[i].start then Place(Removed(free, i), va.(end := free[i].end), size, 0)
    else if size <= Len(free[i]) then free[..i] + [va] + free[i..]
    else Place(free, va, size, i + 1)
  }

  /** No address is lost or doubled. */
  lemma {:induction false} PlaceCounts(free: seq<Area>, va: Area, size: int, i: nat, x: nat)
    requires i <= |free| && Formed(free) && va.start <= va.end
    ensures Formed(Place(free, va, size, i))
    ensures Count(Place(free, va, size, i), x) == Count(free, x) + In(va, x)
    decreases |free|, |free| - i
  {
    if i == |free| {
      CountAppend(free, [va], x);
      CountOne(va, x);
    } else if va.start == free[i].end {
      CountRemoved(free, i, x);
      PlaceCounts(Removed(free, i), va.(start := free[i].start), size, 0, x);
    } else if va.end == free[i].start {
      CountRemoved(free, i, x);
      PlaceCounts(Removed(free, i), va.(end := free[i].end), size, 0, x);
    } else if size <= Len(free[i]) {
      assert free == free[..i] + free[i..];
      CountAppend(free[..i], free[i..], x);
      CountAppend(free[..i] + [va], free[i..], x);
      CountAppend(free[..i], [va], x);
      CountOne(va, x);
    } else {
      PlaceCounts(free, va, size, i + 1, x);
    }
  }

  /** The released area lies inside one free area afterwards. */
  lemma {:induction false} PlaceCovers(free: seq<Area>, va: Area, size: int, i: nat) returns (k: nat)
    requires i <= |free| && Formed(free) && va.start <= va.end
    ensures k < |Place(free, va, size, i)|
    ensures Place(free, va, size, i)[k].start <= va.start && va.end <= Place(free, va, size, i)[k].end
    decreases |free|, |free| - i
  {
    if i == |free| {
      k := i;
    } else if va.start == free[i].end {
      k := PlaceCovers(Removed(free, i), va.(start := free[i].start), size, 0);
    } else if va.end == free[i].start {
      k := PlaceCovers(Removed(free, i), va.(end := free[i].end), size, 0);
    } else if size <= Len(free[i]) {
      k := i;
    } else {
      k := PlaceCovers(free, va, size, i + 1);
    }
  }

  ghost predicate Touch(a: Area, b: Area) {
    a.start == b.end || a.end == b.start
  }

  /** An area larger than every free one merges with all its neighbours: the area that covers it
      touches no other free area. */
  lemma {:induction false} LargestMerges(free: seq<Area>, va: Area, size: int, i: nat) returns (k: nat)
    requires i <= |free| && Formed(free) && va.start <= va.end
    requires forall j | 0 <= j < |free| :: Len(free[j]) < size
    requires forall j | 0 <= j < i :: !Touch(va, free[j])
    ensures
      var r := Place(free, va, size, i);
      && k < |r| && r[k].start <= va.start && va.end <= r[k].end
      && forall j | 0 <= j < |r| && j != k :: !Touch(r[k], r[j])
    decreases |free|, |free| - i
  {
    if i == |free| {
      k := i;
    } else if va.start == free[i].end {
      k := LargestMerges(Removed(free, i), va.(start := free[i].start), size, 0);
    } else if va.end == free[i].start {
      k := LargestMerges(Removed(free, i), va.(end := free[i].end), size, 0);
    } else {
      k := LargestMerges(free, va, size, i + 1);
    }
  }

  // ---- allocation

  /** The alignment asked for: a block if the mask is BLOCK_MASK, a page otherwise. */
  predicate Aligned(b: nat, mask: nat) {
    if mask == BLOCK_MASK then b % 0x20_0000 == 0 else b % 0x1000 == 0
  }

  /** (x + mask) & ~mask */
  function AlignUp(x: nat, mask: nat): nat {
    if mask == BLOCK_MASK then (x + 0x1f_ffff) / 0x20_0000 * 0x20_0000 else (x + 0xfff) / 0x1000 * 0x1000
  }

  /** BALIGN(size, PAGE_SIZE) on 64 bits. */
  function PageRound(size: nat): nat {
    (size + PAGE_MASK) % TWO64 / 0x1000 * 0x1000
  }

  /** Some aligned place for size bytes is inside the area. */
  ghost predicate CanHold(a: Area, size: nat, mask: nat) {
    exists b: nat :: Aligned(b, mask) && a.start <= b && b + size <= a.end
  }

  lemma AlignedLeast(x: nat, mask: nat, b: nat)
    ensures AlignUp(x, mask) >= x && Aligned(AlignUp(x, mask), mask)
    ensures Aligned(b, mask) && x <= b ==> AlignUp(x, mask) <= b
  {
  }

  /** The test of __alloc_free_vmm_area is exact. */
  lemma HoldsIff(a: Area, size: nat, mask: nat)
    ensures CanHold(a, size, mask) <==> AlignUp(a.start, mask) + size <= a.end
  {
    AlignedLeast(a.start, mask, AlignUp(a.start, mask));
    if CanHold(a, size, mask) {
      var b: nat :| Aligned(b, mask) && a.start <= b && b + size <= a.end;
      AlignedLeast(a.start, mask, b);
    }
  }

  // ---- splitting a free area

  /** The new free entries of __split_vmm_area; the right one ends up first. */
  function Rests(a: Area, base: nat, end: nat): seq<Area> {
    (if end < a.end then [Area(end, a.end, 0)] else []) + (if a.start < base then [Area(a.start, base, 0)] else [])
  }

  lemma RestsCount(a: Area, base: nat, end: nat, flags: nat, x: nat)
    requires a.start <= base <= end <= a.end
    ensures Count(Rests(a, base, end), x) + In(Area(base, end, flags), x) == In(a, x)
    ensures Formed(Rests(a, base, end))
  {
    CountAppend(if end < a.end then [Area(end, a.end, 0)] else [], if a.start < base then [Area(a.start, base, 0)] else [], x);
    CountOne(Area(end, a.end, 0), x);
    CountOne(Area(a.start, base, 0), x);
  }

  lemma SplitKeeps(free: seq<Area>, used: seq<Area>, limit: nat, i: nat, base: nat, end: nat, flags: nat)
    requires Formed(free) && Formed(used) && Partition(free, used, limit)
    requires i < |free| && free[i].start <= base <= end <= free[i].end
    ensures
      var free', used' := Rests(free[i], base, end) + Removed(free, i), used + [Area(base, end, flags)];
      Formed(free') && Formed(used') && Partition(free', used', limit)
  {
    var rests, va := Rests(free[i], base, end), Area(base, end, flags);
    forall x: nat ensures Count(rests + Removed(free, i), x) + Count(used + [va], x) == (if x < limit then 1 else 0) {
      CountAppend(rests, Removed(free, i), x);
      CountRemoved(free, i, x);
      RestsCount(free[i], base, end, flags, x);
      CountAppend(used, [va], x);
      CountOne(va, x);
    }
    RestsCount(free[i], base, end, flags, 0);
  }

  lemma PlaceKeeps(free: seq<Area>, used: seq<Area>, limit: nat, i: nat)
    requires Formed(free) && Formed(used) && Partition(free, used, limit) && i < |used|
    ensures
      var free' := Place(free, used[i].(flags := 0), Len(used[i]), 0);
      Formed(free') && Formed(Removed(used, i)) && Partition(free', Removed(used, i), limit)
  {
    var va, size := used[i].(flags := 0), Len(used[i]);
    forall x: nat ensures Count(Place(free, va, size, 0), x) + Count(Removed(used, i), x) == (if x < limit then 1 else 0) {
      PlaceCounts(free, va, size, 0, x);
      CountRemoved(used, i, x);
    }
    PlaceCounts(free, va, size, 0, 0);
  }

  predicate Over(a: Area, base: nat, end: nat) {
    a.start <= base && end <= a.end
  }

  /** The first area over [base, end), or |s|. */
  function FirstOver(s: seq<Area>, base: nat, end: nat): (i: nat)
    ensures i <= |s| && (i < |s| ==> Over(s[i], base, end)) && forall j | 0 <= j < i :: !Over(s[j], base, end)
  {
    if s == [] || Over(s[0], base, end) then 0 else FirstOver(s[1..], base, end) + 1
  }

  class Mm {
    const limit: nat
    var free: seq<Area>
    var used: seq<Area>

    ghost predicate Valid()
      reads this
    {
      Formed(free) && Formed(used) && Partition(free, used, limit)
    }

    /** vmm_area_init: one free area over the whole space of 1 TB or 4 GB. */
    constructor (bit64: bool)
      ensures Valid() && limit == (if bit64 then 0x100_0000_0000 else 0x1_0000_0000) && used == []
    {
      limit := if bit64 then 0x100_0000_0000 else 0x1_0000_0000;
      free, used := [Area(0, if bit64 then 0x100_0000_0000 else 0x1_0000_0000, 0)], [];
      new;
      forall x: nat ensures Count(free, x) + Count(used, x) == (if x < limit then 1 else 0) {
        CountOne(Area(0, limit, 0), x);
      }
    }

    /** __split_vmm_area on the free area i. leftOk and rightOk say whether a new entry can be
        allocated where one is needed. */
    method Split(i: nat, base: nat, end: nat, flags: nat, leftOk: bool, rightOk: bool) returns (r: Option<Area>)
      requires Valid() && i < |free| && free[i].start <= base <= end <= free[i].end
      modifies this
      ensures Valid()
      ensures r.None? <==> old((free[i].start < base && !leftOk) || (end < free[i].end && !rightOk))
      ensures r.None? ==> unchanged(this)
      ensures r.Some? ==> r.value == Area(base, end, flags) && used == old(used) + [r.value]
      ensures r.Some? ==> free == old(Rests(free[i], base, end) + Removed(free, i))
    {
      var vma := free[i];
      r := None;
      var left, right := [], [];
      if vma.start < base {
        if !leftOk {
          return;
        }
        left := [Area(vma.start, base, 0)];
      }
      if end < vma.end {
        if !rightOk {
          return;
        }
        right := [Area(end, vma.end, 0)];
      }
      SplitKeeps(free, used, limit, i, base, end, flags);
      free := right + left + Removed(free, i);
      used := used + [Area(base, end, flags)];
      r := Some(Area(base, end, flags));
    }

    /** alloc_free_vmm_area. At list position i a new entry left or right of the area cannot be
        allocated when i is in noLeft or noRight. */
    method AllocFree(size: nat, mask: nat, flags: nat, noLeft: set<nat>, noRight: set<nat>) returns (r: Option<Area>)
      requires Valid()
      modifies this
      ensures Valid()
      ensures r.None? ==> unchanged(this)
      ensures noLeft == {} && noRight == {} ==> (r.None? <==> forall i | 0 <= i < |old(free)| :: !CanHold(old(free)[i], PageRound(size), mask))
      ensures r.None? ==> forall i | 0 <= i < |free| :: CanHold(free[i], PageRound(size), mask) ==> i in noLeft + noRight
      ensures r.Some? ==> Aligned(r.value.start, mask) && Len(r.value) == PageRound(size) && r.value.flags == flags
      ensures r.Some? ==> used == old(used) + [r.value]
      ensures r.Some? ==> exists i | 0 <= i < |old(free)| ::
                && old(free)[i].start <= r.value.start && r.value.end <= old(free)[i].end
                && free == Rests(old(free)[i], r.value.start, r.value.end) + Removed(old(free), i)
    {
      var n := PageRound(size);
      var i := 0;
      r := None;
      while i < |free| && r.None?
        invariant i <= |old(free)| && Valid()
        invariant r.None? ==> unchanged(this)
        invariant r.None? ==> forall j | 0 <= j < i :: CanHold(free[j], n, mask) ==> j in noLeft + noRight
        invariant r.Some? ==> i < |old(free)| && CanHold(old(free)[i], n, mask)
        invariant r.Some? ==> Aligned(r.value.start, mask) && Len(r.value) == n && r.value.flags == flags
        invariant r.Some? ==> used == old(used) + [r.value] && old(free)[i].start <= r.value.start && r.value.end <= old(free)[i].end
        invariant r.Some? ==> free == Rests(old(free)[i], r.value.start, r.value.end) + Removed(old(free), i)
        decreases |old(free)| - i, r.None?
      {
        HoldsIff(free[i], n, mask);
        if Len(free[i]) >= n {
          var base := AlignUp(free[i].start, mask);
          if base >= free[i].start && base + n <= free[i].end {
            AlignedLeast(free[i].start, mask, base);
            r := Split(i, base, base + n, flags, i !in noLeft, i !in noRight);
          }
        }
        if r.None? {
          i := i + 1;
        }
      }
    }

    /** split_vmm_area */
    method SplitArea(base: nat, size: nat, normal: bool, flags: nat, leftOk: bool, rightOk: bool) returns (r: Option<Area>)
      requires Valid() && base + size < TWO64
      modifies this
      ensures Valid()
      ensures r.None? ==> unchanged(this)
      ensures r.Some? ==> r.value == Area(base, base + size, flags) && used == old(used) + [r.value]
      ensures var i := FirstOver(old(free), base, base + size);
              && (r.Some? <==>
                  && !(normal && (base % PAGE_SIZE != 0 || size % PAGE_SIZE != 0)) && i < |old(free)|
                  && (old(free)[i].start < base ==> leftOk) && (base + size < old(free)[i].end ==> rightOk))
              && (r.Some? ==> free == Rests(old(free)[i], base, base + size) + Removed(old(free), i))
    {
      r := None;
      if normal && (base % PAGE_SIZE != 0 || size % PAGE_SIZE != 0) {
        return;
      }
      var end, i := base + size, 0;
      while i < |free| && !(base >= free[i].start && end <= free[i].end)
        invariant i <= |free| && unchanged(this)
        invariant forall j | 0 <= j < i :: !Over(free[j], base, end)
      {
        i := i + 1;
      }
      if i < |free| {
        r := Split(i, base, end, flags, leftOk, rightOk);
      }
    }

    /** release_vmm_area: the used area i goes back and merges with its neighbours. */
    method Release(i: nat)
      requires Valid() && i < |used|
      modifies this
      ensures Valid() && used == old(Removed(used, i))
      ensures free == old(Place(free, used[i].(flags := 0), Len(used[i]), 0))
      ensures exists k | 0 <= k < |free| :: free[k].start <= old(used[i].start) && old(used[i].end) <= free[k].end
    {
      PlaceKeeps(free, used, limit, i);
      ghost var k := PlaceCovers(free, used[i].(flags := 0), Len(used[i]), 0);
      ghost var placed := Place(free, used[i].(flags := 0), Len(used[i]), 0);
      var va, size := used[i].(flags := 0), Len(used[i]);
      used := Removed(used, i);
      var j, done := 0, false;
      while !done
        invariant j <= |free|
        invariant placed == (if done then free else Place(free, va, size, j))
        invariant used == old(Removed(used, i))
        decreases !done, |free|, |free| - j
      {
        if j == |free| {
          free, done := free + [va], true;
        } else if va.start == free[j].end {
          va := va.(start := free[j].start);
          free, j := Removed(free, j), 0;
        } else if va.end == free[j].start {
          va := va.(end := free[j].end);
          free, j := Removed(free, j), 0;
        } else if size <= Len(free[j]) {
          free, done := free[..j] + [va] + free[j..], true;
        } else {
          j := j + 1;
        }
      }
      assert free[k] == placed[k];
    }
  }
}
