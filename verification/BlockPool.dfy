/** The allocator of 2 MB memory blocks (virt/vmm.c): sections with one bit per block. A bit is set
    exactly for a block that is handed out, no block is handed out twice, and the counters are the
    numbers of clear bits. */
module BlockPool {
  import opened Prelude
  import opened FindBit

  const BLOCK: nat := 0x20_0000

  /** struct block_section; the list of sections is a sequence. A section starts at a multiple of
      the block size: `first` is the frame number of its first block. */
  datatype Section = Section(first: nat, total: nat, free: nat, cur: nat, words: seq<Word>)

  /** The bitmap is large enough. */
  predicate Fits(s: Section) {
    s.total <= 64 * |s.words|
  }

  /** The bits of the bitmap as a plain sequence. */
  function Bits(s: Section): (bits: seq<bool>)
    requires Fits(s)
    ensures |bits| == s.total
  {
    seq(s.total, k requires 0 <= k < s.total => Bit(s.words, k))
  }

  function Start(s: Section): nat {
    s.first * BLOCK
  }

  function End(s: Section): nat {
    (s.first + s.total) * BLOCK
  }

  // ---- one section

  /** The clear bits. */
  function Clears(bits: seq<bool>): nat {
    if bits == [] then 0 else (if bits[0] then 0 else 1) + Clears(bits[1..])
  }

  lemma {:induction false} ClearsWith(bits: seq<bool>, k: nat, v: bool)
    requires k < |bits| && bits[k] != v
    ensures Clears(bits[k := v]) == Clears(bits) + (if v then -1 else 1)
  {
    if k == 0 {
      assert bits[k := v][1..] == bits[1..];
    } else {
      assert bits[k := v][1..] == bits[1..][k - 1 := v];
      ClearsWith(bits[1..], k - 1, v);
    }
  }

  lemma {:induction false} ClearsZero(bits: seq<bool>)
    ensures Clears(bits) == 0 <==> forall k | 0 <= k < |bits| :: bits[k]
    ensures (forall k | 0 <= k < |bits| :: !bits[k]) ==> Clears(bits) == |bits|
  {
    if bits != [] {
      ClearsZero(bits[1..]);
      assert forall k | 0 < k < |bits| :: bits[k] == bits[1..][k - 1];
    }
  }

  ghost predicate Sound(s: Section) {
    Fits(s) && s.free == Clears(Bits(s))
  }

  predicate Has(s: Section, bfn: nat) {
    s.first <= bfn < s.first + s.total
  }

  predicate TakenIn(s: Section, bfn: nat)
    requires Fits(s)
  {
    Has(s, bfn) && Bits(s)[bfn - s.first]
  }

  /** The section with the bit of block k changed by set_bit or clear_bit. */
  function Change(s: Section, k: nat, v: bool): Section
    requires Fits(s) && k < s.total && (v ==> s.free > 0)
  {
    s.(words := s.words[k / 64 := s.words[k / 64][k % 64 := v]], free := if v then s.free - 1 else s.free + 1, cur := if v then k + 1 else s.cur)
  }

  lemma ChangeBits(s: Section, k: nat, v: bool)
    requires Fits(s) && k < s.total && (v ==> s.free > 0)
    ensures Fits(Change(s, k, v)) && Bits(Change(s, k, v)) == Bits(s)[k := v]
  {
  }

  lemma ChangeSound(s: Section, k: nat, v: bool)
    requires Sound(s) && k < s.total && Bits(s)[k] != v && (v ==> s.free > 0)
    ensures Sound(Change(s, k, v))
    ensures forall bfn: nat :: TakenIn(Change(s, k, v), bfn) <==> if bfn == s.first + k then v else TakenIn(s, bfn)
  {
    ChangeBits(s, k, v);
    ClearsWith(Bits(s), k, v);
  }

  // ---- all sections

  function Sum(ss: seq<Section>): nat {
    if ss == [] then 0 else ss[0].free + Sum(ss[1..])
  }

  lemma {:induction false} SumUpdate(ss: seq<Section>, i: nat, s: Section)
    requires i < |ss|
    ensures Sum(ss[i := s]) == Sum(ss) - ss[i].free + s.free && Sum(ss) >= ss[i].free
  {
    if i == 0 {
      assert ss[i := s][1..] == ss[1..];
    } else {
      assert ss[i := s][1..] == ss[1..][i - 1 := s];
      SumUpdate(ss[1..], i - 1, s);
    }
  }

  lemma {:induction false} SumZero(ss: seq<Section>)
    ensures Sum(ss) == 0 <==> forall i | 0 <= i < |ss| :: ss[i].free == 0
  {
    if ss != [] {
      SumZero(ss[1..]);
      assert forall i | 0 < i < |ss| :: ss[i] == ss[1..][i - 1];
    }
  }

  ghost predicate AllSound(ss: seq<Section>) {
    forall i | 0 <= i < |ss| :: Sound(ss[i])
  }

  predicate Before(s: Section, t: Section) {
    s.first + s.total <= t.first
  }

  ghost predicate Disjoint(ss: seq<Section>) {
    forall i, j | 0 <= i < j < |ss| :: Before(ss[i], ss[j]) || Before(ss[j], ss[i])
  }

  /** Some section has the bit of the block set. */
  ghost predicate Taken(ss: seq<Section>, bfn: nat)
    requires AllSound(ss)
  {
    exists i | 0 <= i < |ss| :: TakenIn(ss[i], bfn)
  }

  lemma OneSection(ss: seq<Section>, i: nat, j: nat, bfn: nat)
    requires AllSound(ss) && Disjoint(ss) && i < |ss| && j < |ss| && Has(ss[i], bfn) && Has(ss[j], bfn)
    ensures i == j
  {
  }

  lemma TakenAt(ss: seq<Section>, i: nat, bfn: nat)
    requires AllSound(ss) && Disjoint(ss) && i < |ss| && Has(ss[i], bfn)
    ensures Taken(ss, bfn) <==> Bits(ss[i])[bfn - ss[i].first]
  {
    if Taken(ss, bfn) {
      var j :| 0 <= j < |ss| && TakenIn(ss[j], bfn);
      OneSection(ss, i, j, bfn);
    } else {
      assert !TakenIn(ss[i], bfn);
    }
  }

  /** Block k of section i changes hands. */
  lemma ChangeTaken(ss: seq<Section>, i: nat, k: nat, v: bool, bfn: nat)
    requires AllSound(ss) && Disjoint(ss) && i < |ss| && k < ss[i].total && Bits(ss[i])[k] != v && (v ==> ss[i].free > 0)
    ensures AllSound(ss[i := Change(ss[i], k, v)]) && Disjoint(ss[i := Change(ss[i], k, v)])
    ensures Taken(ss[i := Change(ss[i], k, v)], bfn) <==> if bfn == ss[i].first + k then v else Taken(ss, bfn)
  {
    ChangeSound(ss[i], k, v);
    var ts := ss[i := Change(ss[i], k, v)];
    if Has(ss[i], bfn) {
      TakenAt(ss, i, bfn);
      TakenAt(ts, i, bfn);
    } else {
      assert forall j | 0 <= j < |ss| :: TakenIn(ts[j], bfn) == TakenIn(ss[j], bfn);
    }
  }

  /** The owners are the set bits, the counter is the number of clear ones. */
  ghost predicate Owns(ss: seq<Section>, owned: set<nat>)
    requires AllSound(ss)
  {
    forall bfn: nat :: bfn in owned <==> Taken(ss, bfn)
  }

  ghost predicate Books(ss: seq<Section>, free: nat, owned: set<nat>) {
    AllSound(ss) && Disjoint(ss) && free == Sum(ss) && Owns(ss, owned)
  }

  lemma BooksTake(ss: seq<Section>, free: nat, owned: set<nat>, i: nat, k: nat, bfn: nat)
    requires Books(ss, free, owned) && i < |ss| && k < ss[i].total && !Bits(ss[i])[k] && bfn == ss[i].first + k
    ensures ss[i].free > 0 && free > 0 && bfn !in owned
    ensures Books(ss[i := Change(ss[i], k, true)], free - 1, owned + {bfn})
  {
    ClearsZero(Bits(ss[i]));
    TakenAt(ss, i, bfn);
    SumUpdate(ss, i, Change(ss[i], k, true));
    forall b: nat { ChangeTaken(ss, i, k, true, b); }
    assert forall b: nat :: b in owned + {bfn} <==> b == bfn || Taken(ss, b);
  }

  lemma BooksGive(ss: seq<Section>, free: nat, owned: set<nat>, i: nat, k: nat, bfn: nat)
    requires Books(ss, free, owned) && i < |ss| && k < ss[i].total && bfn == ss[i].first + k && bfn in owned
    ensures Books(ss[i := Change(ss[i], k, false)], free + 1, owned - {bfn})
  {
    TakenAt(ss, i, bfn);
    SumUpdate(ss, i, Change(ss[i], k, false));
    forall b: nat { ChangeTaken(ss, i, k, false, b); }
    assert forall b: nat :: b in owned - {bfn} <==> b != bfn && Taken(ss, b);
  }

  /** The same memory. */
  ghost predicate SameMemory(ss: seq<Section>, ts: seq<Section>) {
    |ss| == |ts| && forall i | 0 <= i < |ss| :: ss[i].first == ts[i].first && ss[i].total == ts[i].total
  }

  /** bfn << MEM_BLOCK_SHIFT on 32 bits. */
  function Base(bfn: nat): nat {
    bfn * BLOCK % TWO32
  }

  /** The block whose address the shift gives: 4 GB are 2048 blocks. */
  function Hit(bfn: nat): nat {
    bfn % 2048
  }

  /** The shift gives the address of the block exactly below 4 GB, and that of another block above. */
  lemma BaseExact(bfn: nat)
    ensures Base(bfn) == Hit(bfn) * BLOCK
    ensures Hit(bfn) == bfn <==> bfn * BLOCK < TWO32
  {
  }

  // ---- freeing

  ghost predicate AllFit(ss: seq<Section>) {
    forall i | 0 <= i < |ss| :: Fits(ss[i])
  }

  /** The first section with the address of the block, or |ss|. */
  function SectionOf(ss: seq<Section>, bfn: nat): (i: nat)
    ensures i <= |ss| && (i < |ss| ==> Has(ss[i], bfn)) && forall j | 0 <= j < i :: !Has(ss[j], bfn)
  {
    if ss == [] || Has(ss[0], bfn) then 0 else 1 + SectionOf(ss[1..], bfn)
  }

  ghost function FreedIn(ss: seq<Section>, i: nat, bfn: nat): seq<Section>
    requires AllFit(ss) && (i < |ss| ==> Has(ss[i], bfn))
  {
    if i < |ss| then ss[i := Change(ss[i], bfn - ss[i].first, false)] else ss
  }

  /** What freeing any block number does to the sections: the bit of the block that is hit. */
  ghost function Freed(ss: seq<Section>, bfn: nat): seq<Section>
    requires AllFit(ss)
  {
    FreedIn(ss, SectionOf(ss, Hit(bfn)), Hit(bfn))
  }

  ghost function FreedCount(ss: seq<Section>, free: nat, bfn: nat): nat {
    if SectionOf(ss, Hit(bfn)) < |ss| then free + 1 else free
  }

  lemma ChangeOther(s: Section, k: nat, v: bool, other: nat)
    requires Fits(s) && k < s.total && (v ==> s.free > 0) && other != s.first + k
    ensures Fits(Change(s, k, v)) && TakenIn(Change(s, k, v), other) == TakenIn(s, other)
  {
    ChangeBits(s, k, v);
  }

  /** The bit of a block that is not hit stays as it is. */
  lemma OthersStay(ss: seq<Section>, h: nat, bfn: nat, i: nat, other: nat)
    requires AllFit(ss) && (h < |ss| ==> Has(ss[h], bfn)) && i < |ss| && other != bfn
    ensures |FreedIn(ss, h, bfn)| == |ss| && Fits(FreedIn(ss, h, bfn)[i])
    ensures TakenIn(FreedIn(ss, h, bfn)[i], other) == TakenIn(ss[i], other)
  {
    if i == h {
      ChangeOther(ss[i], bfn - ss[i].first, false, other);
    }
  }

  /** Freeing an owned block leaves right books exactly when the block lies below 4 GB. */
  lemma FreeExact(ss: seq<Section>, free: nat, owned: set<nat>, bfn: nat)
    requires Books(ss, free, owned) && bfn in owned
    ensures Books(Freed(ss, bfn), FreedCount(ss, free, bfn), owned - {bfn}) <==> bfn * BLOCK < TWO32
  {
    BaseExact(bfn);
    if bfn * BLOCK < TWO32 {
      FreeRight(ss, free, owned, bfn);
    } else if Books(Freed(ss, bfn), FreedCount(ss, free, bfn), owned - {bfn}) {
      FreeWrong(ss, bfn);
    }
  }

  lemma FreeRight(ss: seq<Section>, free: nat, owned: set<nat>, bfn: nat)
    requires Books(ss, free, owned) && bfn in owned && Hit(bfn) == bfn
    ensures Books(Freed(ss, bfn), FreedCount(ss, free, bfn), owned - {bfn})
  {
    var j :| 0 <= j < |ss| && TakenIn(ss[j], bfn);
    var i := SectionOf(ss, bfn);
    OneSection(ss, i, j, bfn);
    BooksGive(ss, free, owned, i, bfn - ss[i].first, bfn);
  }

  /** Above 4 GB the block that was given back stays taken. */
  lemma FreeWrong(ss: seq<Section>, bfn: nat)
    requires AllSound(ss) && Taken(ss, bfn) && Hit(bfn) != bfn && AllSound(Freed(ss, bfn))
    ensures Taken(Freed(ss, bfn), bfn)
  {
    var j :| 0 <= j < |ss| && TakenIn(ss[j], bfn);
    OthersStay(ss, SectionOf(ss, Hit(bfn)), Hit(bfn), j, bfn);
    assert TakenIn(Freed(ss, bfn)[j], bfn);
  }

  /** A section of one block. */
  function OneBlock(first: nat, taken: bool): (s: Section)
    ensures Sound(s) && forall bfn: nat :: TakenIn(s, bfn) <==> bfn == first && taken
  {
    var s := Section(first, 1, if taken then 0 else 1, 1, [Zeros()[0 := taken]]);
    assert Bits(s) == [taken];
    s
  }

  /** One block at address 0 and one at 4 GB, both owned. */
  function FourGigs(): seq<Section> {
    [OneBlock(0, true), OneBlock(2048, true)]
  }

  lemma FourGigsOk()
    ensures Books(FourGigs(), 0, {0, 2048})
  {
    var ss := FourGigs();
    assert ss[1..] == [ss[1]];
    forall bfn: nat ensures bfn in {0, 2048} <==> Taken(ss, bfn) {
      assert TakenIn(ss[0], bfn) <==> bfn == 0;
      assert TakenIn(ss[1], bfn) <==> bfn == 2048;
    }
  }

  /** Freeing the block at 4 GB takes the block at 0 from its owner and keeps the one given back. */
  lemma FreeHitsOther()
    ensures Books(FourGigs(), 0, {0, 2048})
    ensures Freed(FourGigs(), 2048) == [OneBlock(0, false), OneBlock(2048, true)]
    ensures FreedCount(FourGigs(), 0, 2048) == 1
  {
    FourGigsOk();
    var s := OneBlock(0, true);
    assert SectionOf(FourGigs(), 0) == 0;
    assert Zeros()[0 := true][0 := false] == Zeros()[0 := false];
    assert Change(s, 0, false).words == [Zeros()[0 := false]];
    assert Change(s, 0, false) == OneBlock(0, false);
  }

  // ---- building the sections

  datatype Region = Region(base: nat, size: nat, normal: bool)

  /** BALIGN(base, BLOCK_SIZE) and ALIGN(base + size, BLOCK_SIZE) as block numbers. */
  function Low(r: Region): nat {
    (r.base + BLOCK - 1) / BLOCK
  }

  function High(r: Region): nat {
    (r.base + r.size) / BLOCK
  }

  /** Memory regions do not overlap. */
  ghost predicate Apart(rs: seq<Region>) {
    forall i, j | 0 <= i < j < |rs| :: rs[i].base + rs[i].size <= rs[j].base || rs[j].base + rs[j].size <= rs[i].base
  }

  ghost predicate Rounds(rs: seq<Region>) {
    forall i | 0 <= i < |rs| :: rs[i].normal ==> Low(rs[i]) <= High(rs[i])
  }

  /** The new section of a region: no block is taken. */
  function Fresh(r: Region): (s: Section)
    requires Low(r) <= High(r)
    ensures Sound(s) && Of(s, r) && forall bfn: nat :: !TakenIn(s, bfn)
  {
    var total := High(r) - Low(r);
    var s := Section(Low(r), total, total, 0, seq((total + 63) / 64, i => Zeros()));
    ClearsZero(Bits(s));
    s
  }

  /** A section within its region. */
  ghost predicate Of(s: Section, r: Region) {
    r.base <= Start(s) && End(s) <= r.base + r.size
  }

  /** The sections come from the first n regions, the newest first. */
  ghost predicate FromRegions(ss: seq<Section>, rs: seq<Region>, n: nat, idx: seq<nat>)
    requires n <= |rs|
  {
    && |idx| == |ss|
    && (forall i | 0 <= i < |idx| :: idx[i] < n)
    && (forall i, j | 0 <= i < j < |idx| :: idx[j] < idx[i])
    && (forall i | 0 <= i < |idx| :: Of(ss[i], rs[idx[i]]))
  }

  lemma RegionsDisjoint(ss: seq<Section>, rs: seq<Region>, n: nat, idx: seq<nat>)
    requires n <= |rs| && Apart(rs) && FromRegions(ss, rs, n, idx)
    ensures Disjoint(ss)
  {
    forall i, j | 0 <= i < j < |ss| ensures Before(ss[i], ss[j]) || Before(ss[j], ss[i]) {
      assert idx[j] < idx[i];
      assert Of(ss[i], rs[idx[i]]) && Of(ss[j], rs[idx[j]]);
    }
  }

  /** Sections from the first n regions with all their blocks free. */
  ghost predicate Built(ss: seq<Section>, free: nat, rs: seq<Region>, n: nat, idx: seq<nat>)
    requires n <= |rs|
  {
    && AllSound(ss) && FromRegions(ss, rs, n, idx) && free == Sum(ss)
    && forall bfn: nat, i | 0 <= i < |ss| :: !TakenIn(ss[i], bfn)
  }

  lemma BuiltMore(ss: seq<Section>, free: nat, rs: seq<Region>, n: nat, idx: seq<nat>, s: Section)
    requires n < |rs| && Built(ss, free, rs, n, idx)
    requires Sound(s) && Of(s, rs[n]) && s.free == s.total && forall bfn: nat :: !TakenIn(s, bfn)
    ensures Built([s] + ss, free + s.total, rs, n + 1, [n] + idx)
  {
    assert ([s] + ss)[1..] == ss;
  }

  lemma BuiltSame(ss: seq<Section>, free: nat, rs: seq<Region>, n: nat, idx: seq<nat>)
    requires n < |rs| && Built(ss, free, rs, n, idx)
    ensures Built(ss, free, rs, n + 1, idx)
  {
  }

  /** The loop of vmm_init. A region whose rounded end lies below its rounded start is not allowed:
      the difference is unsigned. */
  method BuildSections(regions: seq<Region>) returns (ss: seq<Section>, free: nat)
    requires Apart(regions) && Rounds(regions)
    ensures Books(ss, free, {})
  {
    ss, free := [], 0;
    ghost var idx: seq<nat> := [];
    for n := 0 to |regions|
      invariant Built(ss, free, regions, n, idx)
    {
      var r := regions[n];
      if r.normal && High(r) - Low(r) > 0 {
        var bs := Fresh(r);
        BuiltMore(ss, free, regions, n, idx, bs);
        ss, idx, free := [bs] + ss, [n] + idx, free + bs.total;
      } else {
        BuiltSame(ss, free, regions, n, idx);
      }
    }
    RegionsDisjoint(ss, regions, |regions|, idx);
  }

  // ---- searching

  /** The section that holds the shifted address, for every block number. */
  method FindSection(ss: seq<Section>, bfn: nat) returns (i: nat)
    ensures i == SectionOf(ss, Hit(bfn))
    ensures i < |ss| ==> (Base(bfn) - Start(ss[i])) / BLOCK == Hit(bfn) - ss[i].first
  {
    BaseExact(bfn);
    var base := Base(bfn);
    i := 0;
    while i < |ss| && !(Start(ss[i]) <= base < End(ss[i]))
      invariant i <= |ss| && forall j | 0 <= j < i :: !Has(ss[j], Hit(bfn))
    {
      i := i + 1;
    }
  }

  /** find_next_zero_bit_loop on the bitmap: the first clear bit from the current one on, else the
      first one before it; one is found exactly when there is one. */
  method FindClear(s: Section) returns (id: nat)
    requires Fits(s)
    ensures id <= s.total && (id < s.total ==> !Bits(s)[id])
    ensures id == s.total <==> Clears(Bits(s)) == 0
    ensures id < s.cur ==> forall k | s.cur <= k < s.total :: Bits(s)[k]
    ensures forall k | (if id < s.cur then 0 else s.cur) <= k < id :: Bits(s)[k]
  {
    ClearsZero(Bits(s));
    id := FindNextLoop(s.words, s.total, s.cur, true);
    if id == s.total {
      assert forall k | 0 <= k < s.total :: Bits(s)[k] == Bit(s.words, k);
    }
  }

  /** The blocks are different, and they are exactly what has become owned. */
  ghost predicate Got(blocks: seq<nat>, owned0: set<nat>, owned: set<nat>) {
    && NoDup(blocks) && (forall b | b in blocks :: b !in owned0)
    && owned == owned0 + set b | b in blocks
  }

  lemma GotMore(blocks: seq<nat>, owned0: set<nat>, owned: set<nat>, bfn: nat)
    requires Got(blocks, owned0, owned) && bfn !in owned
    ensures Got([bfn] + blocks, owned0, owned + {bfn})
  {
  }

  class Pool {
    var sections: seq<Section>
    var freeBlocks: nat
    /** The frame numbers of the mem_blocks that exist. */
    ghost var owned: set<nat>

    ghost predicate Valid()
      reads this
    {
      Books(sections, freeBlocks, owned)
    }

    /** vmm_init */
    constructor (regions: seq<Region>)
      requires Apart(regions) && Rounds(regions)
      ensures Valid() && owned == {}
    {
      var ss, free := BuildSections(regions);
      sections, freeBlocks, owned := ss, free, {};
    }

    /** vmm_has_enough_memory */
    predicate HasEnough(size: nat)
      reads this
    {
      size / BLOCK <= freeBlocks
    }

    /** __vmm_free_memblock for any number: the block that is hit is freed. The books stay right
        exactly when that is the block meant. */
    method FreeBlock(bfn: nat) returns (ok: bool)
      requires AllFit(sections)
      modifies this
      ensures sections == Freed(old(sections), bfn) && freeBlocks == FreedCount(old(sections), old(freeBlocks), bfn)
      ensures ok <==> exists i | 0 <= i < |old(sections)| :: Has(old(sections)[i], Hit(bfn))
      ensures owned == old(owned) - {bfn} && SameMemory(sections, old(sections))
      ensures old(Valid()) && bfn in old(owned) ==> (Valid() <==> bfn * BLOCK < TWO32)
      ensures !ok ==> sections == old(sections) && freeBlocks == old(freeBlocks)
    {
      var i := FindSection(sections, bfn);
      if Books(sections, freeBlocks, owned) && bfn in owned {
        FreeExact(sections, freeBlocks, owned, bfn);
      }
      ok := i < |sections|;
      owned := owned - {bfn};
      if ok {
        var k := (Base(bfn) - Start(sections[i])) / BLOCK;
        sections, freeBlocks := sections[i := Change(sections[i], k, false)], freeBlocks + 1;
      }
    }

    /** get_memblock_from_section: a block is found whenever the counter says there is one. */
    method TakeFrom(i: nat) returns (r: Option<nat>)
      requires Valid() && i < |sections|
      modifies this
      ensures Valid() && SameMemory(sections, old(sections))
      ensures r.Some? <==> old(sections)[i].free > 0
      ensures r.None? ==> unchanged(this)
      ensures r.Some? ==> r.value !in old(owned) && owned == old(owned) + {r.value}
      ensures r.Some? ==> freeBlocks == old(freeBlocks) - 1 && Has(sections[i], r.value)
    {
      var s := sections[i];
      var id := FindClear(s);
      r := None;
      if id < s.total {
        var bfn := s.first + id;
        BooksTake(sections, freeBlocks, owned, i, id, bfn);
        sections, freeBlocks, owned := sections[i := Change(s, id, true)], freeBlocks - 1, owned + {bfn};
        r := Some(bfn);
      }
    }

    /** A block from the first section that has one. */
    method TakeBlock() returns (r: Option<nat>, wrong: bool)
      requires Valid()
      modifies this
      ensures Valid() && SameMemory(sections, old(sections)) && !wrong
      ensures r.Some? <==> old(freeBlocks) > 0
      ensures r.Some? ==> r.value !in old(owned) && owned == old(owned) + {r.value} && freeBlocks == old(freeBlocks) - 1
      ensures r.None? ==> unchanged(this)
    {
      SumZero(sections);
      r, wrong := None, false;
      var i := 0;
      while i < |sections| && r.None?
        invariant i <= |sections| && Valid() && !wrong && SameMemory(sections, old(sections))
        invariant r.None? ==> unchanged(this) && forall j | 0 <= j < i :: sections[j].free == 0
        invariant r.Some? ==> r.value !in old(owned) && owned == old(owned) + {r.value} && freeBlocks == old(freeBlocks) - 1
        invariant r.Some? ==> i < |sections|
        decreases |sections| - i, r.None?
      {
        if sections[i].free != 0 {
          r := TakeFrom(i);
          wrong := wrong || r.None?;
        }
        if r.None? {
          i := i + 1;
        }
      }
    }

    /** vmm_alloc_memblock. `wrong` tells that the branch for a section whose counter and bitmap
        disagree was taken; mallocOk is the outcome of the allocation of the mem_block, and a block
        taken for nothing is given back. */
    method AllocBlock(mallocOk: bool) returns (r: Option<nat>, wrong: bool, ghost taken: Option<nat>)
      requires Valid()
      modifies this
      ensures !wrong && SameMemory(sections, old(sections))
      ensures taken.Some? <==> old(freeBlocks) > 0
      ensures r == if mallocOk then taken else None
      ensures r.Some? ==> r.value !in old(owned) && owned == old(owned) + {r.value} && freeBlocks == old(freeBlocks) - 1
      ensures r.None? ==> owned == old(owned)
      ensures Valid() <==> r.Some? || taken.None? || taken.value * BLOCK < TWO32
      ensures r.None? && Valid() ==> freeBlocks == old(freeBlocks)
    {
      r, wrong := TakeBlock();
      taken := r;
      if r.Some? && !mallocOk {
        ghost var bfn := r.value;
        BaseExact(bfn);
        var ok := FreeBlock(r.value);
        r := None;
        assert owned == old(owned);
      }
    }

    /** The loop of __alloc_vm_memory for an area of `size` bytes: after vmm_has_enough_memory it
        succeeds, and the blocks it gets are new and different. */
    method AllocVm(size: nat) returns (blocks: seq<nat>, ok: bool)
      requires Valid()
      modifies this
      ensures Valid() && SameMemory(sections, old(sections)) && (ok <==> old(HasEnough(size)))
      ensures Got(blocks, old(owned), owned)
      ensures freeBlocks == old(freeBlocks) - |blocks| && (ok ==> |blocks| == size / BLOCK)
    {
      var count := size / BLOCK;
      blocks, ok := [], true;
      while |blocks| < count && ok
        invariant |blocks| <= count && Valid() && SameMemory(sections, old(sections))
        invariant freeBlocks == old(freeBlocks) - |blocks|
        invariant Got(blocks, old(owned), owned)
        invariant !ok ==> freeBlocks == 0 && |blocks| < count
        decreases count - |blocks|, ok
      {
        ghost var before := owned;
        var r, wrong, _ := AllocBlock(true);
        if r.None? {
          ok := false;
        } else {
          GotMore(blocks, old(owned), before, r.value);
          blocks := [r.value] + blocks;
        }
      }
    }
  }
}
