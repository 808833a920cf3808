/** The search for an aligned run of clear bits (core/bitmap.c). */
module BitmapArea {
  import opened Prelude
  import opened FindBit

  predicate PowerOfTwo(n: nat) {
    n == 1 || (n > 1 && n % 2 == 0 && PowerOfTwo(n / 2))
  }

  function Mul(q: nat, a: nat): nat {
    q * a
  }

  /** s plus the offset is a multiple of a. */
  ghost predicate Aligned(s: nat, a: nat, offset: nat) {
    exists q: nat :: s + offset == Mul(q, a)
  }

  /** x & mask, bit after bit. */
  function And(x: nat, mask: nat): nat {
    if x == 0 then 0 else x % 2 * (mask % 2) + 2 * And(x / 2, mask / 2)
  }

  /** x & ~mask, bit after bit. */
  function AndNot(x: nat, mask: nat): nat {
    if x == 0 then 0 else x % 2 * (1 - mask % 2) + 2 * AndNot(x / 2, mask / 2)
  }

  /** The mask of a power of two takes a number apart into remainder and multiple. */
  lemma {:induction false} Masked(x: nat, a: nat)
    requires PowerOfTwo(a)
    ensures And(x, a - 1) == x % a && AndNot(x, a - 1) == Mul(x / a, a)
    decreases a
  {
    if a == 1 {
      MaskOfOne(x);
    } else {
      Masked(x / 2, a / 2);
      assert (a - 1) % 2 == 1 && (a - 1) / 2 == a / 2 - 1;
      HalfSteps(x, a / 2);
    }
  }

  lemma {:induction false} MaskOfOne(x: nat)
    ensures And(x, 0) == 0 && AndNot(x, 0) == x
  {
    if x > 0 {
      MaskOfOne(x / 2);
    }
  }

  lemma HalfSteps(x: nat, b: nat)
    requires b > 0
    ensures x % (2 * b) == x % 2 + 2 * (x / 2 % b)
    ensures Mul(x / (2 * b), 2 * b) == 2 * Mul(x / 2 / b, b)
  {
    var q, r := x / 2 / b, x % 2 + 2 * (x / 2 % b);
    assert x / 2 == q * b + x / 2 % b;
    assert 2 * (q * b) == q * (2 * b);
    DivUnique(x, 2 * b, q, r);
  }

  lemma DivUnique(x: nat, a: nat, q: nat, r: nat)
    requires a > 0 && x == q * a + r && r < a
    ensures x / a == q && x % a == r
  {
    var d := x / a;
    assert x == d * a + x % a;
    MulMono(d + 1, q, a);
    MulMono(q + 1, d, a);
    assert (d + 1) * a == d * a + a && (q + 1) * a == q * a + a;
  }

  /** __ALIGN_MASK(x, a - 1) */
  function RoundUp(x: nat, a: nat): nat
    requires a > 0
  {
    AndNot(x + (a - 1), a - 1)
  }

  /** For a power of two the mask expression is the least multiple not below x. */
  lemma RoundUpLeast(x: nat, a: nat, q: nat)
    requires PowerOfTwo(a)
    ensures x <= RoundUp(x, a) == Mul((x + a - 1) / a, a)
    ensures x <= Mul(q, a) ==> RoundUp(x, a) <= Mul(q, a)
  {
    Masked(x + a - 1, a);
    LeastMultiple(x, a, q);
  }

  lemma LeastMultiple(x: nat, a: nat, q: nat)
    requires a > 0
    ensures x <= Mul((x + a - 1) / a, a)
    ensures x <= Mul(q, a) ==> Mul((x + a - 1) / a, a) <= Mul(q, a)
  {
    var y := x + a - 1;
    assert y == y / a * a + y % a;
    MulMono(q + 1, y / a, a);
    assert (q + 1) * a == q * a + a;
    MulMono(y / a, q, a);
  }

  /** x & (a - 1) is zero exactly at the multiples of a. */
  lemma AlignedIff(x: nat, a: nat)
    requires PowerOfTwo(a)
    ensures Aligned(x, a, 0) <==> And(x, a - 1) == 0
  {
    Masked(x, a);
    MultipleIff(x, a);
  }

  lemma MultipleIff(x: nat, a: nat)
    requires a > 0
    ensures Aligned(x, a, 0) <==> x % a == 0
  {
    assert x == x / a * a + x % a;
    if Aligned(x, a, 0) {
      var q :| x + 0 == Mul(q, a);
      DivUnique(x, a, q, 0);
    } else {
      assert x + 0 != Mul(x / a, a);
    }
  }

  /** nr clear bits below size from s on. */
  ghost predicate Clear(ws: seq<Word>, size: nat, s: nat, nr: nat)
    requires size <= 64 * |ws|
  {
    s + nr <= size && forall k | s <= k < s + nr :: !Bit(ws, k)
  }

  /** s is a place the search may return. */
  ghost predicate Suits(ws: seq<Word>, size: nat, start: nat, nr: nat, a: nat, offset: nat, s: nat)
    requires size <= 64 * |ws|
  {
    start <= s && Aligned(s, a, offset) && Clear(ws, size, s, nr)
  }

  /** Nothing below `from` suits. */
  ghost predicate NoneBelow(ws: seq<Word>, size: nat, start: nat, nr: nat, a: nat, offset: nat, from: nat)
    requires size <= 64 * |ws|
  {
    forall s: nat | Suits(ws, size, start, nr, a, offset, s) :: from <= s
  }

  lemma NextClear(ws: seq<Word>, size: nat, start: nat, nr: nat, a: nat, offset: nat, from: nat, index: nat)
    requires size <= 64 * |ws| && nr > 0 && PowerOfTwo(a) && NoneBelow(ws, size, start, nr, a, offset, from)
    requires index == NextBit(ws, size, from, false)
    ensures index + offset <= RoundUp(index + offset, a)
    ensures NoneBelow(ws, size, start, nr, a, offset, RoundUp(index + offset, a) - offset)
  {
    RoundUpLeast(index + offset, a, 0);
    forall s: nat | Suits(ws, size, start, nr, a, offset, s) ensures RoundUp(index + offset, a) - offset <= s {
      assert from <= s && !Bit(ws, s);
      assert index <= s;
      var q :| s + offset == Mul(q, a);
      RoundUpLeast(index + offset, a, q);
    }
  }

  lemma SetBitBlocks(ws: seq<Word>, size: nat, start: nat, nr: nat, a: nat, offset: nat, from: nat, i: nat)
    requires size <= 64 * |ws| && NoneBelow(ws, size, start, nr, a, offset, from)
    requires from <= i < from + nr && i < size && Bit(ws, i)
    ensures NoneBelow(ws, size, start, nr, a, offset, i + 1)
  {
    forall s: nat | Suits(ws, size, start, nr, a, offset, s) ensures i + 1 <= s {
      assert from <= s;
    }
  }

  lemma RoundedUp(ws: seq<Word>, size: nat, start0: nat, nr: nat, a: nat, offset: nat, start: nat, index: nat)
    requires size <= 64 * |ws| && PowerOfTwo(a) && index == NextBit(ws, size, start, false)
    requires start0 <= start && (nr > 0 ==> NoneBelow(ws, size, start0, nr, a, offset, start))
    ensures
      && index + offset <= RoundUp(index + offset, a)
      && var at := RoundUp(index + offset, a) - offset;
         && at >= index && Aligned(at, a, offset) && (nr > 0 ==> NoneBelow(ws, size, start0, nr, a, offset, at))
  {
    RoundUpLeast(index + offset, a, 0);
    if nr > 0 {
      NextClear(ws, size, start0, nr, a, offset, start, index);
    }
    ghost var q := (index + offset + a - 1) / a;
    assert RoundUp(index + offset, a) - offset + offset == Mul(q, a);
  }

  /** bitmap_find_next_zero_area_off: the least place that suits, or a value above size exactly
      when there is none. */
  method FindAreaOff(ws: seq<Word>, size: nat, start0: nat, nr: nat, a: nat, offset: nat) returns (r: nat)
    requires size <= 64 * |ws| && PowerOfTwo(a)
    ensures nr > 0 && r <= size ==> Suits(ws, size, start0, nr, a, offset, r) && NoneBelow(ws, size, start0, nr, a, offset, r)
    ensures nr > 0 && r > size ==> forall s: nat :: !Suits(ws, size, start0, nr, a, offset, s)
    ensures nr == 0 ==> r == RoundUp(NextBit(ws, size, start0, false) + offset, a) - offset
  {
    var start := start0;
    while true
      invariant start0 <= start && (nr > 0 ==> NoneBelow(ws, size, start0, nr, a, offset, start))
      invariant nr == 0 ==> start == start0
      decreases size + 1 - start
    {
      var index := FindNext(ws, size, start, true);
      RoundedUp(ws, size, start0, nr, a, offset, start, index);
      index := RoundUp(index + offset, a) - offset;
      var end := index + nr;
      if end > size {
        r := end;
        return;
      }
      var i := FindNext(ws, end, index, false);
      if i >= end {
        r := index;
        return;
      }
      SetBitBlocks(ws, size, start0, nr, a, offset, index, i);
      start := i + 1;
    }
  }

  ghost predicate AlignedClear(ws: seq<Word>, size: nat, start: nat, a: nat)
    requires size <= 64 * |ws| && a > 0
  {
    exists k | start <= k < size :: !Bit(ws, k) && And(k, a - 1) == 0
  }

  /** bitmap_find_next_zero_area_align: the same for an alignment of the place itself. EmptySearch
      below says that the loop ends exactly under the second requires. */
  method FindAreaAlign(ws: seq<Word>, size: nat, start0: nat, nr: nat, a: nat) returns (r: nat)
    requires size <= 64 * |ws| && PowerOfTwo(a)
    requires nr > 0 || And(size, a - 1) == 0 || AlignedClear(ws, size, start0, a)
    ensures nr > 0 && r <= size ==> Suits(ws, size, start0, nr, a, 0, r) && NoneBelow(ws, size, start0, nr, a, 0, r)
    ensures nr > 0 && r > size ==> forall s: nat :: !Suits(ws, size, start0, nr, a, 0, s)
    ensures nr == 0 ==> r <= size && And(r, a - 1) == 0 && (r < size ==> start0 <= r && !Bit(ws, r))
    ensures nr == 0 ==> !AlignedClear(ws, r, start0, a)
  {
    var start := start0;
    while true
      invariant start0 <= start && (nr > 0 ==> NoneBelow(ws, size, start0, nr, a, 0, start))
      invariant nr == 0 ==> And(size, a - 1) == 0 || AlignedClear(ws, size, start, a)
      invariant forall k | start0 <= k < start && k < size :: nr == 0 ==> Bit(ws, k) || And(k, a - 1) != 0
      decreases size + 1 - start
    {
      var index := FindNext(ws, size, start, true);
      if nr > 0 {
        FirstClear(ws, size, start0, nr, a, 0, start, index);
      }
      AlignedIff(index, a);
      var end := index + nr;
      if end > size {
        r := end;
        return;
      }
      if And(index, a - 1) != 0 {
        UnalignedBlocks(ws, size, start0, nr, a, index);
        start := index + 1;
      } else {
        var i := FindNext(ws, end, index, false);
        if i >= end {
          r := index;
          return;
        }
        SetBitBlocks(ws, size, start0, nr, a, 0, index, i);
        start := i + 1;
      }
    }
  }

  lemma FirstClear(ws: seq<Word>, size: nat, start: nat, nr: nat, a: nat, offset: nat, from: nat, index: nat)
    requires size <= 64 * |ws| && nr > 0 && NoneBelow(ws, size, start, nr, a, offset, from)
    requires index == NextBit(ws, size, from, false)
    ensures NoneBelow(ws, size, start, nr, a, offset, index)
  {
    forall s: nat | Suits(ws, size, start, nr, a, offset, s) ensures index <= s {
      assert from <= s && !Bit(ws, s);
    }
  }

  lemma UnalignedBlocks(ws: seq<Word>, size: nat, start: nat, nr: nat, a: nat, index: nat)
    requires size <= 64 * |ws| && !Aligned(index, a, 0)
    ensures NoneBelow(ws, size, start, nr, a, 0, index) ==> NoneBelow(ws, size, start, nr, a, 0, index + 1)
  {
    if !NoneBelow(ws, size, start, nr, a, 0, index) {
      return;
    }
    forall s: nat | Suits(ws, size, start, nr, a, 0, s) ensures index + 1 <= s {
      assert index <= s;
    }
  }

  // ---- an empty request

  datatype Step = Done(index: nat) | Again(start: nat)

  /** One round of bitmap_find_next_zero_area_align for nr = 0. */
  function EmptyRound(ws: seq<Word>, size: nat, start: nat, a: nat): Step
    requires size <= 64 * |ws| && a > 0
  {
    var index := NextBit(ws, size, start, false);
    if And(index, a - 1) != 0 then Again(index + 1) else Done(index)
  }

  /** The search for nr = 0 is over after at most n rounds. */
  ghost predicate EmptyEnds(ws: seq<Word>, size: nat, start: nat, a: nat, n: nat)
    requires size <= 64 * |ws| && a > 0
    decreases n
  {
    n > 0 && (EmptyRound(ws, size, start, a).Done? || EmptyEnds(ws, size, EmptyRound(ws, size, start, a).start, a, n - 1))
  }

  ghost predicate OverAfter(ws: seq<Word>, size: nat, start: nat, a: nat, n: nat)
    requires size <= 64 * |ws| && a > 0
  {
    EmptyEnds(ws, size, start, a, n)
  }

  /** For nr = 0 the search ends exactly when it meets an aligned clear bit or the size itself is
      aligned; otherwise it goes round at the end of the bitmap for ever. */
  lemma EmptySearch(ws: seq<Word>, size: nat, start: nat, a: nat)
    requires size <= 64 * |ws| && PowerOfTwo(a)
    ensures (exists n: nat :: OverAfter(ws, size, start, a, n)) <==> And(size, a - 1) == 0 || AlignedClear(ws, size, start, a)
  {
    if And(size, a - 1) == 0 || AlignedClear(ws, size, start, a) {
      var n := EmptySearchEnds(ws, size, start, a);
      assert OverAfter(ws, size, start, a, n);
    } else {
      forall n: nat ensures !OverAfter(ws, size, start, a, n) {
        EmptySearchStuck(ws, size, start, a, n);
      }
    }
  }

  /** One set bit and an alignment of two: the search for nothing goes round for ever. */
  lemma EmptySearchHangs(n: nat)
    ensures !OverAfter([seq(64, i => true)], 1, 0, 2, n)
  {
    EmptySearchStuck([seq(64, i => true)], 1, 0, 2, n);
  }

  lemma {:induction false} EmptySearchEnds(ws: seq<Word>, size: nat, start: nat, a: nat) returns (n: nat)
    requires size <= 64 * |ws| && a > 0 && (And(size, a - 1) == 0 || AlignedClear(ws, size, start, a))
    ensures EmptyEnds(ws, size, start, a, n)
    decreases size - start
  {
    n := 1;
    var index := NextBit(ws, size, start, false);
    if And(index, a - 1) != 0 {
      if And(size, a - 1) != 0 {
        var k :| start <= k < size && !Bit(ws, k) && And(k, a - 1) == 0;
        assert index < k;
      }
      var m := EmptySearchEnds(ws, size, index + 1, a);
      n := m + 1;
    }
  }

  lemma {:induction false} EmptySearchStuck(ws: seq<Word>, size: nat, start: nat, a: nat, n: nat)
    requires size <= 64 * |ws| && a > 0 && And(size, a - 1) != 0 && !AlignedClear(ws, size, start, a)
    ensures !EmptyEnds(ws, size, start, a, n)
    decreases n
  {
    var index := NextBit(ws, size, start, false);
    if n > 0 {
      if index < size {
        assert And(index, a - 1) != 0;
      }
      EmptySearchStuck(ws, size, index + 1, a, n - 1);
    }
  }
}
