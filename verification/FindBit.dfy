/** Bit search over words (core/find_bit.c) and the aligned search for clear bits (core/bitmap.c),
    against a plain sequence of bits. A word is its 64 bits. */
module FindBit {

  type Word = w: seq<bool> | |w| == 64 witness seq(64, i => false)

  // ---- words

  function Ones(): Word {
    seq(64, i => true)
  }

  function Zeros(): Word {
    seq(64, i => false)
  }

  function And(a: Word, b: Word): Word {
    seq(64, i requires 0 <= i < 64 => a[i] && b[i])
  }

  function Or(a: Word, b: Word): Word {
    seq(64, i requires 0 <= i < 64 => a[i] || b[i])
  }

  function Xor(a: Word, b: Word): Word {
    seq(64, i requires 0 <= i < 64 => a[i] != b[i])
  }

  function Not(a: Word): Word {
    Xor(a, Ones())
  }

  function Shl(a: Word, k: nat): Word {
    seq(64, i requires 0 <= i < 64 => i >= k && a[i - k])
  }

  function Shr(a: Word, k: nat): Word {
    seq(64, i requires 0 <= i < 64 => i + k < 64 && a[i + k])
  }

  /** BITMAP_FIRST_WORD_MASK */
  function FirstMask(start: nat): (m: Word)
    ensures forall i | 0 <= i < 64 :: m[i] <==> i >= start % 64
  {
    Shl(Ones(), start % 64)
  }

  /** BITMAP_LAST_WORD_MASK: (-nbits) & 63 on an unsigned type. */
  function LastMask(nbits: nat): (m: Word)
    ensures forall i | 0 <= i < 64 :: m[i] <==> nbits % 64 == 0 || i < nbits % 64
  {
    Shr(Ones(), (64 - nbits % 64) % 64)
  }

  /** __ffs: the lowest set bit. */
  function Ffs(w: Word): (k: nat)
    requires w != Zeros()
    ensures k < 64 && w[k] && forall i | 0 <= i < k :: !w[i]
  {
    LowestFrom(w, 0)
  }

  function LowestFrom(w: Word, i: nat): (k: nat)
    requires i < 64 && (forall j | 0 <= j < i :: !w[j]) && w != Zeros()
    ensures i <= k < 64 && w[k] && forall j | 0 <= j < k :: !w[j]
    decreases 64 - i
  {
    assert i == 63 && !w[i] ==> w == Zeros();
    if w[i] || i == 63 then i else LowestFrom(w, i + 1)
  }

  /** __fls: the highest set bit. */
  function Fls(w: Word): (k: nat)
    requires w != Zeros()
    ensures k < 64 && w[k] && forall i | k < i < 64 :: !w[i]
  {
    Highest(w, 63)
  }

  function Highest(w: Word, i: nat): (k: nat)
    requires i < 64 && (forall j | i < j < 64 :: !w[j]) && w != Zeros()
    ensures k <= i && w[k] && forall j | k < j < 64 :: !w[j]
  {
    assert i == 0 && !w[i] ==> w == Zeros();
    if w[i] || i == 0 then i else Highest(w, i - 1)
  }

  // ---- maps

  predicate Bit(ws: seq<Word>, k: nat)
    requires k < 64 * |ws|
  {
    ws[k / 64][k % 64]
  }

  /** The first bit from start on, below n, that is v; n when there is none. */
  function NextBit(ws: seq<Word>, n: nat, start: nat, v: bool): (r: nat)
    requires n <= 64 * |ws|
    ensures r <= n
    ensures r < n ==> start <= r && Bit(ws, r) == v
    ensures forall k | start <= k < r && k < n :: Bit(ws, k) != v
    ensures r == n ==> forall k | start <= k < n :: Bit(ws, k) != v
    decreases n - start
  {
    if start >= n then n else if Bit(ws, start) == v then start else NextBit(ws, n, start + 1, v)
  }

  lemma NextBitIs(ws: seq<Word>, n: nat, start: nat, v: bool, r: nat)
    requires n <= 64 * |ws| && r <= n
    requires r < n ==> start <= r && Bit(ws, r) == v
    requires forall k | start <= k < r :: Bit(ws, k) != v
    ensures NextBit(ws, n, start, v) == r
  {
    var q := NextBit(ws, n, start, v);
    assert q < n ==> Bit(ws, q) == v;
  }

  /** _find_next_bit: invert is all ones to search for a clear bit. */
  method FindNext(ws: seq<Word>, nbits: nat, start: nat, zero: bool) returns (r: nat)
    requires nbits <= 64 * |ws|
    ensures r == NextBit(ws, nbits, start, !zero)
  {
    if nbits == 0 || start >= nbits {
      return nbits;
    }
    var invert := if zero then Ones() else Zeros();
    var tmp := And(Xor(ws[start / 64], invert), FirstMask(start));
    var at := start / 64 * 64;
    while tmp == Zeros()
      invariant at % 64 == 0 && at < nbits
      invariant forall k | start <= k < at :: Bit(ws, k) == zero
      invariant forall i | 0 <= i < 64 :: tmp[i] <==> at + i >= start && ws[at / 64][i] != zero
      decreases nbits - at
    {
      WordClear(ws, tmp, at, start, zero);
      at := at + 64;
      if at >= nbits {
        NextBitIs(ws, nbits, start, !zero, nbits);
        return nbits;
      }
      tmp := Xor(ws[at / 64], invert);
    }
    var k := at + Ffs(tmp);
    r := if k < nbits then k else nbits;
    WordFirst(ws, tmp, at, start, zero, Ffs(tmp));
    NextBitIs(ws, nbits, start, !zero, r);
  }

  lemma WordClear(ws: seq<Word>, tmp: Word, at: nat, start: nat, zero: bool)
    requires at % 64 == 0 && at < 64 * |ws| && tmp == Zeros()
    requires forall i | 0 <= i < 64 :: tmp[i] <==> at + i >= start && ws[at / 64][i] != zero
    ensures forall k | at <= k < at + 64 && start <= k :: Bit(ws, k) == zero
  {
    forall k | at <= k < at + 64 && start <= k ensures Bit(ws, k) == zero {
      assert !tmp[k - at] && k / 64 == at / 64 && k % 64 == k - at;
    }
  }

  lemma WordFirst(ws: seq<Word>, tmp: Word, at: nat, start: nat, zero: bool, b: nat)
    requires at % 64 == 0 && at < 64 * |ws| && b < 64 && tmp[b] && forall i | 0 <= i < b :: !tmp[i]
    requires forall i | 0 <= i < 64 :: tmp[i] <==> at + i >= start && ws[at / 64][i] != zero
    ensures at + b >= start && Bit(ws, at + b) != zero
    ensures forall k | at <= k < at + b && start <= k :: Bit(ws, k) == zero
  {
    assert (at + b) / 64 == at / 64 && (at + b) % 64 == b;
    forall k | at <= k < at + b && start <= k ensures Bit(ws, k) == zero {
      assert !tmp[k - at] && k / 64 == at / 64 && k % 64 == k - at;
    }
  }

  /** _find_next_bit_loop: from offset to the end, then once more from the front. */
  method FindNextLoop(ws: seq<Word>, size: nat, offset: nat, zero: bool) returns (r: nat)
    requires size <= 64 * |ws|
    ensures r <= size
    ensures r == size <==> forall k | 0 <= k < size :: Bit(ws, k) == zero
    ensures r < size ==> Bit(ws, r) != zero
    ensures r < size && r < offset ==> forall k | offset <= k < size :: Bit(ws, k) == zero
    ensures r < size ==> forall k | (if r < offset then 0 else offset) <= k < r :: Bit(ws, k) == zero
  {
    r := FindNext(ws, size, offset, zero);
    if r >= size && offset != 0 {
      r := FindNext(ws, size, 0, zero);
    }
  }

  /** find_first_bit and find_first_zero_bit */
  method FindFirst(ws: seq<Word>, size: nat, zero: bool) returns (r: nat)
    requires size <= 64 * |ws|
    ensures r == NextBit(ws, size, 0, !zero)
  {
    var idx := 0;
    while idx * 64 < size && ws[idx] == (if zero then Ones() else Zeros())
      invariant forall k | 0 <= k < idx * 64 && k < 64 * |ws| :: Bit(ws, k) == zero
      decreases size - idx * 64
    {
      WordAll(ws, idx, zero);
      idx := idx + 1;
    }
    r := size;
    if idx * 64 < size {
      var w := if zero then Not(ws[idx]) else ws[idx];
      NonZero(ws[idx], w, zero);
      FirstInWord(ws, size, idx, w, zero);
      r := if idx * 64 + Ffs(w) < size then idx * 64 + Ffs(w) else size;
    } else {
      NextBitIs(ws, size, 0, !zero, size);
    }
  }

  lemma FirstInWord(ws: seq<Word>, size: nat, idx: nat, w: Word, zero: bool)
    requires size <= 64 * |ws| && idx * 64 < size && w != Zeros()
    requires forall i | 0 <= i < 64 :: w[i] <==> ws[idx][i] != zero
    requires forall k | 0 <= k < idx * 64 && k < 64 * |ws| :: Bit(ws, k) == zero
    ensures NextBit(ws, size, 0, !zero) == if idx * 64 + Ffs(w) < size then idx * 64 + Ffs(w) else size
  {
    WordFirst(ws, w, idx * 64, 0, zero, Ffs(w));
    NextBitIs(ws, size, 0, !zero, if idx * 64 + Ffs(w) < size then idx * 64 + Ffs(w) else size);
  }

  lemma WordAll(ws: seq<Word>, idx: nat, zero: bool)
    requires idx < |ws| && ws[idx] == (if zero then Ones() else Zeros())
    ensures forall k | idx * 64 <= k < idx * 64 + 64 :: Bit(ws, k) == zero
  {
    forall k | idx * 64 <= k < idx * 64 + 64 ensures Bit(ws, k) == zero {
      assert k / 64 == idx;
    }
  }

  lemma NonZero(a: Word, w: Word, zero: bool)
    requires a != (if zero then Ones() else Zeros()) && forall i | 0 <= i < 64 :: w[i] <==> a[i] != zero
    ensures w != Zeros()
  {
    assert (forall i | 0 <= i < 64 :: !w[i]) ==> a == (if zero then Ones() else Zeros());
  }

  /** find_last_bit: the highest set bit below size, or size. */
  method FindLast(ws: seq<Word>, size: nat) returns (r: nat)
    requires size <= 64 * |ws|
    ensures r < size ==> Bit(ws, r) && forall k | r < k < size :: !Bit(ws, k)
    ensures r >= size ==> r == size && forall k | 0 <= k < size :: !Bit(ws, k)
  {
    if size == 0 {
      return size;
    }
    var idx := (size - 1) / 64;
    var val := And(LastMask(size), ws[idx]);
    while val == Zeros()
      invariant idx < |ws| && idx * 64 < size
      invariant forall k | idx * 64 + 64 <= k < size :: !Bit(ws, k)
      invariant forall i | 0 <= i < 64 :: val[i] <==> idx * 64 + i < size && ws[idx][i]
      decreases idx
    {
      LastClear(ws, val, idx, size);
      if idx == 0 {
        return size;
      }
      idx := idx - 1;
      val := And(Ones(), ws[idx]);
    }
    r := idx * 64 + Fls(val);
    LastFound(ws, val, idx, size, Fls(val));
  }

  lemma LastClear(ws: seq<Word>, val: Word, idx: nat, size: nat)
    requires idx < |ws| && size <= 64 * |ws| && val == Zeros()
    requires forall i | 0 <= i < 64 :: val[i] <==> idx * 64 + i < size && ws[idx][i]
    ensures forall k | idx * 64 <= k < size && k < idx * 64 + 64 :: !Bit(ws, k)
  {
    forall k | idx * 64 <= k < size && k < idx * 64 + 64 ensures !Bit(ws, k) {
      assert !val[k - idx * 64] && k / 64 == idx && k % 64 == k - idx * 64;
    }
  }

  lemma LastFound(ws: seq<Word>, val: Word, idx: nat, size: nat, b: nat)
    requires idx < |ws| && size <= 64 * |ws| && b < 64 && val[b] && forall i | b < i < 64 :: !val[i]
    requires forall i | 0 <= i < 64 :: val[i] <==> idx * 64 + i < size && ws[idx][i]
    ensures idx * 64 + b < size && Bit(ws, idx * 64 + b)
    ensures forall k | idx * 64 + b < k < size && k < idx * 64 + 64 :: !Bit(ws, k)
  {
    assert (idx * 64 + b) / 64 == idx && (idx * 64 + b) % 64 == b;
    forall k | idx * 64 + b < k < size && k < idx * 64 + 64 ensures !Bit(ws, k) {
      assert !val[k - idx * 64] && k / 64 == idx && k % 64 == k - idx * 64;
    }
  }

  // ---- setting and clearing a range

  function WithMask(w: Word, mask: Word, v: bool): (r: Word)
    ensures forall i | 0 <= i < 64 :: r[i] == if mask[i] then v else w[i]
  {
    if v then Or(w, mask) else And(w, Not(mask))
  }

  lemma MaskedBit(ws: seq<Word>, p: nat, mask: Word, v: bool, k: nat)
    requires p < |ws| && k < 64 * |ws|
    ensures Bit(ws[p := WithMask(ws[p], mask, v)], k) == if k / 64 == p && mask[k % 64] then v else Bit(ws, k)
  {
  }

  /** The bits start..end of us are v, the others are those of ws. */
  ghost predicate Filled(ws: seq<Word>, us: seq<Word>, start: nat, end: nat, v: bool) {
    |us| == |ws| && forall k | 0 <= k < 64 * |ws| :: Bit(us, k) == if start <= k < end then v else Bit(ws, k)
  }

  lemma FilledMore(ws: seq<Word>, us: seq<Word>, start: nat, pos: nat, end: nat, v: bool, p: nat, mask: Word)
    requires Filled(ws, us, start, pos, v) && start <= pos <= end && p < |ws|
    requires p * 64 <= pos && end <= p * 64 + 64
    requires forall i | 0 <= i < 64 :: mask[i] <==> pos <= p * 64 + i < end
    ensures Filled(ws, us[p := WithMask(us[p], mask, v)], start, end, v)
  {
    forall k | 0 <= k < 64 * |ws|
      ensures Bit(us[p := WithMask(us[p], mask, v)], k) == if start <= k < end then v else Bit(ws, k)
    {
      MaskedBit(us, p, mask, v, k);
    }
  }

  /** bitmap_set and bitmap_clear */
  method Fill(a: array<Word>, start: nat, length: nat, v: bool)
    requires start + length <= 64 * a.Length
    modifies a
    ensures Filled(old(a[..]), a[..], start, start + length, v)
  {
    var p, len, bits, mask := start / 64, length, 64 - start % 64, FirstMask(start);
    var size := start + length;
    ghost var pos := start;
    while len - bits >= 0
      invariant 0 <= len && pos == size - len && 0 < bits <= 64 && p * 64 <= pos && pos + bits == p * 64 + 64
      invariant forall i | 0 <= i < 64 :: mask[i] <==> pos <= p * 64 + i
      invariant Filled(old(a[..]), a[..], start, pos, v) && start <= pos
      decreases len
    {
      FilledMore(old(a[..]), a[..], start, pos, pos + bits, v, p, mask);
      a[p] := WithMask(a[p], mask, v);
      len, pos := len - bits, pos + bits;
      bits, mask, p := 64, Ones(), p + 1;
    }
    if len != 0 {
      mask := And(mask, LastMask(size));
      FilledMore(old(a[..]), a[..], start, pos, size, v, p, mask);
      a[p] := WithMask(a[p], mask, v);
    }
  }
}
