/** A blob is one byte buffer with a header that says where its blocks are. The header fields are
    fields of the object; the blocks are slices of the buffer. */
module FdtBlob {
  import opened Prelude
  import opened FdtTokens
  import opened FdtTree
  import opened FdtPlace
  import opened FdtWalk
  import opened FdtRead

  const FDT_MAGIC: nat := 0xd00d_feed
  const FDT_SW_MAGIC: nat := 0x2ff2_0112

  class Blob {
    const buf: array<byte>
    var magic: nat
    var version: nat
    var totalsize: nat
    var offRsv: nat
    var offStruct: nat
    var sizeStruct: nat
    var offStrings: nat
    var sizeStrings: nat

    constructor (buf: array<byte>)
      ensures this.buf == buf
    {
      this.buf := buf;
      magic, version, totalsize, offRsv, offStruct, sizeStruct, offStrings, sizeStrings := 0, 0, 0, 0, 0, 0, 0, 0;
    }

    function Struct(): bytes
      requires offStruct + sizeStruct <= buf.Length
      reads this, buf
    {
      buf[offStruct..offStruct + sizeStruct]
    }

    function Strings(): bytes
      requires offStrings + sizeStrings <= buf.Length
      reads this, buf
    {
      buf[offStrings..offStrings + sizeStrings]
    }
  }

  /** A complete blob of version 17 with its blocks in order. */
  ghost predicate Ordered(b: Blob)
    reads b
  {
    && b.magic == FDT_MAGIC && b.version == 17
    && 40 <= b.offRsv && b.offRsv + 16 <= b.offStruct
    && b.offStruct + b.sizeStruct <= b.offStrings
    && b.offStrings + b.sizeStrings <= b.totalsize <= b.buf.Length <= INT_MAX
  }

  /** A complete blob whose tokens say es. */
  ghost predicate Saying(b: Blob, es: seq<Event>)
    reads b, b.buf
  {
    Ordered(b) && Says(b.Struct(), b.Strings(), es)
  }

  /** A complete blob that holds the tree t. */
  ghost predicate Tree(b: Blob, t: Node)
    reads b, b.buf
  {
    Ordered(b) && Holds(b.Struct(), b.Strings(), t)
  }

  /** What an edit leaves alone: everything in front of the structure block, the reserve map among
      it, and everything behind the end of the blob. */
  function Outer(b: Blob): (bytes, bytes)
    requires b.offStruct <= b.totalsize <= b.buf.Length
    reads b, b.buf
  {
    (b.buf[..b.offStruct], b.buf[b.totalsize..])
  }

  // ---- memory

  /** memcpy into the buffer. */
  method Put(a: array<byte>, at: nat, s: bytes)
    requires at + |s| <= a.Length
    modifies a
    ensures a[..] == old(a[..at]) + s + old(a[at + |s|..])
  {
    forall i | 0 <= i < |s| {
      a[at + i] := s[i];
    }
  }

  /** memmove inside the buffer. */
  method Move(a: array<byte>, dst: nat, src: nat, n: nat)
    requires dst + n <= a.Length && src + n <= a.Length
    modifies a
    ensures a[..] == old(a[..dst]) + old(a[src..src + n]) + old(a[dst + n..])
  {
    ghost var m := a[..];
    forall i | 0 <= i < n {
      a[dst + i] := a[src + i];
    }
    assert a[..dst] == m[..dst] && a[dst..dst + n] == m[src..src + n] && a[dst + n..] == m[dst + n..];
  }

  lemma Glue<T>(w: seq<T>, lo: nat, p: nat, q: nat, hi: nat)
    requires lo <= p <= q <= hi <= |w|
    ensures w[lo..hi] == w[lo..p] + w[p..q] + w[q..hi]
  {
  }

  /** What stands where after a write at `at`. */
  lemma PutParts(m: bytes, at: nat, s: bytes, w: bytes, lo: nat, hi: nat)
    requires lo <= hi <= |m| && at + |s| <= |m| && w == m[..at] + s + m[at + |s|..]
    ensures |w| == |m| && w[at..at + |s|] == s
    ensures hi <= at ==> w[lo..hi] == m[lo..hi]
    ensures at + |s| <= lo ==> w[lo..hi] == m[lo..hi]
  {
  }

  /** What a write at `at` does to a slice that lies before, around or behind it. */
  lemma PutSlice(m: bytes, at: nat, s: bytes, lo: nat, hi: nat)
    requires lo <= hi <= |m| && at + |s| <= |m|
    ensures
      var w := m[..at] + s + m[at + |s|..];
      && |w| == |m|
      && (hi <= at || at + |s| <= lo ==> w[lo..hi] == m[lo..hi])
      && (lo <= at && at + |s| <= hi ==> w[lo..hi] == m[lo..at] + s + m[at + |s|..hi])
  {
    var w := m[..at] + s + m[at + |s|..];
    PutParts(m, at, s, w, lo, hi);
    if lo <= at && at + |s| <= hi {
      PutParts(m, at, s, w, lo, at);
      PutParts(m, at, s, w, at + |s|, hi);
      Glue(w, lo, at, at + |s|, hi);
    }
  }

  /** Bytes are overwritten inside the structure block of a blob whose strings follow it. */
  method Patch(b: Blob, o: nat, s: bytes)
    requires o + |s| <= b.sizeStruct && b.offStruct + b.sizeStruct <= b.offStrings
    requires b.offStrings + b.sizeStrings <= b.buf.Length
    modifies b.buf
    ensures b.Struct() == old(b.Struct())[..o] + s + old(b.Struct())[o + |s|..]
    ensures b.Strings() == old(b.Strings())
    ensures b.buf[..b.offStruct] == old(b.buf[..b.offStruct])
    ensures b.buf[b.offStruct + b.sizeStruct..] == old(b.buf[b.offStruct + b.sizeStruct..])
  {
    ghost var m, lo, hi := b.buf[..], b.offStruct, b.offStruct + b.sizeStruct;
    ghost var lo', hi' := b.offStrings, b.offStrings + b.sizeStrings;
    Put(b.buf, b.offStruct + o, s);
    assert b.buf[..] == m[..lo + o] + s + m[lo + o + |s|..];
    PutInside(m, b.buf[..], lo, hi, o, s, lo', hi');
    PutOutside(m, b.buf[..], lo, hi, o, s);
  }

  lemma PutOutside(m: bytes, w: bytes, lo: nat, hi: nat, o: nat, s: bytes)
    requires lo + o + |s| <= hi <= |m| && w == m[..lo + o] + s + m[lo + o + |s|..]
    ensures |w| == |m| && w[..lo] == m[..lo] && w[hi..] == m[hi..]
  {
    PutSlice(m, lo + o, s, 0, lo);
    PutSlice(m, lo + o, s, hi, |m|);
    assert w[..lo] == w[0..lo] && m[..lo] == m[0..lo] && w[hi..] == w[hi..|w|] && m[hi..] == m[hi..|m|];
  }

  /** The same in a complete blob. */
  method PatchBlob(b: Blob, o: nat, s: bytes)
    requires Ordered(b) && o + |s| <= b.sizeStruct
    modifies b.buf
    ensures b.Struct() == old(b.Struct())[..o] + s + old(b.Struct())[o + |s|..]
    ensures b.Strings() == old(b.Strings()) && Outer(b) == old(Outer(b))
  {
    ghost var m := b.buf[..];
    Patch(b, o, s);
    TailSame(m, b.buf[..], b.offStruct + b.sizeStruct, b.totalsize);
  }

  lemma TailSame(m: bytes, w: bytes, x: nat, y: nat)
    requires x <= y <= |m| == |w| && w[x..] == m[x..]
    ensures w[y..] == m[y..]
  {
    assert w[y..] == w[x..][y - x..] && m[y..] == m[x..][y - x..];
  }

  lemma PutInside(m: bytes, w: bytes, lo: nat, hi: nat, o: nat, s: bytes, lo': nat, hi': nat)
    requires lo + o + |s| <= hi <= lo' <= hi' <= |m| && w == m[..lo + o] + s + m[lo + o + |s|..]
    ensures |w| == |m| && w[lo'..hi'] == m[lo'..hi']
    ensures w[lo..hi] == m[lo..hi][..o] + s + m[lo..hi][o + |s|..]
  {
    PutSlice(m, lo + o, s, lo, hi);
    PutSlice(m, lo + o, s, lo', hi');
    SubSlice(m, lo, lo + o, hi);
    SubSlice(m, lo, lo + o + |s|, hi);
  }

  // ---- chunks

  lemma BeginChunk(c: bytes, name: bytes)
    requires NoNul(name) && |c| == Len(Begin(name))
    requires c[..4] == Word(FDT_BEGIN_NODE) && c[4..4 + |name|] == name && c[4 + |name|] == 0
    ensures First(c) == Some(Begin(name)) && IsChunk(c)
  {
    assert c[0..4] == c[..4];
    Be32Word(c, 0, FDT_BEGIN_NODE);
    StrAtIs(c, 4, name);
  }

  lemma SliceOf(st: bytes, r: nat, n: nat, lo: nat, hi: nat)
    requires lo <= hi <= n && r + n <= |st|
    ensures st[r..r + n][lo..hi] == st[r + lo..r + hi]
  {
    var a, b := st[r..r + n], st[r + lo..r + hi];
    forall i | 0 <= i < hi - lo ensures a[lo..hi][i] == b[i] {
      assert a[lo + i] == st[r + (lo + i)];
    }
  }

  /** The parts of a token of three words and a rest. */
  lemma FourParts(a: bytes, b: bytes, c: bytes, e: bytes, n: nat, d: bytes)
    requires |a| == |b| == |c| == 4 && n <= |e| && d == a + b + c + e
    ensures |d| == 12 + |e| && d[..4] == a && d[4..8] == b && d[8..12] == c && d[12..12 + n] == e[..n]
  {
  }

  lemma PropChunk(c: bytes, nameoff: nat, val: bytes)
    requires nameoff < TWO32 && |val| < TWO32 && |c| == Len(Prop(nameoff, val))
    requires c[..4] == Word(FDT_PROP) && c[4..8] == Word(|val|) && c[8..12] == Word(nameoff) && c[12..12 + |val|] == val
    ensures First(c) == Some(Prop(nameoff, val)) && IsChunk(c)
  {
    assert c[0..4] == c[..4];
    Be32Word(c, 0, FDT_PROP);
    Be32Word(c, 4, |val|);
    Be32Word(c, 8, nameoff);
  }

  function PropHead(len: nat, nameoff: nat): bytes
    requires len < TWO32 && nameoff < TWO32
  {
    Word(FDT_PROP) + Word(len) + Word(nameoff)
  }

  lemma PropHeadChunk(c: bytes, nameoff: nat, val: bytes)
    requires nameoff < TWO32 && |val| < TWO32
    requires |c| == 12 + Align4(|val|) && c[..12 + |val|] == PropHead(|val|, nameoff) + val
    ensures First(c) == Some(Prop(nameoff, val)) && IsChunk(c)
  {
    var h := c[..12 + |val|];
    assert c[..4] == h[..4] && c[4..8] == h[4..8] && c[8..12] == h[8..12] && c[12..12 + |val|] == h[12..12 + |val|];
    AlignShift(12, |val|);
    PropChunk(c, nameoff, val);
  }

  lemma PlainChunk(t: Tok)
    requires t == EndNode || t == End || t == Nop
    ensures First(Word(TagOf(t))) == Some(t) && IsChunk(Word(TagOf(t)))
  {
    var c := Word(TagOf(t));
    assert c[0..4] == c;
    Be32Word(c, 0, TagOf(t));
  }

  lemma DecodeOne(c: bytes)
    requires IsChunk(c)
    ensures Decode(c) == Some([TokOf(c)])
  {
    ConsChunk(c, []);
    assert [c] + [] == [c] && [TokOf(c)] + [] == [TokOf(c)] && c + [] == c;
    DecodeJoin([c]);
  }

  lemma ToksAppend(cs: seq<bytes>, ds: seq<bytes>)
    requires AllChunks(cs) && AllChunks(ds)
    ensures AllChunks(cs + ds) && Toks(cs + ds) == Toks(cs) + Toks(ds)
  {
  }

  lemma DecodeAppend(a: bytes, b: bytes)
    requires Decode(a).Some? && Decode(b).Some?
    ensures Decode(a + b) == Some(Decode(a).value + Decode(b).value)
  {
    var cs := ChunksOf(a);
    var ds := ChunksOf(b);
    ToksAppend(cs, ds);
    JoinAppend(cs, ds);
    DecodeJoin(cs + ds);
  }

  lemma DecodeThree(a: bytes, x: seq<Tok>, b: bytes, y: seq<Tok>, c: bytes, z: seq<Tok>)
    requires Decode(a) == Some(x) && Decode(b) == Some(y) && Decode(c) == Some(z)
    ensures Decode(a + b + c) == Some(x + y + z)
  {
    DecodeAppend(a, b);
    DecodeAppend(a + b, c);
  }

  lemma SizeTo(ts: seq<Tok>, i: nat, j: nat)
    requires i <= j <= |ts|
    ensures Size(ts[..i]) <= Size(ts[..j])
  {
    assert ts[..j] == ts[..i] + ts[i..j];
    SizeAppend(ts[..i], ts[i..j]);
  }

  /** Tokens i..j of a block are replaced by those of mid. */
  lemma SpliceTokens(st: bytes, ts: seq<Tok>, i: nat, j: nat, mid: bytes, ms: seq<Tok>)
    requires Decode(st) == Some(ts) && i <= j <= |ts| && Decode(mid) == Some(ms)
    ensures Size(ts[..i]) <= Size(ts[..j]) <= |st|
    ensures Decode(st[..Size(ts[..i])] + mid + st[Size(ts[..j])..]) == Some(ts[..i] + ms + ts[j..])
  {
    DecodeFrom(st, i);
    DecodeFrom(st, j);
    SizeTo(ts, i, j);
    DecodeThree(st[..Size(ts[..i])], ts[..i], mid, ms, st[Size(ts[..j])..], ts[j..]);
  }

  /** The bytes of token i. */
  lemma ChunkAt(st: bytes, ts: seq<Tok>, off: int, i: nat)
    requires Pos(st, ts, off, i) && i < |ts|
    ensures 0 <= off && off + Len(ts[i]) <= |st|
    ensures First(st[off..off + Len(ts[i])]) == Some(ts[i])
  {
    TagAt(st, ts, off, i);
    FirstOf(st[off..], st[off..off + Len(ts[i])], ts[i], Len(ts[i]));
  }

  /** The same, by offsets. */
  lemma SpliceAt(st: bytes, ts: seq<Tok>, i: nat, j: nat, x: nat, y: nat, mid: bytes, ms: seq<Tok>)
    requires Decode(st) == Some(ts) && i <= j <= |ts| && Decode(mid) == Some(ms)
    requires x == Size(ts[..i]) && y == Size(ts[..j])
    ensures x <= y <= |st| && Decode(st[..x] + mid + st[y..]) == Some(ts[..i] + ms + ts[j..])
  {
    SpliceTokens(st, ts, i, j, mid, ms);
  }

  // ---- the string table

  predicate StringAt(tab: bytes, p: nat, s: bytes) {
    p + |s| + 1 <= |tab| && tab[p..p + |s| + 1] == s + [0]
  }

  /** fdt_find_string_: the first place of the string with its NUL, also inside a longer one. */
  method FindString(tab: bytes, s: bytes) returns (r: int)
    ensures r >= 0 ==> StringAt(tab, r, s) && forall p: nat | p < r :: !StringAt(tab, p, s)
    ensures r < 0 ==> r == -1 && forall p: nat :: !StringAt(tab, p, s)
  {
    var p := 0;
    while p + |s| + 1 <= |tab|
      invariant forall q: nat | q < p :: !StringAt(tab, q, s)
    {
      if tab[p..p + |s| + 1] == s + [0] {
        return p;
      }
      p := p + 1;
    }
    return -1;
  }

  lemma StringFound(tab: bytes, s: bytes, p: nat)
    requires NoNul(s) && StringAt(tab, p, s)
    ensures StrAt(tab, p) == Some(s)
  {
    assert tab[p..p + |s|] == tab[p..p + |s| + 1][..|s|] == s;
    assert tab[p + |s|] == tab[p..p + |s| + 1][|s|] == 0;
    StrAtIs(tab, p, s);
  }
}
