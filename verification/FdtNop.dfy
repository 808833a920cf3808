/** The NOP forms of deletion in libs/libfdt/fdt_wip.c: a property or a node is overwritten with NOP
    tags and nothing moves. The blob then holds the same tree as after the deletion that splices
    the bytes out. */
module FdtNop {
  import opened Prelude
  import opened FdtTokens
  import opened FdtTree
  import opened FdtPlace
  import opened FdtEditSpec
  import opened FdtWalk
  import opened FdtRead
  import opened FdtBlob
  import opened FdtEdit
  import opened FdtEditNode

  function Nops(k: nat): bytes {
    if k == 0 then [] else Nops(k - 1) + Word(FDT_NOP)
  }

  function NopToks(k: nat): seq<Tok> {
    seq(k, i => Nop)
  }

  lemma NopWord()
    ensures |Word(FDT_NOP)| == 4 && Decode(Word(FDT_NOP)) == Some([Nop])
  {
    PlainChunk(Nop);
    DecodeOne(Word(FDT_NOP));
  }

  lemma {:induction false} NopsDecode(k: nat)
    ensures Decode(Nops(k)) == Some(NopToks(k)) && |Nops(k)| == 4 * k
  {
    if k > 0 {
      NopsDecode(k - 1);
      NopWord();
      NopsMore(Nops(k - 1), NopToks(k - 1), Word(FDT_NOP), k);
    } else {
      assert NopToks(0) == [];
    }
  }

  lemma NopsMore(a: bytes, ts: seq<Tok>, w: bytes, k: nat)
    requires k > 0 && Decode(a) == Some(ts) && ts == NopToks(k - 1) && Decode(w) == Some([Nop])
    ensures Decode(a + w) == Some(NopToks(k))
  {
    DecodeAppend(a, w);
    assert NopToks(k) == ts + [Nop];
  }

  lemma NopsSilent(k: nat, str: bytes)
    ensures Spells(Nops(k), str, []) && |Nops(k)| == 4 * k
  {
    NopsDecode(k);
    NopsSayNothing(NopToks(k), str);
  }

  /** The block with k Nops from o on. */
  function Nopped(st: bytes, o: nat, k: nat): bytes
    requires o + 4 * k <= |st|
  {
    st[..o] + Nops(k) + st[o + 4 * k..]
  }

  /** fdt_nop_region_ for len bytes from offset o of the structure block: n words. */
  method NopRegion(b: Blob, o: nat, len: nat, ghost n: nat)
    requires Ordered(b) && Align4(len) == 4 * n && o + 4 * n <= b.sizeStruct
    modifies b.buf
    ensures b.Struct() == Nopped(old(b.Struct()), o, n) && b.Strings() == old(b.Strings()) && Outer(b) == old(Outer(b))
  {
    ghost var st, k := b.Struct(), 0;
    var p := 0;
    NoNop(st, o);
    while p < len
      invariant p == 4 * k && k <= n
      invariant b.Struct() == Nopped(st, o, k) && b.Strings() == old(b.Strings()) && Outer(b) == old(Outer(b))
      decreases n - k
    {
      PutNop(b, o + p, o, st, k);
      p, k := p + 4, k + 1;
    }
  }

  lemma NoNop(st: bytes, o: nat)
    requires o <= |st|
    ensures Nopped(st, o, 0) == st
  {
  }

  method PutNop(b: Blob, at: nat, ghost o: nat, ghost st: bytes, ghost k: nat)
    requires Ordered(b) && at == o + 4 * k && at + 4 <= |st| && b.Struct() == Nopped(st, o, k)
    modifies b.buf
    ensures b.Struct() == Nopped(st, o, k + 1) && b.Strings() == old(b.Strings()) && Outer(b) == old(Outer(b))
  {
    NextNop(st, o, k, Nopped(st, o, k));
    PatchBlob(b, at, Word(FDT_NOP));
  }

  lemma NextNop(st: bytes, o: nat, k: nat, s: bytes)
    requires o + 4 * k + 4 <= |st| && s == Nopped(st, o, k)
    ensures |s| == |st| && s[..o + 4 * k] + Word(FDT_NOP) + s[o + 4 * k + 4..] == Nopped(st, o, k + 1)
  {
    NopsDecode(k);
    assert s[..o + 4 * k] == st[..o] + Nops(k);
    assert s[o + 4 * k + 4..] == st[o + 4 * (k + 1)..];
  }

  /** Nops in the place of len bytes at o, rounded up to whole words, make the block say g. */
  ghost predicate NopFits(st: bytes, str: bytes, o: nat, len: nat, k: nat, g: seq<Event>) {
    Align4(len) == 4 * k && o + 4 * k <= |st| && Says(Nopped(st, o, k), str, g)
  }

  lemma EraseFits(st: bytes, str: bytes, us: seq<Tok>, x: nat, y: nat, r: int, len: nat, g: seq<Event>) returns (k: nat)
    requires Pos(st, us, r, x) && Pos(st, us, r + Align4(len), y) && TokensFit(us, x, y, str, [], g)
    ensures r >= 0 && NopFits(st, str, r, len, k, g)
  {
    k := Align4(len) / 4;
    InBlock(st, us, x, y, r, r + Align4(len));
    NopsSilent(k, str);
    BytesFit(st, str, us, x, y, r, r + 4 * k, [], Nops(k), g);
  }

  /** st' is st with some words in a row turned into Nops. */
  ghost predicate NopsOnly(st: bytes, st': bytes) {
    exists o: nat, k: nat | o + 4 * k <= |st| :: st' == Nopped(st, o, k)
  }

  method Erase(b: Blob, o: nat, len: nat, ghost k: nat, ghost g: seq<Event>)
    requires Ordered(b) && NopFits(b.Struct(), b.Strings(), o, len, k, g)
    modifies b.buf
    ensures Saying(b, g) && NopsOnly(old(b.Struct()), b.Struct())
    ensures b.Strings() == old(b.Strings()) && Outer(b) == old(Outer(b))
  {
    NopRegion(b, o, len, k);
  }

  method FindNopProperty(st: bytes, str: bytes, off: int, name: bytes, ghost us: seq<Tok>, ghost i: nat, ghost g: seq<Event>)
    returns (r: int, len: nat, ghost w: nat)
    requires Sought(st, str, off, us, i, name, [], g)
    ensures if FindFrom(us, str, i + 1, name).Some? then r >= 0 && NopFits(st, str, r, len, w, g) else r == ERR_NOTFOUND
  {
    var l;
    r, l := GetPropertyW(st, str, off, name, us, i);
    len, w := l + 12, 0;
    if r >= 0 {
      AlignShift(12, l);
      ghost var q := FindFrom(us, str, i + 1, name).value;
      w := EraseFits(st, str, us, q, q + 1, r, len, g);
    }
  }

  method EraseProperty(b: Blob, off: int, name: bytes, ghost us: seq<Tok>, ghost i: nat, ghost g: seq<Event>) returns (err: int)
    requires Ordered(b) && Sought(b.Struct(), b.Strings(), off, us, i, name, [], g)
    modifies b.buf
    ensures if FindFrom(us, old(b.Strings()), i + 1, name).Some? then err == 0 && Saying(b, g) && NopsOnly(old(b.Struct()), b.Struct())
            else err == ERR_NOTFOUND && unchanged(b.buf)
    ensures b.Strings() == old(b.Strings()) && Outer(b) == old(Outer(b))
  {
    var r, len, w := FindNopProperty(b.Struct(), b.Strings(), off, name, us, i, g);
    if r < 0 {
      err := r;
    } else {
      err := 0;
      Erase(b, r, len, w, g);
    }
  }

  /** fdt_nop_property: the same tree as after FdtEdit.DelProp. */
  method NopProperty(b: Blob, off: int, name: bytes, ghost t: Node, ghost p: Place) returns (err: int)
    requires Located(b, t, off, p)
    modifies b.buf
    ensures
      if IndexOf(p.n.props, name) == |p.n.props| then err == ERR_NOTFOUND && unchanged(b.buf)
      else err == 0 && Tree(b, PropGone(p, name)) && NopsOnly(old(b.Struct()), b.Struct())
    ensures b.Strings() == old(b.Strings()) && Outer(b) == old(Outer(b))
  {
    ghost var t' := if IndexOf(p.n.props, name) < |p.n.props| then PropGone(p, name) else t;
    Seek(b.Struct(), b.Strings(), t, off, p, name, [], t');
    err := EraseProperty(b, off, name, p.us, p.i, Flat(t'));
  }

  method FindNopNode(st: bytes, str: bytes, off: nat, ghost us: seq<Tok>, ghost i: nat, ghost e: nat, ghost g: seq<Event>)
    returns (len: nat, ghost w: nat)
    requires Begins(st, us, off, i) && Close(us, i + 1, 0) == Some(e) && TokensFit(us, i, e, str, [], g)
    ensures NopFits(st, str, off, len, w, g)
  {
    var end := FindNodeEnd(st, off, us, i, e);
    InBlock(st, us, i, e, off, end);
    PosAligned(st, us, off, i);
    PosAligned(st, us, end, e);
    len := end - off;
    assert Align4(len) == len;
    w := EraseFits(st, str, us, i, e, off, len, g);
  }

  /** fdt_nop_node: the same as after FdtEditNode.DelNode. */
  method NopNode(b: Blob, off: nat, ghost t: Node, ghost p: Place) returns (err: int)
    requires Located(b, t, off, p)
    modifies b.buf
    ensures err == 0 && Saying(b, NodeGone(p)) && NopsOnly(old(b.Struct()), b.Struct())
    ensures b.Strings() == old(b.Strings()) && Outer(b) == old(Outer(b))
    ensures p.z.In? ==> Tree(b, Fill(p.z, []))
  {
    NodeSought(b.Struct(), b.Strings(), t, off, p);
    GoneIs(p);
    var len, w := FindNopNode(b.Struct(), b.Strings(), off, p.us, p.i, p.e, NodeGone(p));
    Erase(b, off, len, w, NodeGone(p));
    err := 0;
  }
}
