/** The in-place editor of libs/libfdt/fdt_rw.c: bytes are spliced in and out of the structure block,
    and the abstract tree changes at one place only. */
module FdtEdit {
  import opened Prelude
  import opened FdtTokens
  import opened FdtTree
  import opened FdtPlace
  import opened FdtEditSpec
  import opened FdtWalk
  import opened FdtRead
  import opened FdtBlob

  /** A node of the tree: its index i in the tokens us of the block, its end e, its hole z. */
  datatype Place = Place(us: seq<Tok>, i: nat, e: nat, z: Hole, n: Node)

  /** The tokens of a block without the final End. */
  function Body(us: seq<Tok>): seq<Tok>
    requires us != []
  {
    us[..|us| - 1]
  }

  /** The node at offset off of a blob with the tree t is p.n, and it stands in the hole p.z. */
  ghost predicate AtPlace(st: bytes, str: bytes, t: Node, off: int, p: Place) {
    && Begins(st, p.us, off, p.i) && |str| <= INT_MAX
    && p.us[|p.us| - 1] == End
    && Reads(Body(p.us), str, t) && At(Body(p.us), str, t, p.i, p.e, p.z, p.n)
  }

  ghost predicate Located(b: Blob, t: Node, off: int, p: Place)
    reads b, b.buf
  {
    Ordered(b) && AtPlace(b.Struct(), b.Strings(), t, off, p)
  }

  lemma PlaceHolds(st: bytes, str: bytes, t: Node, off: int, p: Place)
    requires AtPlace(st, str, t, off, p)
    ensures Holds(st, str, t)
  {
  }

  /** Every node offset of a tree has a place. */
  lemma PlaceOfNode(st: bytes, str: bytes, t: Node, off: int, i: nat) returns (p: Place)
    requires |st| <= INT_MAX && |str| <= INT_MAX && Holds(st, str, t) && Begins(st, Decode(st).value, off, i)
    ensures AtPlace(st, str, t, off, p) && p.i == i
  {
    var us := Decode(st).value;
    assert Body(us)[i] == us[i];
    var e, z, n := NodeAt(Body(us), str, t, i);
    p := Place(us, i, e, z, n);
  }

  // ---- replacing bytes of the block

  ghost predicate Tell(ms: seq<Tok>, str: bytes, es: seq<Event>) {
    Events(ms, str) == Some(es)
  }

  /** Tokens that say es in the place of the tokens x..y make the block say g. */
  ghost predicate TokensFit(us: seq<Tok>, x: nat, y: nat, str: bytes, es: seq<Event>, g: seq<Event>) {
    && x <= y < |us| && us[|us| - 1] == End
    && forall ms: seq<Tok> | Tell(ms, str, es) :: Events(Body(us)[..x] + ms + Body(us)[y..], str) == Some(g)
  }

  /** mid is a sequence of whole tokens that say es. */
  ghost predicate Spells(mid: bytes, str: bytes, es: seq<Event>) {
    Decode(mid).Some? && Tell(Decode(mid).value, str, es)
  }

  lemma BodySplice(us: seq<Tok>, x: nat, y: nat, ms: seq<Tok>)
    requires x <= y < |us| && us[|us| - 1] == End
    ensures
      var ws := us[..x] + ms + us[y..];
      ws != [] && ws[|ws| - 1] == End && Body(ws) == Body(us)[..x] + ms + Body(us)[y..]
  {
  }

  lemma HoldsTokens(st: bytes, us: seq<Tok>, str: bytes, g: seq<Event>)
    requires Decode(st) == Some(us) && us != [] && us[|us| - 1] == End && Events(Body(us), str) == Some(g)
    ensures Says(st, str, g)
  {
  }

  lemma SplicedTree(st: bytes, str: bytes, us: seq<Tok>, x: nat, y: nat, mid: bytes, ms: seq<Tok>, g: seq<Event>)
    requires Decode(st) == Some(us) && x <= y < |us| && us[|us| - 1] == End && Decode(mid) == Some(ms)
    requires Events(Body(us)[..x] + ms + Body(us)[y..], str) == Some(g)
    ensures Size(us[..x]) <= Size(us[..y]) <= |st|
    ensures Says(st[..Size(us[..x])] + mid + st[Size(us[..y])..], str, g)
  {
    SpliceTokens(st, us, x, y, mid, ms);
    BodySplice(us, x, y, ms);
    HoldsTokens(st[..Size(us[..x])] + mid + st[Size(us[..y])..], us[..x] + ms + us[y..], str, g);
  }

  /** From tokens to bytes: mid in the place of the bytes r..end. */
  lemma BytesFit(st: bytes, str: bytes, us: seq<Tok>, x: nat, y: nat, r: nat, end: nat, es: seq<Event>, mid: bytes, g: seq<Event>)
    requires Pos(st, us, r, x) && Pos(st, us, end, y) && TokensFit(us, x, y, str, es, g) && Spells(mid, str, es)
    ensures r <= end <= |st| && Says(st[..r] + mid + st[end..], str, g)
  {
    SplicedTree(st, str, us, x, y, mid, Decode(mid).value, g);
  }

  lemma InBlock(st: bytes, us: seq<Tok>, x: nat, y: nat, r: int, end: int)
    requires Pos(st, us, r, x) && Pos(st, us, end, y) && x <= y
    ensures 0 <= r <= end <= |st|
  {
    SizeTo(us, x, y);
    DecodeFrom(st, y);
  }

  lemma SpellsChunk(c: bytes, str: bytes, es: seq<Event>)
    requires IsChunk(c) && Events([TokOf(c)], str) == Some(es)
    ensures Spells(c, str, es)
  {
    DecodeOne(c);
  }

  // ---- splicing

  /** fdt_data_size_ */
  function DataSize(b: Blob): nat
    reads b
  {
    b.offStrings + b.sizeStrings
  }

  /** A memmove of everything between q and end to q': three slices of the result. */
  method Shift(a: array<byte>, lo: nat, p: nat, q: nat, hi: nat, from: nat, end: nat, q': nat, hi': nat, from': nat, end': nat, top: nat)
    requires lo <= p <= q <= hi <= from <= end <= a.Length && p <= q' && end' <= top <= a.Length
    requires hi' - q' == hi - q && from' - q' == from - q && end' - q' == end - q
    modifies a
    ensures a[lo..p] == old(a[lo..p]) && a[q'..hi'] == old(a[q..hi]) && a[from'..end'] == old(a[from..end])
    ensures a[..lo] == old(a[..lo]) && a[top..] == old(a[top..])
  {
    ghost var m := a[..];
    forall k | q <= k < end {
      a[k - q + q'] := a[k];
    }
    assert forall k | q' <= k < end' :: a[k] == m[k - q' + q];
    ShiftSlice(m, a[..], q, q', end', q, hi, q', hi');
    ShiftSlice(m, a[..], q, q', end', from, end, from', end');
  }

  lemma ShiftSlice(m: bytes, w: bytes, q: nat, q': nat, end': nat, lo: nat, hi: nat, lo': nat, hi': nat)
    requires q <= lo <= hi <= |m| && q' <= lo' <= hi' <= end' <= |w| && lo' - q' == lo - q && hi' - q' == hi - q
    requires forall k | q' <= k < end' :: 0 <= k - q' + q < |m| && w[k] == m[k - q' + q]
    ensures w[lo'..hi'] == m[lo..hi]
  {
    forall i | 0 <= i < hi - lo ensures w[lo'..hi'][i] == m[lo..hi][i] {
      assert w[lo' + i] == m[lo' + i - q' + q];
    }
  }

  /** fdt_splice_ at an offset of the structure block st, which stands at lo, with the strings str
      at `from`: g is what the move leaves in the new region. */
  method ShiftBlocks(a: array<byte>, lo: nat, o: nat, oldlen: nat, newlen: nat, ghost st: bytes, from: nat, ghost str: bytes,
                     hi: nat, end: nat, hi': nat, from': nat, end': nat, top: nat) returns (ghost g: bytes)
    requires o + oldlen <= |st| && hi == lo + |st| <= from && from + |str| == end <= a.Length
    requires hi' == hi - oldlen + newlen && from' == from - oldlen + newlen && end' == end - oldlen + newlen <= top <= a.Length
    requires a[lo..hi] == st && a[from..end] == str
    modifies a
    ensures |g| == newlen && a[lo..hi'] == st[..o] + g + st[o + oldlen..] && a[from'..end'] == str
    ensures a[..lo] == old(a[..lo]) && a[top..] == old(a[top..])
  {
    var p, q, q' := lo + o, lo + o + oldlen, lo + o + newlen;
    SubSlice(a[..], lo, p, hi);
    SubSlice(a[..], lo, q, hi);
    ghost var x, y := st[..o], st[o + oldlen..];
    assert a[lo..p] == x && a[q..hi] == y;
    Shift(a, lo, p, q, hi, from, end, q', hi', from', end', top);
    g := a[p..q'];
    Glue(a[..], lo, p, q', hi');
  }

  method SetSizes(b: Blob, sizeStruct: nat, offStrings: nat)
    requires Ordered(b) && b.offStruct + sizeStruct <= offStrings && offStrings + b.sizeStrings <= b.totalsize
    modifies b`sizeStruct, b`offStrings
    ensures Ordered(b) && b.sizeStruct == sizeStruct && b.offStrings == offStrings
    ensures b.Struct() == old(b.buf[b.offStruct..b.offStruct + sizeStruct])
    ensures b.Strings() == old(b.buf[offStrings..offStrings + b.sizeStrings]) && Outer(b) == old(Outer(b))
  {
    b.sizeStruct := sizeStruct;
    b.offStrings := offStrings;
  }

  /** The structure block has grown by n bytes and the strings have moved with it. */
  twostate predicate Grown(b: Blob, n: int)
    reads b
  {
    b.sizeStruct == old(b.sizeStruct) + n && b.offStrings == old(b.offStrings) + n && b.sizeStrings == old(b.sizeStrings)
  }

  /** fdt_splice_struct_: g is what the move leaves in the new region. */
  method OpenGap(b: Blob, o: nat, oldlen: nat, newlen: nat) returns (err: int, ghost g: bytes)
    requires Ordered(b) && o + oldlen <= b.sizeStruct
    modifies b`sizeStruct, b`offStrings, b`sizeStrings, b.buf
    ensures err == (if old(DataSize(b)) - oldlen + newlen > old(b.totalsize) then ERR_NOSPACE else 0)
    ensures err != 0 ==> unchanged(b) && unchanged(b.buf)
    ensures err == 0 ==> Ordered(b) && |g| == newlen && Grown(b, newlen - oldlen) && Outer(b) == old(Outer(b))
    ensures err == 0 ==> b.Struct() == old(b.Struct())[..o] + g + old(b.Struct())[o + oldlen..]
    ensures err == 0 ==> b.Strings() == old(b.Strings())
  {
    var end := b.offStrings + b.sizeStrings;
    g := [];
    if end - oldlen + newlen > b.totalsize {
      err := ERR_NOSPACE;
    } else {
      err := 0;
      var sizeStruct, offStrings := b.sizeStruct - oldlen + newlen, b.offStrings - oldlen + newlen;
      g := ShiftBlocks(b.buf, b.offStruct, o, oldlen, newlen, b.Struct(), b.offStrings, b.Strings(),
                       b.offStruct + b.sizeStruct, end, b.offStruct + sizeStruct, offStrings, offStrings + b.sizeStrings, b.totalsize);
      SetSizes(b, sizeStruct, offStrings);
    }
  }

  /** fdt_splice_struct_, then s is written to the front of the new region c; behind s it holds
      whatever the move left there. */
  method SpliceStruct(b: Blob, o: nat, oldlen: nat, newlen: nat, s: bytes) returns (err: int, ghost c: bytes)
    requires Ordered(b) && o + oldlen <= b.sizeStruct && |s| <= newlen
    modifies b`sizeStruct, b`offStrings, b`sizeStrings, b.buf
    ensures err == (if old(DataSize(b)) - oldlen + newlen > old(b.totalsize) then ERR_NOSPACE else 0)
    ensures err != 0 ==> unchanged(b) && unchanged(b.buf)
    ensures err == 0 ==> Ordered(b) && Opens(c, newlen, s) && Grown(b, newlen - oldlen) && Outer(b) == old(Outer(b))
    ensures err == 0 ==> b.Struct() == old(b.Struct())[..o] + c + old(b.Struct())[o + oldlen..]
    ensures err == 0 ==> b.Strings() == old(b.Strings())
  {
    ghost var st := b.Struct();
    ghost var g;
    err, g := OpenGap(b, o, oldlen, newlen);
    c := [];
    if err == 0 {
      PatchGap(st[..o], g, st[o + oldlen..], s);
      c := s + g[|s|..];
      PatchBlob(b, o, s);
    }
  }

  lemma PatchGap(x: bytes, g: bytes, y: bytes, s: bytes)
    requires |s| <= |g|
    ensures
      var st := x + g + y;
      st[..|x|] + s + st[|x| + |s|..] == x + (s + g[|s|..]) + y
  {
  }

  /** n bytes that begin with s. */
  ghost predicate Opens(c: bytes, n: nat, s: bytes) {
    |c| == n && |s| <= n && c[..|s|] == s
  }

  /** Whatever the move leaves behind s, the region o of oldlen bytes with newlen bytes that begin
      with s in its place makes the block say g. */
  ghost predicate Fits(st: bytes, str: bytes, o: nat, oldlen: nat, newlen: nat, s: bytes, g: seq<Event>) {
    && o + oldlen <= |st| && |s| <= newlen
    && forall c: bytes | Opens(c, newlen, s) :: Says(st[..o] + c + st[o + oldlen..], str, g)
  }

  /** s stands at offset o. */
  ghost predicate Stands(st: bytes, o: nat, s: bytes) {
    o + |s| <= |st| && st[o..o + |s|] == s
  }

  lemma StandsThere(st: bytes, o: nat, end: nat, n: nat, c: bytes, s: bytes)
    requires o <= end <= |st| && Opens(c, n, s)
    ensures Stands(st[..o] + c + st[end..], o, s)
  {
  }

  method Replace(b: Blob, o: nat, oldlen: nat, newlen: nat, s: bytes, ghost g: seq<Event>) returns (err: int)
    requires Ordered(b) && Fits(b.Struct(), b.Strings(), o, oldlen, newlen, s, g)
    modifies b`sizeStruct, b`offStrings, b`sizeStrings, b.buf
    ensures err == (if old(DataSize(b)) - oldlen + newlen > old(b.totalsize) then ERR_NOSPACE else 0)
    ensures err == 0 ==> Saying(b, g) && Stands(b.Struct(), o, s) && Grown(b, newlen - oldlen) && Outer(b) == old(Outer(b))
    ensures err != 0 ==> unchanged(b) && unchanged(b.buf)
  {
    ghost var st, str := b.Struct(), b.Strings();
    ghost var c;
    err, c := SpliceStruct(b, o, oldlen, newlen, s);
    if err == 0 {
      StandsThere(st, o, o + oldlen, newlen, c, s);
      assert Says(st[..o] + c + st[o + oldlen..], str, g);
    }
  }

  /** The same, with w stored at `at` afterwards. */
  ghost predicate FitsPatched(st: bytes, str: bytes, o: nat, oldlen: nat, newlen: nat, s: bytes, at: nat, w: bytes, g: seq<Event>) {
    && o + oldlen <= |st| && |s| <= newlen && at + |w| <= o
    && forall c: bytes | Opens(c, newlen, s) :: Says(Patched(st[..o] + c + st[o + oldlen..], at, w), str, g)
  }

  function Patched(st: bytes, at: nat, w: bytes): bytes
    requires at + |w| <= |st|
  {
    st[..at] + w + st[at + |w|..]
  }

  method ReplaceAndPatch(b: Blob, o: nat, oldlen: nat, newlen: nat, s: bytes, at: nat, w: bytes, ghost g: seq<Event>) returns (err: int)
    requires Ordered(b) && FitsPatched(b.Struct(), b.Strings(), o, oldlen, newlen, s, at, w, g)
    modifies b`sizeStruct, b`offStrings, b`sizeStrings, b.buf
    ensures err == (if old(DataSize(b)) - oldlen + newlen > old(b.totalsize) then ERR_NOSPACE else 0)
    ensures err == 0 ==> Saying(b, g) && Grown(b, newlen - oldlen) && Outer(b) == old(Outer(b))
    ensures err != 0 ==> unchanged(b) && unchanged(b.buf)
  {
    ghost var st, str := b.Struct(), b.Strings();
    ghost var c;
    err, c := SpliceStruct(b, o, oldlen, newlen, s);
    if err == 0 {
      assert Says(Patched(st[..o] + c + st[o + oldlen..], at, w), str, g);
      PatchBlob(b, at, w);
    }
  }

  // ---- looking up a property of the node

  lemma {:induction false} FindBody(us: seq<Tok>, str: bytes, j: nat, name: bytes)
    requires us != [] && us[|us| - 1] == End && j < |us|
    ensures FindFrom(us, str, j, name) == FindFrom(Body(us), str, j, name)
    decreases |us| - j
  {
    if j < |us| - 1 {
      assert Body(us)[j] == us[j];
      FindBody(us, str, j + 1, name);
    }
  }

  /** The property token of that name is the first such property, and without one the walk stops
      inside the tree. */
  lemma Lookup(st: bytes, str: bytes, t: Node, off: int, p: Place, name: bytes)
    requires AtPlace(st, str, t, off, p)
    ensures
      var q, k := FindFrom(p.us, str, p.i + 1, name), IndexOf(p.n.props, name);
      && (q.Some? <==> k < |p.n.props|)
      && (q.Some? ==> FoundAt(Body(p.us), str, p.i + 1, p.e, p.n.props, Flats(p.n.kids) + [EEnd], q.value, k))
    ensures p.e < |p.us| && SkipQuiet(p.us, p.i + 1) < p.e && StopAt(p.us, SkipQuiet(p.us, p.i + 1)) == ERR_NOTFOUND
    ensures NodeSpan(p.us, str, p.i, p.e, p.n)
  {
    FindBody(p.us, str, p.i + 1, name);
    PropPlace(Body(p.us), str, t, p.i, p.e, p.z, p.n, name);
    Span(st, str, t, off, p);
    KidsBegin(p.us, str, p.i, p.e, p.n);
    KidOrEnd(p.us, str, SkipQuiet(p.us, p.i + 1), p.e, p.n.kids);
  }

  lemma Span(st: bytes, str: bytes, t: Node, off: int, p: Place)
    requires AtPlace(st, str, t, off, p)
    ensures p.e < |p.us| && NodeSpan(p.us, str, p.i, p.e, p.n)
  {
    var ts := Body(p.us);
    assert ts[p.i..p.e] == p.us[p.i..p.e];
    assert ts[p.e - 1] == p.us[p.e - 1] && ts[p.i] == p.us[p.i];
  }

  /** The tree with other properties in the place of property k. */
  function Exchanged(p: Place, k: nat, ms: seq<Property>): Node
    requires k < |p.n.props|
  {
    Plug(p.z, p.n.(props := p.n.props[..k] + ms + p.n.props[k + 1..]))
  }

  /** Tokens that say ms fit in the place of property k. */
  lemma ExchangeTokens(p: Place, str: bytes, t: Node, q: nat, k: nat, ms: seq<Property>, t': Node)
    requires p.us != [] && p.us[|p.us| - 1] == End && At(Body(p.us), str, t, p.i, p.e, p.z, p.n)
    requires FoundAt(Body(p.us), str, p.i + 1, p.e, p.n.props, Flats(p.n.kids) + [EEnd], q, k) && t' == Exchanged(p, k, ms)
    ensures TokensFit(p.us, q, q + 1, str, PropEvents(ms), Flat(t'))
  {
    forall mid: seq<Tok> | Tell(mid, str, PropEvents(ms)) ensures Reads(Body(p.us)[..q] + mid + Body(p.us)[q + 1..], str, t') {
      ExchangeFound(Body(p.us), str, t, p.i, p.e, p.z, p.n, q, k, mid, ms);
    }
  }

  /** A search for the property ends at a token that may be exchanged for es, or finds nothing. */
  ghost predicate Sought(st: bytes, str: bytes, off: int, us: seq<Tok>, i: nat, name: bytes, es: seq<Event>, g: seq<Event>) {
    && Begins(st, us, off, i) && |str| <= INT_MAX
    && var q := FindFrom(us, str, i + 1, name);
       if q.Some? then TokensFit(us, q.value, q.value + 1, str, es, g)
       else StopAt(us, SkipQuiet(us, i + 1)) == ERR_NOTFOUND
  }

  lemma Seek(st: bytes, str: bytes, t: Node, off: int, p: Place, name: bytes, ms: seq<Property>, t': Node)
    requires AtPlace(st, str, t, off, p)
    requires IndexOf(p.n.props, name) < |p.n.props| ==> t' == Exchanged(p, IndexOf(p.n.props, name), ms)
    ensures Sought(st, str, off, p.us, p.i, name, PropEvents(ms), Flat(t'))
    ensures
      var q, k := FindFrom(p.us, str, p.i + 1, name), IndexOf(p.n.props, name);
      (q.Some? <==> k < |p.n.props|) && (q.Some? ==> p.us[q.value].val == p.n.props[k].val)
  {
    Lookup(st, str, t, off, p, name);
    var q := FindFrom(p.us, str, p.i + 1, name);
    if q.Some? {
      ExchangeTokens(p, str, t, q.value, IndexOf(p.n.props, name), ms, t');
    }
  }

  // ---- fdt_delprop

  lemma NothingSpells(str: bytes)
    ensures Spells([], str, [])
  {
  }

  /** What may be replaced by nothing may be cut out. */
  lemma CutFits(st: bytes, str: bytes, us: seq<Tok>, x: nat, y: nat, r: int, end: int, g: seq<Event>)
    requires Pos(st, us, r, x) && Pos(st, us, end, y) && TokensFit(us, x, y, str, [], g)
    ensures 0 <= r <= end && Fits(st, str, r, end - r, 0, [], g)
  {
    InBlock(st, us, x, y, r, end);
    NothingSpells(str);
    BytesFit(st, str, us, x, y, r, end, [], [], g);
    forall c: bytes | Opens(c, 0, []) ensures Says(st[..r] + c + st[r + (end - r)..], str, g) {
      assert c == [];
    }
  }

  /** fdt_get_property_w: the offset of the property, and the length of its value. */
  method GetPropertyW(st: bytes, str: bytes, off: int, name: bytes, ghost us: seq<Tok>, ghost i: nat) returns (r: int, len: nat)
    requires Begins(st, us, off, i) && |str| <= INT_MAX
    ensures
      match FindFrom(us, str, i + 1, name)
      case Some(q) => r >= 0 && Pos(st, us, r, q) && len == |us[q].val| && Pos(st, us, r + 12 + Align4(len), q + 1)
      case None => r == StopAt(us, SkipQuiet(us, i + 1))
  {
    r := FindProperty(st, str, off, name, us, i);
    len := 0;
    if r >= 0 {
      len := PropLen(st, r, us, FindFrom(us, str, i + 1, name).value);
    }
  }

  /** Where the bytes of the property are. */
  method FindDeletion(st: bytes, str: bytes, off: int, name: bytes, ghost us: seq<Tok>, ghost i: nat, ghost g: seq<Event>)
    returns (r: int, n: nat)
    requires Sought(st, str, off, us, i, name, [], g)
    ensures if FindFrom(us, str, i + 1, name).Some? then r >= 0 && Fits(st, str, r, n, 0, [], g) else r == ERR_NOTFOUND
    ensures FindFrom(us, str, i + 1, name).Some? ==> n == 12 + Align4(|us[FindFrom(us, str, i + 1, name).value].val|)
  {
    var len;
    r, len := GetPropertyW(st, str, off, name, us, i);
    n := 12 + Align4(len);
    if r >= 0 {
      ghost var q := FindFrom(us, str, i + 1, name).value;
      CutFits(st, str, us, q, q + 1, r, r + 12 + Align4(len), g);
    }
  }

  /** The tree without the first property of that name. */
  function PropGone(p: Place, name: bytes): Node
    requires IndexOf(p.n.props, name) < |p.n.props|
  {
    Exchanged(p, IndexOf(p.n.props, name), [])
  }

  method CutProperty(b: Blob, off: int, name: bytes, ghost us: seq<Tok>, ghost i: nat, ghost g: seq<Event>) returns (err: int)
    requires Ordered(b) && Sought(b.Struct(), b.Strings(), off, us, i, name, [], g)
    modifies b`sizeStruct, b`offStrings, b`sizeStrings, b.buf
    ensures
      var q := FindFrom(us, old(b.Strings()), i + 1, name);
      if q.Some? then err == 0 && Saying(b, g) && Grown(b, -(12 + Align4(|us[q.value].val|)))
      else err == ERR_NOTFOUND && unchanged(b) && unchanged(b.buf)
    ensures Outer(b) == old(Outer(b))
  {
    var r, n := FindDeletion(b.Struct(), b.Strings(), off, name, us, i, g);
    if r < 0 {
      err := r;
    } else {
      err := Replace(b, r, n, 0, [], g);
    }
  }

  /** fdt_delprop: the first property of that name is gone; nothing else changes. */
  method DelProp(b: Blob, off: int, name: bytes, ghost t: Node, ghost p: Place) returns (err: int)
    requires Located(b, t, off, p)
    modifies b`sizeStruct, b`offStrings, b`sizeStrings, b.buf
    ensures
      if IndexOf(p.n.props, name) == |p.n.props| then err == ERR_NOTFOUND && unchanged(b) && unchanged(b.buf)
      else err == 0 && Tree(b, PropGone(p, name)) && Grown(b, -(12 + Align4(|p.n.props[IndexOf(p.n.props, name)].val|)))
    ensures Outer(b) == old(Outer(b))
  {
    ghost var t' := if IndexOf(p.n.props, name) < |p.n.props| then PropGone(p, name) else t;
    Seek(b.Struct(), b.Strings(), t, off, p, name, [], t');
    err := CutProperty(b, off, name, p.us, p.i, Flat(t'));
  }

  /** The length field of a property. */
  method PropLen(st: bytes, off: int, ghost ts: seq<Tok>, ghost i: nat) returns (len: nat)
    requires Pos(st, ts, off, i) && i < |ts| && ts[i].Prop?
    ensures len == |ts[i].val| && Pos(st, ts, off + 12 + Align4(len), i + 1)
  {
    TagAt(st, ts, off, i);
    WordShift(st, off, 4);
    len := Be32(st, off + 4);
    AlignShift(12, len);
  }

  // ---- fdt_setprop

  /** fdt_find_add_string_: the offset of the string, appended when it is not there. */
  method FindAddString(b: Blob, s: bytes) returns (r: int)
    requires Ordered(b) && NoNul(s)
    modifies b`sizeStrings, b.buf
    ensures r < 0 ==> r == ERR_NOSPACE && unchanged(b) && unchanged(b.buf) && DataSize(b) + |s| + 1 > b.totalsize
    ensures r >= 0 ==> Ordered(b) && b.Struct() == old(b.Struct()) && StrAt(b.Strings(), r) == Some(s)
    ensures r >= 0 ==> b.Strings() == old(b.Strings()) || b.Strings() == old(b.Strings()) + (s + [0])
    ensures Outer(b) == old(Outer(b)) && old(DataSize(b)) <= DataSize(b) <= old(DataSize(b)) + |s| + 1
  {
    r := FindString(b.Strings(), s);
    if r >= 0 {
      StringFound(b.Strings(), s, r);
    } else {
      r := AddString(b, s);
    }
  }

  method AddString(b: Blob, s: bytes) returns (r: int)
    requires Ordered(b) && NoNul(s)
    modifies b`sizeStrings, b.buf
    ensures r < 0 ==> r == ERR_NOSPACE && unchanged(b) && unchanged(b.buf) && DataSize(b) + |s| + 1 > b.totalsize
    ensures r >= 0 ==> Ordered(b) && b.Struct() == old(b.Struct()) && StrAt(b.Strings(), r) == Some(s)
    ensures r >= 0 ==> b.Strings() == old(b.Strings()) + (s + [0])
    ensures Outer(b) == old(Outer(b)) && old(DataSize(b)) <= DataSize(b) <= old(DataSize(b)) + |s| + 1
  {
    r := b.sizeStrings;
    BackString(b.Strings(), s);
    var ok := AppendStrings(b, s + [0]);
    if !ok {
      r := ERR_NOSPACE;
    }
  }

  lemma BackString(str: bytes, s: bytes)
    requires NoNul(s)
    ensures StrAt(str + (s + [0]), |str|) == Some(s)
  {
    var t := str + (s + [0]);
    assert t[|str|..|str| + |s| + 1] == s + [0];
    StringFound(t, s, |str|);
  }

  method PutBehind(a: array<byte>, lo: nat, hi: nat, from: nat, end: nat, s: bytes, top: nat)
    requires lo <= hi <= from <= end && end + |s| <= top <= a.Length
    modifies a
    ensures a[..lo] == old(a[..lo]) && a[top..] == old(a[top..])
    ensures a[lo..hi] == old(a[lo..hi]) && a[from..end + |s|] == old(a[from..end]) + s
  {
    forall i | 0 <= i < |s| {
      a[end + i] := s[i];
    }
  }

  /** fdt_splice_string_, then the string is written. */
  method AppendStrings(b: Blob, s: bytes) returns (ok: bool)
    requires Ordered(b)
    modifies b`sizeStrings, b.buf
    ensures ok <==> old(DataSize(b)) + |s| <= old(b.totalsize)
    ensures Outer(b) == old(Outer(b)) && old(DataSize(b)) <= DataSize(b) <= old(DataSize(b)) + |s|
    ensures ok ==> Ordered(b) && b.Struct() == old(b.Struct()) && b.Strings() == old(b.Strings()) + s
    ensures !ok ==> unchanged(b) && unchanged(b.buf)
  {
    var end := b.offStrings + b.sizeStrings;
    ok := end + |s| <= b.totalsize;
    if ok {
      PutBehind(b.buf, b.offStruct, b.offStruct + b.sizeStruct, b.offStrings, end, s, b.totalsize);
      b.sizeStrings := b.sizeStrings + |s|;
      assert b.offStrings + b.sizeStrings == end + |s|;
    }
  }

  /** More strings change nothing. */
  lemma PlaceMore(st: bytes, str: bytes, ext: bytes, t: Node, off: int, p: Place)
    requires AtPlace(st, str, t, off, p) && |str + ext| <= INT_MAX
    ensures AtPlace(st, str + ext, t, off, p)
  {
    var ts := Body(p.us);
    MoreStrings(ts, str, ext);
    MoreStrings(ts[..p.i], str, ext);
    MoreStrings(ts[p.i..p.e], str, ext);
    MoreStrings(ts[p.e..], str, ext);
  }

  /** The bytes of a property with a new length and the value c, padding included. */
  function Resized(st: bytes, r: nat, len: nat, c: bytes): bytes
    requires r + 12 <= |st| && len < TWO32
  {
    st[r..r + 4] + Word(len) + st[r + 8..r + 12] + c
  }

  lemma ResizedChunk(st: bytes, us: seq<Tok>, r: nat, q: nat, val: bytes, c: bytes)
    requires Pos(st, us, r, q) && q < |us| && us[q].Prop? && |val| < TWO32
    requires |c| == Align4(|val|) && c[..|val|] == val
    ensures r + 12 <= |st| && us[q].nameoff < TWO32
    ensures First(Resized(st, r, |val|, c)) == Some(Prop(us[q].nameoff, val)) && IsChunk(Resized(st, r, |val|, c))
  {
    ChunkAt(st, us, r, q);
    var b := st[r..r + Len(us[q])];
    WordOf(b, 0);
    WordOf(b, 8);
    SliceOf(st, r, Len(us[q]), 0, 4);
    SliceOf(st, r, Len(us[q]), 8, 12);
    var d := Resized(st, r, |val|, c);
    FourParts(st[r..r + 4], Word(|val|), st[r + 8..r + 12], c, |val|, d);
    AlignShift(12, |val|);
    PropChunk(d, us[q].nameoff, val);
  }

  /** Splice the value, then store the length. */
  lemma ResizedBytes(st: bytes, r: nat, old': nat, len: nat, c: bytes)
    requires r + 12 + old' <= |st| && len < TWO32
    ensures Patched(st[..r + 12] + c + st[r + 12 + old'..], r + 4, Word(len)) ==
              st[..r] + Resized(st, r, len, c) + st[r + 12 + old'..]
  {
  }

  /** The tree with the property set at its node. */
  function PropSet(p: Place, name: bytes, val: bytes): Node {
    Plug(p.z, p.n.(props := WithProp(p.n.props, name, val)))
  }

  lemma ExchangedIs(p: Place, name: bytes, val: bytes)
    requires IndexOf(p.n.props, name) < |p.n.props|
    ensures Exchanged(p, IndexOf(p.n.props, name), [Property(name, val)]) == PropSet(p, name, val)
  {
    var k := IndexOf(p.n.props, name);
    assert p.n.props[..k] + [Property(name, val)] + p.n.props[k + 1..] == p.n.props[k := Property(name, val)];
  }

  lemma SpellsProp(d: bytes, str: bytes, nameoff: nat, name: bytes, val: bytes)
    requires IsChunk(d) && TokOf(d) == Prop(nameoff, val) && StrAt(str, nameoff) == Some(name)
    ensures Spells(d, str, [EProp(Property(name, val))])
  {
    PropEvent(TokOf(d), str, name);
    SpellsChunk(d, str, [EProp(Property(name, val))]);
  }

  lemma InsertTokens(p: Place, str: bytes, t: Node, name: bytes, val: bytes)
    requires p.us != [] && p.us[|p.us| - 1] == End && At(Body(p.us), str, t, p.i, p.e, p.z, p.n)
    requires IndexOf(p.n.props, name) == |p.n.props|
    ensures TokensFit(p.us, p.i + 1, p.i + 1, str, [EProp(Property(name, val))], Flat(PropSet(p, name, val)))
  {
    forall mid: seq<Tok> | Tell(mid, str, [EProp(Property(name, val))])
      ensures Reads(Body(p.us)[..p.i + 1] + mid + Body(p.us)[p.i + 1..], str, PropSet(p, name, val))
    {
      InsertProp(Body(p.us), str, t, p.i, p.e, p.z, p.n, mid, Property(name, val));
    }
  }

  /** A property token with the name at nameoff, whatever its padding. */
  lemma HeadFits(st: bytes, str: bytes, us: seq<Tok>, q: nat, r: int, nameoff: nat, name: bytes, val: bytes, g: seq<Event>)
    requires Pos(st, us, r, q) && TokensFit(us, q, q, str, [EProp(Property(name, val))], g)
    requires nameoff < TWO32 && StrAt(str, nameoff) == Some(name) && |val| < TWO32
    ensures r >= 0 && Fits(st, str, r, 0, 12 + Align4(|val|), PropHead(|val|, nameoff) + val, g)
  {
    var n, s := 12 + Align4(|val|), PropHead(|val|, nameoff) + val;
    InBlock(st, us, q, q, r, r);
    forall c: bytes | Opens(c, n, s) ensures Says(st[..r] + c + st[r + 0..], str, g) {
      PropHeadChunk(c, nameoff, val);
      SpellsProp(c, str, nameoff, name, val);
      BytesFit(st, str, us, q, q, r, r, [EProp(Property(name, val))], c, g);
    }
  }

  lemma NewFits(st: bytes, str: bytes, t: Node, off: int, p: Place, r: int, nameoff: nat, name: bytes, val: bytes)
    requires AtPlace(st, str, t, off, p) && IndexOf(p.n.props, name) == |p.n.props| && Pos(st, p.us, r, p.i + 1)
    requires nameoff < TWO32 && StrAt(str, nameoff) == Some(name) && |val| < TWO32
    ensures r >= 0 && Fits(st, str, r, 0, 12 + Align4(|val|), PropHead(|val|, nameoff) + val, Flat(PropSet(p, name, val)))
  {
    InsertTokens(p, str, t, name, val);
    HeadFits(st, str, p.us, p.i + 1, r, nameoff, name, val, Flat(PropSet(p, name, val)));
  }

  lemma ResizeOne(st: bytes, str: bytes, us: seq<Tok>, q: nat, r: nat, len: nat, name: bytes, val: bytes, c: bytes, g: seq<Event>)
    requires Pos(st, us, r, q) && Pos(st, us, r + 12 + len, q + 1)
    requires TokensFit(us, q, q + 1, str, [EProp(Property(name, val))], g)
    requires us[q].Prop? && StrAt(str, us[q].nameoff) == Some(name)
    requires |val| < TWO32 && |c| == Align4(|val|) && c[..|val|] == val && r + 12 + len <= |st|
    ensures Says(Patched(st[..r + 12] + c + st[r + 12 + len..], r + 4, Word(|val|)), str, g)
  {
    ResizedChunk(st, us, r, q, val, c);
    ResizedBytes(st, r, len, |val|, c);
    SpellsProp(Resized(st, r, |val|, c), str, us[q].nameoff, name, val);
    BytesFit(st, str, us, q, q + 1, r, r + 12 + len, [EProp(Property(name, val))], Resized(st, r, |val|, c), g);
  }

  lemma SetFits(st: bytes, str: bytes, us: seq<Tok>, q: nat, r: int, len: nat, name: bytes, val: bytes, g: seq<Event>)
    requires Pos(st, us, r, q) && Pos(st, us, r + 12 + len, q + 1)
    requires TokensFit(us, q, q + 1, str, [EProp(Property(name, val))], g)
    requires us[q].Prop? && StrAt(str, us[q].nameoff) == Some(name) && |val| < TWO32
    ensures r >= 0 && FitsPatched(st, str, r + 12, len, Align4(|val|), val, r + 4, Word(|val|), g)
  {
    InBlock(st, us, q, q + 1, r, r + 12 + len);
    forall c: bytes | Opens(c, Align4(|val|), val)
      ensures Says(Patched(st[..r + 12] + c + st[r + 12 + len..], r + 4, Word(|val|)), str, g)
    {
      ResizeOne(st, str, us, q, r, len, name, val, c, g);
    }
  }

  lemma SeekSet(st: bytes, str: bytes, t: Node, off: int, p: Place, name: bytes, val: bytes)
    requires AtPlace(st, str, t, off, p)
    ensures Sought(st, str, off, p.us, p.i, name, [EProp(Property(name, val))], Flat(PropSet(p, name, val)))
    ensures
      var q, k := FindFrom(p.us, str, p.i + 1, name), IndexOf(p.n.props, name);
      (q.Some? <==> k < |p.n.props|) && (q.Some? ==> p.us[q.value].val == p.n.props[k].val)
  {
    PropEventsOne(Property(name, val));
    if IndexOf(p.n.props, name) < |p.n.props| {
      ExchangedIs(p, name, val);
    }
    Seek(st, str, t, off, p, name, [Property(name, val)], PropSet(p, name, val));
  }

  /** Where and how the property is changed. */
  method FindResize(st: bytes, str: bytes, off: int, name: bytes, val: bytes, ghost us: seq<Tok>, ghost i: nat, ghost g: seq<Event>)
    returns (r: int, len: nat)
    requires Sought(st, str, off, us, i, name, [EProp(Property(name, val))], g) && |val| < TWO32
    ensures if FindFrom(us, str, i + 1, name).None? then r == ERR_NOTFOUND
            else && r >= 0 && FitsPatched(st, str, r + 12, len, Align4(|val|), val, r + 4, Word(|val|), g)
                 && len == Align4(|us[FindFrom(us, str, i + 1, name).value].val|)
  {
    r, len := GetPropertyW(st, str, off, name, us, i);
    len := Align4(len);
    if r >= 0 {
      SetFits(st, str, us, FindFrom(us, str, i + 1, name).value, r, len, name, val, g);
    }
  }

  method InsertProperty(b: Blob, r: nat, nameoff: nat, name: bytes, val: bytes, ghost t: Node, ghost off: int, ghost p: Place)
    returns (err: int)
    requires Located(b, t, off, p) && nameoff < TWO32 && StrAt(b.Strings(), nameoff) == Some(name) && |val| <= INT_MAX
    requires IndexOf(p.n.props, name) == |p.n.props| && Pos(b.Struct(), p.us, r, p.i + 1)
    modifies b`sizeStruct, b`offStrings, b`sizeStrings, b.buf
    ensures err == (if old(DataSize(b)) + 12 + Align4(|val|) > old(b.totalsize) then ERR_NOSPACE else 0)
    ensures err == 0 ==> Tree(b, PropSet(p, name, val)) && Grown(b, 12 + Align4(|val|))
    ensures Outer(b) == old(Outer(b))
    ensures err != 0 ==> unchanged(b) && unchanged(b.buf)
  {
    NewFits(b.Struct(), b.Strings(), t, off, p, r, nameoff, name, val);
    err := Replace(b, r, 0, 12 + Align4(|val|), PropHead(|val|, nameoff) + val, Flat(PropSet(p, name, val)));
  }

  /** fdt_find_add_string_ does not move the node. */
  method NameString(b: Blob, name: bytes, ghost t: Node, ghost off: int, ghost p: Place) returns (nameoff: int)
    requires Located(b, t, off, p) && NoNul(name)
    modifies b`sizeStrings, b.buf
    ensures nameoff < 0 ==> nameoff == ERR_NOSPACE && old(DataSize(b)) + |name| + 1 > b.totalsize
    ensures Outer(b) == old(Outer(b)) && old(DataSize(b)) <= DataSize(b) <= old(DataSize(b)) + |name| + 1
    ensures Located(b, t, off, p) && b.Struct() == old(b.Struct())
    ensures nameoff >= 0 ==> nameoff < TWO32 && StrAt(b.Strings(), nameoff) == Some(name)
  {
    ghost var str := b.Strings();
    nameoff := FindAddString(b, name);
    if b.Strings() != str {
      PlaceMore(b.Struct(), str, name + [0], t, off, p);
    }
  }

  /** fdt_add_property_ and the copy of the value. An error may leave the name in the strings. */
  method AddProperty(b: Blob, off: int, name: bytes, val: bytes, ghost t: Node, ghost p: Place) returns (err: int)
    requires Located(b, t, off, p) && NoNul(name) && |val| <= INT_MAX
    requires IndexOf(p.n.props, name) == |p.n.props|
    modifies b`sizeStruct, b`offStrings, b`sizeStrings, b.buf
    ensures err == 0 ==> Tree(b, PropSet(p, name, val)) && b.sizeStruct == old(b.sizeStruct) + 12 + Align4(|val|)
    ensures err == 0 ==> b.offStrings == old(b.offStrings) + 12 + Align4(|val|)
    ensures err == 0 ==> old(b.sizeStrings) <= b.sizeStrings <= old(b.sizeStrings) + |name| + 1
    ensures Outer(b) == old(Outer(b))
    ensures err != 0 ==> err == ERR_NOSPACE && Located(b, t, off, p)
    ensures err != 0 ==> old(DataSize(b)) + 12 + Align4(|val|) + |name| + 1 > old(b.totalsize)
  {
    var next := SkipTag(b.Struct(), off, FDT_BEGIN_NODE, p.us, p.i);
    var nameoff := NameString(b, name, t, off, p);
    if nameoff < 0 {
      err := nameoff;
    } else {
      err := InsertProperty(b, next, nameoff, name, val, t, off, p);
    }
  }

  /** fdt_resize_property_ and the copy of the value. */
  method ResizeProperty(b: Blob, off: int, name: bytes, val: bytes, ghost us: seq<Tok>, ghost i: nat, ghost g: seq<Event>)
    returns (err: int)
    requires Ordered(b) && Sought(b.Struct(), b.Strings(), off, us, i, name, [EProp(Property(name, val))], g) && |val| < TWO32
    modifies b`sizeStruct, b`offStrings, b`sizeStrings, b.buf
    ensures
      var q := FindFrom(us, old(b.Strings()), i + 1, name);
      err == (if q.None? then ERR_NOTFOUND
              else if old(DataSize(b)) - Align4(|us[q.value].val|) + Align4(|val|) > old(b.totalsize) then ERR_NOSPACE else 0)
    ensures err == 0 ==>
              && Saying(b, g) && FindFrom(us, old(b.Strings()), i + 1, name).Some?
              && Grown(b, Align4(|val|) - Align4(|us[FindFrom(us, old(b.Strings()), i + 1, name).value].val|))
    ensures Outer(b) == old(Outer(b))
    ensures err != 0 ==> unchanged(b) && unchanged(b.buf)
  {
    var r, len := FindResize(b.Struct(), b.Strings(), off, name, val, us, i, g);
    if r < 0 {
      err := r;
    } else {
      err := ReplaceAndPatch(b, r + 12, len, Align4(|val|), val, r + 4, Word(|val|), g);
    }
  }

  /** How much a property may grow the blob: a new one by its token and its name. */
  function Growth(ps: seq<Property>, name: bytes, val: bytes): int {
    var k := IndexOf(ps, name);
    if k < |ps| then Align4(|val|) - Align4(|ps[k].val|) else 12 + Align4(|val|) + |name| + 1
  }

  /** fdt_setprop: the property is set, and nothing else in the tree changes. It fails only for
      want of space. */
  method SetProp(b: Blob, off: int, name: bytes, val: bytes, ghost t: Node, ghost p: Place) returns (err: int)
    requires Located(b, t, off, p) && NoNul(name) && |val| <= INT_MAX
    modifies b`sizeStruct, b`offStrings, b`sizeStrings, b.buf
    ensures err == 0 ==> Tree(b, PropSet(p, name, val))
    ensures err == 0 && IndexOf(p.n.props, name) < |p.n.props| ==> Grown(b, Growth(p.n.props, name, val))
    ensures err == 0 && IndexOf(p.n.props, name) == |p.n.props| ==>
              && b.sizeStruct - old(b.sizeStruct) == b.offStrings - old(b.offStrings) == 12 + Align4(|val|)
              && old(b.sizeStrings) <= b.sizeStrings <= old(b.sizeStrings) + |name| + 1
    ensures Outer(b) == old(Outer(b))
    ensures err != 0 ==> err == ERR_NOSPACE && Tree(b, t) && Located(b, t, off, p)
    ensures err != 0 ==> old(DataSize(b)) + Growth(p.n.props, name, val) > old(b.totalsize)
  {
    SeekSet(b.Struct(), b.Strings(), t, off, p, name, val);
    err := ResizeProperty(b, off, name, val, p.us, p.i, Flat(PropSet(p, name, val)));
    if err == ERR_NOTFOUND {
      err := AddProperty(b, off, name, val, t, p);
    }
    if err != 0 {
      PlaceHolds(b.Struct(), b.Strings(), t, off, p);
    }
  }

  // ---- fdt_set_name

  /** The tree with the node renamed. */
  function Renamed(p: Place, name: bytes): Node {
    Plug(p.z, p.n.(name := name))
  }

  lemma RenameTokens(p: Place, str: bytes, t: Node, name: bytes)
    requires p.us != [] && p.us[|p.us| - 1] == End && At(Body(p.us), str, t, p.i, p.e, p.z, p.n)
    ensures TokensFit(p.us, p.i, p.i + 1, str, [EBegin(name)], Flat(Renamed(p, name)))
  {
    forall mid: seq<Tok> | Tell(mid, str, [EBegin(name)])
      ensures Reads(Body(p.us)[..p.i] + mid + Body(p.us)[p.i + 1..], str, Renamed(p, name))
    {
      RenameWith(Body(p.us), str, t, p.i, p.e, p.z, p.n, mid, name);
    }
  }

  /** The bytes of a node header with the name area c. */
  lemma NameChunk(st: bytes, us: seq<Tok>, off: nat, i: nat, name: bytes, c: bytes)
    requires Pos(st, us, off, i) && i < |us| && us[i].Begin? && NoNul(name)
    requires |c| == Align4(|name| + 1) && c[..|name| + 1] == name + [0]
    ensures off + 4 <= |st| && First(st[off..off + 4] + c) == Some(Begin(name)) && IsChunk(st[off..off + 4] + c)
    ensures Len(us[i]) == 4 + Align4(|us[i].name| + 1) && off + Len(us[i]) <= |st|
  {
    ChunkAt(st, us, off, i);
    var b := st[off..off + Len(us[i])];
    WordOf(b, 0);
    var d := st[off..off + 4] + c;
    assert d[..4] == b[0..4] && d[4..4 + |name|] == c[..|name| + 1][..|name|] && d[4 + |name|] == c[..|name| + 1][|name|];
    AlignShift(4, |name| + 1);
    AlignShift(4, |us[i].name| + 1);
    BeginChunk(d, name);
  }

  lemma SpellsName(st: bytes, str: bytes, us: seq<Tok>, i: nat, off: nat, name: bytes, c: bytes)
    requires Pos(st, us, off, i) && i < |us| && us[i].Begin? && NoNul(name)
    requires |c| == Align4(|name| + 1) && c[..|name| + 1] == name + [0]
    ensures off + 4 <= |st| && Spells(st[off..off + 4] + c, str, [EBegin(name)])
  {
    NameChunk(st, us, off, i, name, c);
    EventsOne(Begin(name), str);
    SpellsChunk(st[off..off + 4] + c, str, [EBegin(name)]);
  }

  lemma HeadBytes(st: bytes, off: nat, n: nat, c: bytes)
    requires off + 4 + n <= |st|
    ensures st[..off] + (st[off..off + 4] + c) + st[off + 4 + n..] == st[..off + 4] + c + st[off + 4 + n..]
  {
  }

  lemma RenameOne(st: bytes, str: bytes, us: seq<Tok>, i: nat, off: nat, n: nat, name: bytes, c: bytes, g: seq<Event>)
    requires Pos(st, us, off, i) && Pos(st, us, off + 4 + n, i + 1)
    requires TokensFit(us, i, i + 1, str, [EBegin(name)], g) && us[i].Begin? && NoNul(name)
    requires |c| == Align4(|name| + 1) && c[..|name| + 1] == name + [0] && off + 4 + n <= |st|
    ensures Says(st[..off + 4] + c + st[off + 4 + n..], str, g)
  {
    var d := st[off..off + 4] + c;
    SpellsName(st, str, us, i, off, name, c);
    BytesFit(st, str, us, i, i + 1, off, off + 4 + n, [EBegin(name)], d, g);
    HeadBytes(st, off, n, c);
  }

  lemma NameFits(st: bytes, str: bytes, us: seq<Tok>, i: nat, off: int, n: nat, name: bytes, g: seq<Event>)
    requires Pos(st, us, off, i) && Pos(st, us, off + 4 + n, i + 1)
    requires TokensFit(us, i, i + 1, str, [EBegin(name)], g) && us[i].Begin? && NoNul(name)
    ensures off >= 0 && Fits(st, str, off + 4, n, Align4(|name| + 1), name + [0], g)
  {
    InBlock(st, us, i, i + 1, off, off + 4 + n);
    var s, m := name + [0], Align4(|name| + 1);
    forall c: bytes | Opens(c, m, s) ensures Says(st[..off + 4] + c + st[off + 4 + n..], str, g) {
      RenameOne(st, str, us, i, off, n, name, c, g);
    }
  }

  /** The length of the name area of the node. */
  method NameArea(st: bytes, off: int, ghost us: seq<Tok>, ghost i: nat) returns (n: nat)
    requires Begins(st, us, off, i)
    ensures n == Align4(|us[i].name| + 1) && Pos(st, us, off + 4 + n, i + 1)
  {
    var was := GetName(st, off, us, i);
    n := Align4(|was| + 1);
    TagAt(st, us, off, i);
    AlignShift(4, |was| + 1);
  }

  /** The name area of the node: its place and length, the new length and the new bytes. */
  method FindName(st: bytes, str: bytes, off: int, name: bytes, ghost us: seq<Tok>, ghost i: nat, ghost g: seq<Event>)
    returns (o: nat, n: nat, m: nat, s: bytes)
    requires Begins(st, us, off, i) && NoNul(name) && TokensFit(us, i, i + 1, str, [EBegin(name)], g)
    ensures n == Align4(|us[i].name| + 1) && m == Align4(|name| + 1) && Fits(st, str, o, n, m, s, g)
  {
    n := NameArea(st, off, us, i);
    o, m, s := off + 4, Align4(|name| + 1), name + [0];
    NameFits(st, str, us, i, off, n, name, g);
  }

  method ReplaceName(b: Blob, off: int, name: bytes, ghost us: seq<Tok>, ghost i: nat, ghost g: seq<Event>) returns (err: int)
    requires Ordered(b) && Begins(b.Struct(), us, off, i) && NoNul(name)
    requires TokensFit(us, i, i + 1, b.Strings(), [EBegin(name)], g)
    modifies b`sizeStruct, b`offStrings, b`sizeStrings, b.buf
    ensures err == (if old(DataSize(b)) - Align4(|us[i].name| + 1) + Align4(|name| + 1) > old(b.totalsize) then ERR_NOSPACE else 0)
    ensures err == 0 ==> Saying(b, g) && Grown(b, Align4(|name| + 1) - Align4(|us[i].name| + 1))
    ensures Outer(b) == old(Outer(b))
    ensures err != 0 ==> unchanged(b) && unchanged(b.buf)
  {
    var o, n, m, s := FindName(b.Struct(), b.Strings(), off, name, us, i, g);
    err := Replace(b, o, n, m, s, g);
  }

  /** fdt_set_name: only the name of the node changes. */
  method SetName(b: Blob, off: int, name: bytes, ghost t: Node, ghost p: Place) returns (err: int)
    requires Located(b, t, off, p) && NoNul(name)
    modifies b`sizeStruct, b`offStrings, b`sizeStrings, b.buf
    ensures err == (if old(DataSize(b)) - Align4(|p.n.name| + 1) + Align4(|name| + 1) > old(b.totalsize) then ERR_NOSPACE else 0)
    ensures err == 0 ==> Tree(b, Renamed(p, name)) && Grown(b, Align4(|name| + 1) - Align4(|p.n.name| + 1))
    ensures Outer(b) == old(Outer(b))
    ensures err != 0 ==> unchanged(b) && unchanged(b.buf)
  {
    RenameTokens(p, b.Strings(), t, name);
    err := ReplaceName(b, off, name, p.us, p.i, Flat(Renamed(p, name)));
  }
}
