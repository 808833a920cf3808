/** Adding and deleting nodes in place: fdt_add_subnode_namelen and fdt_del_node of
    libs/libfdt/fdt_rw.c, with the lookup of a child by name from fdt_ro.c. */
module FdtEditNode {
  import opened Prelude
  import opened FdtTokens
  import opened FdtTree
  import opened FdtPlace
  import opened FdtEditSpec
  import opened FdtWalk
  import opened FdtRead
  import opened FdtBlob
  import opened FdtEdit

  const AT: byte := 64

  /** fdt_nodename_eq_: a name without a unit address also matches a node that has one. */
  predicate NameEq(p: bytes, s: bytes) {
    && |s| <= |p| && p[..|s|] == s
    && (|p| == |s| || (AT !in s && p[|s|] == AT))
  }

  /** With depth nodes open below the parent at token j: the next child of the parent that
      matches. */
  function FindKid(ts: seq<Tok>, j: nat, depth: nat, name: bytes): (r: Option<nat>)
    ensures r.Some? ==> j <= r.value < |ts|
    decreases |ts| - j
  {
    if j >= |ts| then None
    else
      match ts[j]
      case Begin(nm) => if depth == 0 && NameEq(nm, name) then Some(j) else FindKid(ts, j + 1, depth + 1, name)
      case EndNode => if depth == 0 then None else FindKid(ts, j + 1, depth - 1, name)
      case End => None
      case _ => FindKid(ts, j + 1, depth, name)
  }

  /** What the loop of fdt_subnode_offset_namelen has still to look at when it is at node j. */
  function FromNode(ts: seq<Tok>, j: nat, depth: nat, name: bytes): Option<nat>
    requires j < |ts| && ts[j].Begin?
  {
    if depth == 1 && NameEq(ts[j].name, name) then Some(j) else FindKid(ts, j + 1, depth, name)
  }

  lemma {:induction false} KidWalk(ts: seq<Tok>, j: nat, depth: nat, name: bytes)
    ensures
      match WalkFrom(ts, j, depth)
      case Found(at, d) => d >= 1 && FindKid(ts, j, depth, name) == FromNode(ts, at, d, name)
      case _ => FindKid(ts, j, depth, name) == None
    decreases |ts| - j
  {
    if j < |ts| && !ts[j].Begin? && !ts[j].End? {
      if !ts[j].EndNode? {
        KidWalk(ts, j + 1, depth, name);
      } else if depth > 0 {
        KidWalk(ts, j + 1, depth - 1, name);
      }
    }
  }

  /** The loop is at node j; the parent is closed later. */
  ghost predicate Searching(ts: seq<Tok>, i: nat, name: bytes, j: nat, depth: nat) {
    && j < |ts| && ts[j].Begin? && Close(ts, j + 1, depth).Some?
    && FindKid(ts, i + 1, 0, name) == FromNode(ts, j, depth, name)
  }

  lemma SearchStep(ts: seq<Tok>, i: nat, name: bytes, j: nat, depth: nat)
    requires Searching(ts, i, name, j, depth) && !(depth == 1 && NameEq(ts[j].name, name))
    ensures
      match WalkFrom(ts, j + 1, depth)
      case Found(at, d) => d >= 1 && at > j && Searching(ts, i, name, at, d)
      case Left(_, d) => d < 0 && FindKid(ts, i + 1, 0, name) == None
      case Stop(_) => false
  {
    KidWalk(ts, j + 1, depth, name);
    CloseWalk(ts, j + 1, depth);
  }

  /** fdt_subnode_offset_namelen */
  method SubnodeOffset(st: bytes, off: int, name: bytes, ghost ts: seq<Tok>, ghost i: nat) returns (r: int)
    requires Begins(st, ts, off, i) && Close(ts, i + 1, 0).Some?
    ensures
      match FindKid(ts, i + 1, 0, name)
      case Some(q) => r >= 0 && Pos(st, ts, r, q)
      case None => r == ERR_NOTFOUND
  {
    r := off;
    var depth := 0;
    ghost var j := i;
    while r >= 0 && depth >= 0
      invariant r >= 0
      invariant depth >= 0 ==> Searching(ts, i, name, j, depth) && Pos(st, ts, r, j)
      invariant depth < 0 ==> FindKid(ts, i + 1, 0, name) == None
      decreases depth >= 0, |ts| - j
    {
      var nm := GetName(st, r, ts, j);
      if depth == 1 && NameEq(nm, name) {
        return;
      }
      SearchStep(ts, i, name, j, depth);
      ghost var w := WalkFrom(ts, j + 1, depth);
      r, depth := NextNode(st, r, depth, ts, j);
      j := w.at;
    }
    r := ERR_NOTFOUND;
  }

  // ---- the lookup on the tree

  lemma {:induction false} CloseThenKid(ts: seq<Tok>, j: nat, d: nat, name: bytes)
    requires Close(ts, j, d).Some?
    ensures FindKid(ts, j, d + 1, name) == FindKid(ts, Close(ts, j, d).value, 0, name)
    decreases |ts| - j
  {
    if !ts[j].EndNode? {
      CloseThenKid(ts, j + 1, if ts[j].Begin? then d + 1 else d, name);
    } else if d > 0 {
      CloseThenKid(ts, j + 1, d - 1, name);
    }
  }

  lemma {:induction false} KidSkip(ts: seq<Tok>, j: nat, name: bytes)
    requires j <= |ts|
    ensures FindKid(ts, j, 0, name) == FindKid(ts, SkipNops(ts, j), 0, name)
    ensures FindKid(ts, j, 0, name) == FindKid(ts, SkipQuiet(ts, j), 0, name)
    decreases |ts| - j
  {
    if j < |ts| && Quiet(ts[j]) {
      KidSkip(ts, j + 1, name);
    }
  }

  /** There is a child that matches. */
  ghost predicate HasKid(ns: seq<Node>, name: bytes) {
    exists k | 0 <= k < |ns| :: NameEq(ns[k].name, name)
  }

  lemma {:induction false} KidsSearched(ts: seq<Tok>, str: bytes, b: nat, e: nat, ns: seq<Node>, name: bytes)
    requires KidsFrom(ts, str, b, e, ns)
    ensures FindKid(ts, b, 0, name).Some? <==> HasKid(ns, name)
    decreases |ns|
  {
    KidOrEnd(ts, str, b, e, ns);
    if ns != [] {
      var m := FirstKid(ts, str, b, e, ns);
      BehindBegin(ts, str, b, m, ns[0]);
      CloseThenKid(ts, b + 1, 0, name);
      KidSkip(ts, m, name);
      KidsSearched(ts, str, SkipNops(ts, m), e, ns[1..], name);
      HasKidCons(ns, name);
    }
  }

  lemma HasKidCons(ns: seq<Node>, name: bytes)
    requires ns != []
    ensures HasKid(ns, name) <==> NameEq(ns[0].name, name) || HasKid(ns[1..], name)
  {
    if HasKid(ns[1..], name) {
      var k :| 0 <= k < |ns[1..]| && NameEq(ns[1..][k].name, name);
      assert NameEq(ns[k + 1].name, name);
    }
    if HasKid(ns, name) && !NameEq(ns[0].name, name) {
      var k :| 0 <= k < |ns| && NameEq(ns[k].name, name);
      assert ns[1..][k - 1] == ns[k];
    }
  }

  /** The lookup finds a child exactly when the node has one that matches. */
  lemma KidFound(ts: seq<Tok>, str: bytes, i: nat, e: nat, n: Node, name: bytes)
    requires NodeSpan(ts, str, i, e, n)
    ensures FindKid(ts, i + 1, 0, name).Some? <==> HasKid(n.kids, name)
    ensures Close(ts, i + 1, 0) == Some(e)
  {
    KidsBegin(ts, str, i, e, n);
    KidSkip(ts, i + 1, name);
    KidsSearched(ts, str, SkipQuiet(ts, i + 1), e, n.kids, name);
    CloseIsEnd(ts, str, i, e, n);
  }

  // ---- fdt_add_subnode_namelen

  /** The tree with a new first child of the node. */
  function WithKid(p: Place, name: bytes): Node {
    Plug(p.z, p.n.(kids := [Node(name, [], [])] + p.n.kids))
  }

  /** The bytes of a node without properties and children. */
  function NodeBytes(name: bytes): bytes {
    (Word(FDT_BEGIN_NODE) + name + seq(Align4(|name| + 1) - |name|, i => 0)) + Word(FDT_END_NODE)
  }

  lemma NodeDecodes(name: bytes)
    requires NoNul(name)
    ensures Decode(NodeBytes(name)) == Some([Begin(name), EndNode])
  {
    var c := Word(FDT_BEGIN_NODE) + name + seq(Align4(|name| + 1) - |name|, i => 0);
    AlignShift(4, |name| + 1);
    BeginChunk(c, name);
    DecodeOne(c);
    PlainChunk(EndNode);
    DecodeOne(Word(FDT_END_NODE));
    DecodeAppend(c, Word(FDT_END_NODE));
    assert [Begin(name)] + [EndNode] == [Begin(name), EndNode];
  }

  lemma KidTokens(p: Place, str: bytes, t: Node, q: nat, name: bytes)
    requires p.us != [] && p.us[|p.us| - 1] == End && At(Body(p.us), str, t, p.i, p.e, p.z, p.n)
    requires p.i < q < p.e && AllQuiet(p.us[p.i + 1..q]) && !Quiet(p.us[q])
    ensures TokensFit(p.us, q, q, str, [EBegin(name), EEnd], Flat(WithKid(p, name)))
  {
    var ts := Body(p.us);
    assert ts[p.i + 1..q] == p.us[p.i + 1..q] && ts[q] == p.us[q];
    forall mid: seq<Tok> | Tell(mid, str, [EBegin(name), EEnd])
      ensures Reads(ts[..q] + mid + ts[q..], str, WithKid(p, name))
    {
      InsertKid(ts, str, t, p.i, p.e, p.z, p.n, q, mid, name);
    }
  }

  lemma KidFits(st: bytes, str: bytes, us: seq<Tok>, q: nat, r: int, name: bytes, g: seq<Event>)
    requires Pos(st, us, r, q) && TokensFit(us, q, q, str, [EBegin(name), EEnd], g) && NoNul(name)
    ensures r >= 0 && Fits(st, str, r, 0, |NodeBytes(name)|, NodeBytes(name), g)
  {
    var s := NodeBytes(name);
    InBlock(st, us, q, q, r, r);
    NodeDecodes(name);
    NewKid(str, name);
    BytesFit(st, str, us, q, q, r, r, [EBegin(name), EEnd], s, g);
    forall c: bytes | Opens(c, |s|, s) ensures Says(st[..r] + c + st[r + 0..], str, g) {
      assert c == c[..|s|];
    }
  }

  /** The loop over the properties of the parent. */
  method SkipProps(st: bytes, off: int, ghost ts: seq<Tok>, ghost i: nat) returns (r: int)
    requires Begins(st, ts, off, i) && SkipQuiet(ts, i + 1) < |ts|
    ensures Pos(st, ts, r, SkipQuiet(ts, i + 1))
  {
    var tag, next := ReadTag(st, off, ts, i);
    ghost var j := i + 1;
    r := next;
    tag, next := ReadTag(st, r, ts, j);
    while tag == FDT_PROP || tag == FDT_NOP
      invariant j < |ts| && Pos(st, ts, r, j) && tag == TagOf(ts[j]) && SkipQuiet(ts, i + 1) == SkipQuiet(ts, j)
      invariant Pos(st, ts, next, j + 1)
      decreases |ts| - j
    {
      r, j := next, j + 1;
      tag, next := ReadTag(st, r, ts, j);
    }
  }

  /** Where the new node goes: an existing match is an error. */
  method FindInsertion(st: bytes, str: bytes, off: int, name: bytes, ghost t: Node, ghost p: Place) returns (r: int)
    requires AtPlace(st, str, t, off, p) && NoNul(name)
    ensures if HasKid(p.n.kids, name) then r == ERR_EXISTS
            else r >= 0 && Fits(st, str, r, 0, |NodeBytes(name)|, NodeBytes(name), Flat(WithKid(p, name)))
  {
    Lookup(st, str, t, off, p, name);
    KidFound(p.us, str, p.i, p.e, p.n, name);
    r := SubnodeOffset(st, off, name, p.us, p.i);
    if r >= 0 {
      r := ERR_EXISTS;
    } else if r == ERR_NOTFOUND {
      r := SkipProps(st, off, p.us, p.i);
      ghost var q := SkipQuiet(p.us, p.i + 1);
      KidTokens(p, str, t, q, name);
      KidFits(st, str, p.us, q, r, name, Flat(WithKid(p, name)));
    }
  }

  /** The new node is the first child of the parent; nothing else changes. */
  method AddSubnode(b: Blob, off: int, name: bytes, ghost t: Node, ghost p: Place) returns (r: int)
    requires Located(b, t, off, p) && NoNul(name)
    modifies b`sizeStruct, b`offStrings, b`sizeStrings, b.buf
    ensures r >= 0 ==> !HasKid(p.n.kids, name) && Tree(b, WithKid(p, name)) && Stands(b.Struct(), r, NodeBytes(name))
    ensures r >= 0 ==> Grown(b, |NodeBytes(name)|)
    ensures Outer(b) == old(Outer(b))
    ensures r < 0 ==> unchanged(b) && unchanged(b.buf)
    ensures HasKid(p.n.kids, name) ==> r == ERR_EXISTS
    ensures !HasKid(p.n.kids, name) ==> r == ERR_NOSPACE || r >= 0
    ensures r == ERR_NOSPACE ==> old(DataSize(b)) + |NodeBytes(name)| > old(b.totalsize)
  {
    r := FindInsertion(b.Struct(), b.Strings(), off, name, t, p);
    if r >= 0 {
      var err := Replace(b, r, 0, |NodeBytes(name)|, NodeBytes(name), Flat(WithKid(p, name)));
      r := if err != 0 then err else r;
    }
  }

  // ---- fdt_del_node

  /** What the block says without the node. */
  function NodeGone(p: Place): seq<Event> {
    Before(p.z) + Behind(p.z)
  }

  /** Without an inner node it is a tree again; without the root nothing is left. */
  lemma GoneIs(p: Place)
    ensures p.z.In? ==> NodeGone(p) == Flat(Fill(p.z, []))
    ensures p.z.Top? ==> NodeGone(p) == []
  {
    if p.z.In? {
      FlatFill(p.z, []);
      assert Before(p.z) + Flats([]) + Behind(p.z) == Before(p.z) + Behind(p.z);
    }
  }

  lemma DropTokens(p: Place, str: bytes, t: Node)
    requires p.us != [] && p.us[|p.us| - 1] == End && At(Body(p.us), str, t, p.i, p.e, p.z, p.n)
    ensures TokensFit(p.us, p.i, p.e, str, [], NodeGone(p))
  {
    forall mid: seq<Tok> | Tell(mid, str, [])
      ensures Events(Body(p.us)[..p.i] + mid + Body(p.us)[p.e..], str) == Some(NodeGone(p))
    {
      Drop(Body(p.us), str, t, p.i, p.e, p.z, p.n, mid);
    }
  }

  lemma PosAligned(st: bytes, ts: seq<Tok>, off: int, i: nat)
    requires Pos(st, ts, off, i)
    ensures off % 4 == 0
  {
    SizeAligned(ts[..i]);
  }

  lemma NodeSought(st: bytes, str: bytes, t: Node, off: int, p: Place)
    requires AtPlace(st, str, t, off, p)
    ensures Close(p.us, p.i + 1, 0) == Some(p.e) && TokensFit(p.us, p.i, p.e, str, [], NodeGone(p))
  {
    Span(st, str, t, off, p);
    CloseIsEnd(p.us, str, p.i, p.e, p.n);
    DropTokens(p, str, t);
  }

  method FindNodeEnd(st: bytes, off: nat, ghost us: seq<Tok>, ghost i: nat, ghost e: nat) returns (end: int)
    requires Begins(st, us, off, i) && Close(us, i + 1, 0) == Some(e)
    ensures Pos(st, us, end, e)
  {
    end := NodeEndOffset(st, off, us, i);
  }

  /** Where the bytes of the node are. */
  method FindNodeDeletion(st: bytes, str: bytes, off: nat, ghost us: seq<Tok>, ghost i: nat, ghost e: nat, ghost g: seq<Event>)
    returns (n: nat)
    requires Begins(st, us, off, i) && Close(us, i + 1, 0) == Some(e) && TokensFit(us, i, e, str, [], g)
    ensures Fits(st, str, off, n, 0, [], g) && n == Size(us[..e]) - Size(us[..i])
  {
    var end := FindNodeEnd(st, off, us, i, e);
    CutFits(st, str, us, i, e, off, end, g);
    n := end - off;
  }

  /** The node and everything below it is gone; nothing else changes. Without its root a blob holds
      no tree any more. */
  method DelNode(b: Blob, off: nat, ghost t: Node, ghost p: Place) returns (err: int)
    requires Located(b, t, off, p)
    modifies b`sizeStruct, b`offStrings, b`sizeStrings, b.buf
    ensures err == 0 && Saying(b, NodeGone(p)) && Grown(b, Size(p.us[..p.i]) - Size(p.us[..p.e]))
    ensures Outer(b) == old(Outer(b))
    ensures p.z.In? ==> Tree(b, Fill(p.z, []))
  {
    NodeSought(b.Struct(), b.Strings(), t, off, p);
    GoneIs(p);
    var n := FindNodeDeletion(b.Struct(), b.Strings(), off, p.us, p.i, p.e, NodeGone(p));
    err := Replace(b, off, n, 0, [], NodeGone(p));
  }
}
