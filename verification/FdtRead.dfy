/** The readers of libs/libfdt/fdt.c and fdt_ro.c: loops over offsets of the structure block.
    The blob is given by its structure block st and strings block str; a ghost list of chunks
    says where the tokens are. */
module FdtRead {
  import opened Prelude
  import opened FdtTokens
  import opened FdtWalk
  import opened FdtTree
  import opened FdtPlace
  import opened FdtEditSpec

  // ---- positions in a block of whole tokens

  /** The block st has the tokens ts, and off is the offset of token i. */
  ghost predicate Pos(st: bytes, ts: seq<Tok>, off: int, i: nat) {
    |st| <= INT_MAX && Decode(st) == Some(ts) && i <= |ts| && off == Size(ts[..i])
  }

  ghost predicate Begins(st: bytes, ts: seq<Tok>, off: int, i: nat) {
    Pos(st, ts, off, i) && i < |ts| && ts[i].Begin?
  }

  function TagOf(t: Tok): nat {
    match t
    case Begin(_) => FDT_BEGIN_NODE
    case Prop(_, _) => FDT_PROP
    case Nop => FDT_NOP
    case EndNode => FDT_END_NODE
    case End => FDT_END
  }

  lemma NextIsBegin(st: bytes, off: nat, name: bytes)
    requires off <= |st| && off % 4 == 0 && First(st[off..]) == Some(Begin(name))
    ensures NextTag(st, off) == Next(FDT_BEGIN_NODE, off + Len(Begin(name)))
  {
    var b := st[off..];
    WordShift(st, off, 0);
    AlignShift(off, 4 + |name| + 1);
    assert st[off + 4..off + 4 + |name| + 1] == b[4..4 + |name| + 1];
    StrAtLocal(b, st, 4, off + 4);
  }

  lemma NextIsProp(st: bytes, off: nat, t: Tok)
    requires off <= |st| <= INT_MAX && off % 4 == 0 && First(st[off..]) == Some(t) && t.Prop?
    ensures NextTag(st, off) == Next(FDT_PROP, off + Len(t))
  {
    WordShift(st, off, 0);
    WordShift(st, off, 4);
    NoWrap(off, Be32(st[off..], 4), |st|);
    AlignShift(off, 12 + Be32(st[off..], 4));
  }

  lemma NextIsPlain(st: bytes, off: nat, t: Tok)
    requires off <= |st| && off % 4 == 0 && First(st[off..]) == Some(t) && !t.Prop? && !t.Begin?
    ensures NextTag(st, off) == Next(TagOf(t), off + Len(t))
  {
    WordShift(st, off, 0);
    AlignShift(off, 4);
  }

  lemma NoWrap(off: nat, len: nat, size: nat)
    requires off + 12 + len <= size <= INT_MAX
    ensures Wrap32(12 + len) == 12 + len
  {
  }

  lemma AlignShift(off: nat, n: nat)
    requires off % 4 == 0
    ensures Align4(off + n) == off + Align4(n)
  {
  }

  lemma WordShift(st: bytes, off: nat, o: nat)
    requires off + o + 4 <= |st|
    ensures Be32(st[off..], o) == Be32(st, off + o)
  {
  }

  lemma TagAt(st: bytes, ts: seq<Tok>, off: int, i: nat)
    requires Pos(st, ts, off, i) && i < |ts|
    ensures 0 <= off && off % 4 == 0 && off + Len(ts[i]) <= |st| && First(st[off..]) == Some(ts[i])
    ensures NextTag(st, off) == Next(TagOf(ts[i]), off + Len(ts[i]))
    ensures Pos(st, ts, off + Len(ts[i]), i + 1)
  {
    DecodeFrom(st, i);
    SizeAligned(ts[..i]);
    DecodeStep(st[off..]);
    if ts[i].Begin? {
      NextIsBegin(st, off, ts[i].name);
    } else if ts[i].Prop? {
      NextIsProp(st, off, ts[i]);
    } else {
      NextIsPlain(st, off, ts[i]);
    }
    SizeAdd(ts, i);
  }

  lemma SizeAdd(ts: seq<Tok>, i: nat)
    requires i < |ts|
    ensures Size(ts[..i + 1]) == Size(ts[..i]) + Len(ts[i])
  {
    assert ts[..i + 1] == ts[..i] + [ts[i]];
    SizeAppend(ts[..i], [ts[i]]);
    assert Size([ts[i]]) == Len(ts[i]) + Size([]);
  }

  lemma TagEnd(st: bytes, ts: seq<Tok>, off: int)
    requires Pos(st, ts, off, |ts|)
    ensures off == |st| && NextTag(st, off) == Next(FDT_END, ERR_TRUNCATED)
  {
    DecodeFrom(st, |ts|);
    assert ts[|ts|..] == [];
    assert st[off..] == [];
  }

  /** fdt_next_tag where a token is known to be. */
  method ReadTag(st: bytes, off: int, ghost ts: seq<Tok>, ghost i: nat) returns (tag: nat, next: int)
    requires Pos(st, ts, off, i)
    ensures i < |ts| ==> tag == TagOf(ts[i]) && next == off + Len(ts[i]) && next > 0 && Pos(st, ts, next, i + 1)
    ensures i == |ts| ==> tag == FDT_END && next == ERR_TRUNCATED
  {
    if i < |ts| {
      TagAt(st, ts, off, i);
    } else {
      TagEnd(st, ts, off);
    }
    var t := FdtNextTag(st, off);
    return t.tag, t.next;
  }

  // ---- walking over nodes

  method SkipTag(st: bytes, off: int, tag: nat, ghost ts: seq<Tok>, ghost i: nat) returns (r: int)
    requires Pos(st, ts, off, i) && i < |ts| && tag == TagOf(ts[i])
    ensures Pos(st, ts, r, i + 1) && r >= 0
  {
    TagAt(st, ts, off, i);
    r := CheckOffset(st, off, tag);
  }

  datatype Walk = Found(at: nat, depth: int) | Left(at: nat, depth: int) | Stop(err: int)

  /** From token j with the given depth: the next begin, or the end of the node the walk is in. */
  function WalkFrom(ts: seq<Tok>, j: nat, depth: int): (w: Walk)
    ensures w.Found? ==> j <= w.at < |ts| && ts[w.at].Begin?
    ensures w.Left? ==> w.at <= |ts|
    ensures w.Stop? ==> w.err < 0
    decreases |ts| - j
  {
    if j >= |ts| then Stop(ERR_TRUNCATED)
    else
      match ts[j]
      case Begin(_) => Found(j, depth + 1)
      case EndNode => if depth - 1 < 0 then Left(j + 1, depth - 1) else WalkFrom(ts, j + 1, depth - 1)
      case End => Stop(ERR_NOTFOUND)
      case _ => WalkFrom(ts, j + 1, depth)
  }

  /** The trip that a walk over tokens stands for. */
  ghost predicate TripIs(st: bytes, ts: seq<Tok>, t: Trip, w: Walk) {
    && t.Ends?
    && match w
       case Found(at, d) => Pos(st, ts, t.r, at) && t.r >= 0 && t.depth == Some(d)
       case Left(at, d) => Pos(st, ts, t.r, at) && t.r >= 0 && t.depth == Some(d)
       case Stop(err) => t.r == err && t.depth.Some?
  }

  /** The round of the loop at token j. */
  lemma TokenRound(st: bytes, ts: seq<Tok>, off: nat, j: nat, depth: int)
    requires Pos(st, ts, off, j)
    ensures off % 4 == 0
    ensures
      var r := NodeRound(st, off, Some(depth));
      if j == |ts| then r == Return(ERR_TRUNCATED, Some(depth))
      else
        match ts[j]
        case Begin(_) => r == Return(off, Some(depth + 1))
        case End => r == Return(ERR_NOTFOUND, Some(depth))
        case EndNode =>
          r == if depth - 1 < 0 then Return(off + Len(ts[j]), Some(depth - 1)) else Again(off + Len(ts[j]), Some(depth - 1))
        case _ => r == Again(off + Len(ts[j]), Some(depth))
    ensures j < |ts| ==> Pos(st, ts, off + Len(ts[j]), j + 1) && Len(ts[j]) > 0
  {
    if j == |ts| {
      TagEnd(st, ts, off);
      SizeAligned(ts[..j]);
    } else {
      TagAt(st, ts, off, j);
    }
  }

  /** On a block of whole tokens the loop of fdt_next_node ends, and does what the tokens say. */
  lemma {:induction false} TokenWalk(st: bytes, ts: seq<Tok>, off: nat, j: nat, depth: int)
    requires Pos(st, ts, off, j)
    ensures off % 4 == 0 && TripIs(st, ts, NodeWalk(st, off, Some(depth)), WalkFrom(ts, j, depth))
    decreases |ts| - j
  {
    TokenRound(st, ts, off, j, depth);
    NodeStep(st, off, Some(depth), NodeRound(st, off, Some(depth)));
    if j < |ts| && !ts[j].Begin? && !ts[j].End? {
      TokenWalk(st, ts, off + Len(ts[j]), j + 1, if ts[j].EndNode? then depth - 1 else depth);
    }
  }

  lemma TokenStart(st: bytes, ts: seq<Tok>, off: int, i: int)
    requires |st| <= INT_MAX && Decode(st) == Some(ts)
    requires (i == -1 && off == -1) || (i >= 0 && Begins(st, ts, off, i))
    ensures NodeStart(st, off) >= 0 && Pos(st, ts, NodeStart(st, off), i + 1)
  {
    if i >= 0 {
      TagAt(st, ts, off, i);
    } else {
      assert ts[..0] == [];
    }
  }

  lemma TokenTrip(st: bytes, ts: seq<Tok>, off: int, i: int, depth: int)
    requires |st| <= INT_MAX && Decode(st) == Some(ts)
    requires (i == -1 && off == -1) || (i >= 0 && Begins(st, ts, off, i))
    ensures TripIs(st, ts, NextNodeTrip(st, off, Some(depth)), WalkFrom(ts, i + 1, depth))
  {
    TokenStart(st, ts, off, i);
    TokenWalk(st, ts, NodeStart(st, off), i + 1, depth);
  }

  /** fdt_next_node with a depth; offset -1 starts at the front of the block. */
  method NextNode(st: bytes, off: int, depth: int, ghost ts: seq<Tok>, ghost i: int) returns (r: int, d: int)
    requires |st| <= INT_MAX && Decode(st) == Some(ts)
    requires (i == -1 && off == -1) || (i >= 0 && Begins(st, ts, off, i))
    ensures
      match WalkFrom(ts, i + 1, depth)
      case Found(at, dd) => Pos(st, ts, r, at) && d == dd
      case Left(at, dd) => Pos(st, ts, r, at) && d == dd
      case Stop(err) => r == err
  {
    TokenTrip(st, ts, off, i, depth);
    var o, e := WalkNextNode(st, off, Some(depth));
    r, d := o, e.value;
  }

  method FirstSubnode(st: bytes, off: int, ghost ts: seq<Tok>, ghost i: nat) returns (r: int)
    requires Begins(st, ts, off, i)
    ensures
      match WalkFrom(ts, i + 1, 0)
      case Found(at, _) => Pos(st, ts, r, at)
      case _ => r == ERR_NOTFOUND
  {
    FirstDepth(ts, i + 1);
    TokenTrip(st, ts, off, i, 0);
    r := WalkFirstSubnode(st, off);
  }

  lemma {:induction false} FirstDepth(ts: seq<Tok>, j: nat)
    ensures WalkFrom(ts, j, 0).Found? ==> WalkFrom(ts, j, 0).depth == 1
    ensures WalkFrom(ts, j, 0).Left? ==> WalkFrom(ts, j, 0).depth == -1
    decreases |ts| - j
  {
    if j < |ts| {
      FirstDepth(ts, j + 1);
    }
  }

  /** With depth nodes open below the parent at token j: the next child of the parent. */
  function NextSib(ts: seq<Tok>, j: nat, depth: nat): (r: Option<nat>)
    ensures r.Some? ==> j <= r.value < |ts| && ts[r.value].Begin?
    decreases |ts| - j
  {
    if j >= |ts| then None
    else
      match ts[j]
      case Begin(_) => if depth == 0 then Some(j) else NextSib(ts, j + 1, depth + 1)
      case EndNode => if depth == 0 then None else NextSib(ts, j + 1, depth - 1)
      case End => None
      case _ => NextSib(ts, j + 1, depth)
  }

  lemma {:induction false} SibWalk(ts: seq<Tok>, j: nat, depth: nat)
    ensures
      match WalkFrom(ts, j, depth)
      case Found(at, d) => d >= 1 && NextSib(ts, j, depth) == (if d == 1 then Some(at) else NextSib(ts, at + 1, d))
      case Left(_, d) => d < 0 && NextSib(ts, j, depth) == None
      case Stop(_) => NextSib(ts, j, depth) == None
    decreases |ts| - j
  {
    if j < |ts| && !ts[j].Begin? && !ts[j].End? {
      if !ts[j].EndNode? {
        SibWalk(ts, j + 1, depth);
      } else if depth > 0 {
        SibWalk(ts, j + 1, depth - 1);
      }
    }
  }

  /** What fdt_next_subnode returns when the next child is as the tokens say. */
  ghost predicate SibIs(st: bytes, ts: seq<Tok>, t: Trip, next: Option<nat>) {
    && t.Ends?
    && match next
       case Some(at) => Pos(st, ts, t.r, at)
       case None => t.r == ERR_NOTFOUND
  }

  lemma {:induction false} TokenSib(st: bytes, ts: seq<Tok>, off: int, i: nat, depth: nat)
    requires Begins(st, ts, off, i) && depth >= 1
    ensures SibIs(st, ts, SibTrip(st, off, depth), NextSib(ts, i + 1, depth))
    decreases |ts| - i
  {
    var t, w := NextNodeTrip(st, off, Some(depth)), WalkFrom(ts, i + 1, depth);
    TokenTrip(st, ts, off, i, depth);
    SibWalk(ts, i + 1, depth);
    SibStep(st, off, depth, t);
    if w.Found? && w.depth > 1 {
      TokenSib(st, ts, t.r, w.at, w.depth);
    }
  }

  method NextSubnode(st: bytes, off: int, ghost ts: seq<Tok>, ghost i: nat) returns (r: int)
    requires Begins(st, ts, off, i)
    ensures
      match NextSib(ts, i + 1, 1)
      case Some(at) => Pos(st, ts, r, at)
      case None => r == ERR_NOTFOUND
  {
    TokenSib(st, ts, off, i, 1);
    r := WalkNextSubnode(st, off);
  }

  lemma {:induction false} CloseWalk(ts: seq<Tok>, j: nat, depth: nat)
    ensures
      match WalkFrom(ts, j, depth)
      case Found(at, d) => d >= 1 && Close(ts, j, depth) == Close(ts, at + 1, d)
      case Left(at, d) => d < 0 && Close(ts, j, depth) == Some(at)
      case Stop(_) => Close(ts, j, depth) == None
    decreases |ts| - j
  {
    if j < |ts| && !ts[j].Begin? && !ts[j].End? {
      if !ts[j].EndNode? {
        CloseWalk(ts, j + 1, depth);
      } else if depth > 0 {
        CloseWalk(ts, j + 1, depth - 1);
      }
    }
  }

  ghost predicate EndIs(st: bytes, ts: seq<Tok>, t: Trip, close: Option<nat>) {
    && t.Ends?
    && match close
       case Some(e) => Pos(st, ts, t.r, e) && t.r >= 0
       case None => t.r < 0
  }

  lemma {:induction false} TokenEnd(st: bytes, ts: seq<Tok>, off: int, i: nat, depth: nat)
    requires Begins(st, ts, off, i)
    ensures EndIs(st, ts, EndTrip(st, off, depth), Close(ts, i + 1, depth))
    decreases |ts| - i
  {
    var t, w := NextNodeTrip(st, off, Some(depth)), WalkFrom(ts, i + 1, depth);
    TokenTrip(st, ts, off, i, depth);
    CloseWalk(ts, i + 1, depth);
    EndStep(st, off, depth, t);
    if w.Found? {
      TokenEnd(st, ts, t.r, w.at, w.depth);
    } else if w.Left? {
      EndStop(st, t.r, w.depth);
    }
  }

  /** fdt_node_end_offset_: the offset behind the node. */
  method NodeEndOffset(st: bytes, off: int, ghost ts: seq<Tok>, ghost i: nat) returns (r: int)
    requires Begins(st, ts, off, i)
    ensures
      match Close(ts, i + 1, 0)
      case Some(e) => Pos(st, ts, r, e) && r >= 0
      case None => r < 0
  {
    TokenEnd(st, ts, off, i, 0);
    r := WalkNodeEnd(st, off);
  }

  // ---- properties

  /** The index of the first token from j on that is not a Nop. */
  function SkipNops(ts: seq<Tok>, j: nat): (k: nat)
    requires j <= |ts|
    ensures j <= k <= |ts| && (k < |ts| ==> ts[k] != Nop)
    decreases |ts| - j
  {
    if j < |ts| && ts[j].Nop? then SkipNops(ts, j + 1) else j
  }

  lemma {:induction false} TokenProp(st: bytes, ts: seq<Tok>, off: int, i: nat)
    requires Pos(st, ts, off, i)
    ensures
      var k, r := SkipNops(ts, i), PropTrip(st, off);
      if k == |ts| then r == ERR_TRUNCATED
      else if ts[k].Prop? then Pos(st, ts, r, k) && r >= 0
      else if ts[k].End? then r == ERR_BADSTRUCTURE
      else r == ERR_NOTFOUND
    decreases |ts| - i
  {
    if i == |ts| {
      TagEnd(st, ts, off);
    } else {
      TagAt(st, ts, off, i);
      if ts[i].Nop? {
        TokenProp(st, ts, off + Len(ts[i]), i + 1);
      }
    }
  }

  /** nextprop_ */
  method NextProp(st: bytes, off: int, ghost ts: seq<Tok>, ghost i: nat) returns (r: int)
    requires Pos(st, ts, off, i)
    ensures
      var k := SkipNops(ts, i);
      if k == |ts| then r == ERR_TRUNCATED
      else if ts[k].Prop? then Pos(st, ts, r, k) && r >= 0
      else if ts[k].End? then r == ERR_BADSTRUCTURE
      else r == ERR_NOTFOUND
  {
    TokenProp(st, ts, off, i);
    r := WalkNextProp(st, off);
  }

  /** fdt_get_string: the string, or why there is none. In a blob that is still being written (sw)
      offsets are negative and count from the end of the strings. */
  method GetString(str: bytes, stroffset: int, sw: bool) returns (s: bytes, err: int)
    ensures var at := if sw then |str| + stroffset else stroffset;
            && (err == 0 <==> at >= 0 && StrAt(str, at).Some?)
            && (err == 0 ==> s == StrAt(str, at).value)
            && (err != 0 ==> err == (if 0 <= at < |str| then ERR_TRUNCATED else ERR_BADOFFSET))
  {
    var at := stroffset;
    if sw {
      if stroffset >= 0 || stroffset < -|str| {
        return [], ERR_BADOFFSET;
      }
      at := |str| + stroffset;
    } else if stroffset < 0 || stroffset >= |str| {
      return [], ERR_BADOFFSET;
    }
    var end, found := ScanNul(str, at);
    if !found {
      return [], ERR_TRUNCATED;
    }
    return str[at..end - 1], 0;
  }

  /** The fields of the property at a property offset; a name offset above INT_MAX becomes a
      negative int. */
  method GetProperty(st: bytes, off: int, ghost ts: seq<Tok>, ghost i: nat) returns (nameoff: int, val: bytes)
    requires Pos(st, ts, off, i) && i < |ts| && ts[i].Prop?
    ensures val == ts[i].val && ts[i].nameoff < TWO32
    ensures nameoff == (if ts[i].nameoff > INT_MAX then ts[i].nameoff - TWO32 else ts[i].nameoff)
  {
    TagAt(st, ts, off, i);
    WordShift(st, off, 4);
    WordShift(st, off, 8);
    var w := Be32(st, off + 8);
    val := st[off + 12..off + 12 + Be32(st, off + 4)];
    nameoff := if w > INT_MAX then w - TWO32 else w;
  }

  lemma NameAt(st: bytes, off: nat, name: bytes)
    requires off <= |st| && First(st[off..]) == Some(Begin(name))
    ensures off + 4 <= |st| && StrAt(st, off + 4) == Some(name)
  {
    var b := st[off..];
    assert st[off + 4..off + 4 + |name| + 1] == b[4..4 + |name| + 1];
    StrAtLocal(b, st, 4, off + 4);
  }

  method GetName(st: bytes, off: int, ghost ts: seq<Tok>, ghost i: nat) returns (name: bytes)
    requires Begins(st, ts, off, i)
    ensures name == ts[i].name
  {
    TagAt(st, ts, off, i);
    NameAt(st, off, ts[i].name);
    var end, found := ScanNul(st, off + 4);
    name := st[off + 4..end - 1];
  }

  /** The index of the first token from j on that is neither a Nop nor a property. */
  function SkipQuiet(ts: seq<Tok>, j: nat): (k: nat)
    requires j <= |ts|
    ensures j <= k <= |ts| && (k < |ts| ==> !Quiet(ts[k]))
    ensures forall x | j <= x < k :: Quiet(ts[x])
    decreases |ts| - j
  {
    if j < |ts| && Quiet(ts[j]) then SkipQuiet(ts, j + 1) else j
  }

  /** A search from i for a property `name` comes to the same as one from j. */
  ghost predicate SameSearch(ts: seq<Tok>, str: bytes, name: bytes, i: nat, j: nat) {
    && i <= j <= |ts|
    && FindFrom(ts, str, i, name) == FindFrom(ts, str, j, name)
    && SkipQuiet(ts, i) == SkipQuiet(ts, j)
  }

  lemma {:induction false} FindSkip(ts: seq<Tok>, str: bytes, name: bytes, j: nat)
    requires j <= |ts|
    ensures SameSearch(ts, str, name, j, SkipNops(ts, j))
    decreases |ts| - j
  {
    if j < |ts| && ts[j].Nop? {
      FindSkip(ts, str, name, j + 1);
    }
  }

  lemma FindStep(ts: seq<Tok>, str: bytes, name: bytes, i: nat, j: nat)
    requires SameSearch(ts, str, name, i, j) && j < |ts| && ts[j].Prop? && StrAt(str, ts[j].nameoff) != Some(name)
    ensures SameSearch(ts, str, name, i, SkipNops(ts, j + 1))
  {
    FindSkip(ts, str, name, j + 1);
  }

  /** fdt_string_eq_ on the name of a property */
  method HasName(st: bytes, str: bytes, off: int, name: bytes, ghost ts: seq<Tok>, ghost i: nat) returns (eq: bool)
    requires Pos(st, ts, off, i) && i < |ts| && ts[i].Prop? && |str| <= INT_MAX
    ensures eq <==> StrAt(str, ts[i].nameoff) == Some(name)
  {
    var nameoff, val := GetProperty(st, off, ts, i);
    var s, err := GetString(str, nameoff, false);
    eq := err == 0 && s == name;
  }

  /** Why a property walk stops at token k. */
  function StopAt(ts: seq<Tok>, k: nat): (err: int)
    requires k <= |ts|
  {
    if k == |ts| then ERR_TRUNCATED else if ts[k].End? then ERR_BADSTRUCTURE else ERR_NOTFOUND
  }

  /** The property token k, or none there. */
  ghost predicate PropPos(st: bytes, ts: seq<Tok>, r: int, k: nat) {
    && k <= |ts|
    && (r >= 0 <==> k < |ts| && ts[k].Prop?)
    && (r >= 0 ==> Pos(st, ts, r, k))
  }

  /** fdt_first_property_offset at a node, fdt_next_property_offset at a property */
  method PropAfter(st: bytes, off: int, tag: nat, ghost ts: seq<Tok>, ghost i: nat) returns (r: int)
    requires Pos(st, ts, off, i) && i < |ts| && TagOf(ts[i]) == tag
    ensures PropPos(st, ts, r, SkipNops(ts, i + 1))
    ensures r < 0 ==> r == StopAt(ts, SkipNops(ts, i + 1))
  {
    r := SkipTag(st, off, tag, ts, i);
    r := NextProp(st, r, ts, i + 1);
  }

  /** fdt_get_property_namelen_: the offset of the first property of that name. */
  method FindProperty(st: bytes, str: bytes, off: int, name: bytes, ghost ts: seq<Tok>, ghost i: nat) returns (r: int)
    requires Begins(st, ts, off, i) && |str| <= INT_MAX
    ensures
      match FindFrom(ts, str, i + 1, name)
      case Some(q) => r >= 0 && Pos(st, ts, r, q)
      case None => r == StopAt(ts, SkipQuiet(ts, i + 1))
  {
    FindSkip(ts, str, name, i + 1);
    r := PropAfter(st, off, FDT_BEGIN_NODE, ts, i);
    ghost var j := SkipNops(ts, i + 1);
    while r >= 0
      invariant PropPos(st, ts, r, j) && SameSearch(ts, str, name, i + 1, j)
      invariant r < 0 ==> r == StopAt(ts, j) && (j == |ts| || !Quiet(ts[j]))
      decreases |ts| - j
    {
      var eq := HasName(st, str, r, name, ts, j);
      if eq {
        return r;
      }
      FindStep(ts, str, name, i + 1, j);
      r := PropAfter(st, r, FDT_PROP, ts, j);
      j := SkipNops(ts, j + 1);
    }
  }

  // ---- reading a whole tree

  lemma {:induction false} NopsSkipped(ts: seq<Tok>, str: bytes, j: nat, e: nat)
    requires j <= e <= |ts| && Events(ts[j..e], str).Some? && Events(ts[j..e], str).value != []
    ensures SkipNops(ts, j) < e && Events(ts[SkipNops(ts, j)..e], str) == Events(ts[j..e], str)
    decreases e - j
  {
    assert j < e;
    assert ts[j..e][1..] == ts[j + 1..e];
    if ts[j].Nop? {
      NopsSkipped(ts, str, j + 1, e);
    }
  }

  /** ts[j..e] begins with the properties ps, and token j is not a Nop. */
  ghost predicate PropsFrom(ts: seq<Tok>, str: bytes, j: nat, e: nat, ps: seq<Property>, rest: seq<Event>) {
    && j < e <= |ts| && ts[j] != Nop && Events(ts[j..e], str) == Some(PropEvents(ps) + rest)
    && rest != [] && !rest[0].EProp?
  }

  lemma StepProp(ts: seq<Tok>, str: bytes, j: nat, e: nat, ps: seq<Property>, rest: seq<Event>)
    requires PropsFrom(ts, str, j, e, ps, rest) && ts[j].Prop?
    ensures ps != [] && StrAt(str, ts[j].nameoff) == Some(ps[0].name) && ts[j].val == ps[0].val
    ensures PropsFrom(ts, str, SkipNops(ts, j + 1), e, ps[1..], rest)
  {
    FirstProp(ts, str, j, e, ps, rest);
    FirstEvent(ps[1..], rest);
    NopsSkipped(ts, str, j + 1, e);
  }

  lemma LastProp(ts: seq<Tok>, str: bytes, j: nat, e: nat, ps: seq<Property>, rest: seq<Event>)
    requires PropsFrom(ts, str, j, e, ps, rest) && !ts[j].Prop?
    ensures ps == [] && Events(ts[j..e], str) == Some(rest)
  {
    assert ts[j..e][0] == ts[j];
    NotQuiet(ts[j..e], str, ps, rest);
  }

  lemma PropsBegin(ts: seq<Tok>, str: bytes, i: nat, e: nat, n: Node)
    requires i < e <= |ts| && ts[i].Begin? && Events(ts[i..e], str) == Some(Flat(n))
    ensures n.name == ts[i].name
    ensures PropsFrom(ts, str, SkipNops(ts, i + 1), e, n.props, Flats(n.kids) + [EEnd])
  {
    BehindBegin(ts, str, i, e, n);
    FirstEvent(n.props, Flats(n.kids) + [EEnd]);
    NopsSkipped(ts, str, i + 1, e);
  }

  /** fdt_getprop_by_offset: name and value. */
  method GetPropByOffset(st: bytes, str: bytes, off: int, ghost ts: seq<Tok>, ghost i: nat) returns (p: Option<Property>)
    requires Pos(st, ts, off, i) && i < |ts| && ts[i].Prop? && |str| <= INT_MAX
    ensures
      match StrAt(str, ts[i].nameoff)
      case Some(name) => p == Some(Property(name, ts[i].val))
      case None => p == None
  {
    var nameoff, val := GetProperty(st, off, ts, i);
    var name, err := GetString(str, nameoff, false);
    p := if err == 0 then Some(Property(name, val)) else None;
  }

  lemma MoveOne<T>(a: seq<T>, b: seq<T>)
    requires b != []
    ensures a + b == a + [b[0]] + b[1..]
  {
  }

  /** The properties of the node at i, in order. */
  method ReadProps(st: bytes, str: bytes, off: int, ghost ts: seq<Tok>, ghost i: nat, ghost e: nat, ghost n: Node)
    returns (ps: seq<Property>)
    requires Begins(st, ts, off, i) && |str| <= INT_MAX
    requires i < e <= |ts| && Events(ts[i..e], str) == Some(Flat(n))
    ensures ps == n.props
  {
    PropsBegin(ts, str, i, e, n);
    ps := [];
    ghost var left, rest := n.props, Flats(n.kids) + [EEnd];
    var r := PropAfter(st, off, FDT_BEGIN_NODE, ts, i);
    ghost var j := SkipNops(ts, i + 1);
    while r >= 0
      invariant PropPos(st, ts, r, j) && PropsFrom(ts, str, j, e, left, rest) && n.props == ps + left
      decreases e - j
    {
      StepProp(ts, str, j, e, left, rest);
      var p := GetPropByOffset(st, str, r, ts, j);
      MoveOne(ps, left);
      if p.Some? {
        ps := ps + [p.value];
      }
      left := left[1..];
      r := PropAfter(st, r, FDT_PROP, ts, j);
      j := SkipNops(ts, j + 1);
    }
    LastProp(ts, str, j, e, left, rest);
  }

  lemma BehindBegin(ts: seq<Tok>, str: bytes, i: nat, e: nat, n: Node)
    requires i < e <= |ts| && ts[i].Begin? && Events(ts[i..e], str) == Some(Flat(n))
    ensures n.name == ts[i].name && Events(ts[i + 1..e], str) == Some(PropEvents(n.props) + (Flats(n.kids) + [EEnd]))
    ensures (Flats(n.kids) + [EEnd]) != [] && !(Flats(n.kids) + [EEnd])[0].EProp?
  {
    assert ts[i..e][0] == ts[i] && ts[i..e][1..] == ts[i + 1..e];
    Inside(ts[i..e], str, n);
  }

  /** The kids ns begin at token b, followed by the EndNode at e - 1. */
  ghost predicate KidsFrom(ts: seq<Tok>, str: bytes, b: nat, e: nat, ns: seq<Node>) {
    b < e <= |ts| && ts[b] != Nop && Events(ts[b..e], str) == Some(Flats(ns) + [EEnd])
  }

  /** A node of the tree occupies the tokens i..e. */
  ghost predicate NodeSpan(ts: seq<Tok>, str: bytes, i: nat, e: nat, n: Node) {
    && i + 1 < e <= |ts| && ts[i].Begin? && ts[e - 1] != Nop
    && Events(ts[i..e], str) == Some(Flat(n))
  }

  /** Behind the properties of a node come its kids. */
  lemma KidsBegin(ts: seq<Tok>, str: bytes, i: nat, e: nat, n: Node)
    requires NodeSpan(ts, str, i, e, n)
    ensures KidsFrom(ts, str, SkipQuiet(ts, i + 1), e, n.kids)
  {
    PropsBegin(ts, str, i, e, n);
    KidsAfterProps(ts, str, SkipNops(ts, i + 1), e, n.props, n.kids);
    QuietNops(ts, i + 1);
  }

  lemma {:induction false} QuietNops(ts: seq<Tok>, j: nat)
    requires j <= |ts|
    ensures SkipQuiet(ts, j) == SkipQuiet(ts, SkipNops(ts, j))
    decreases |ts| - j
  {
    if j < |ts| && ts[j].Nop? {
      QuietNops(ts, j + 1);
    }
  }

  lemma {:induction false} KidsAfterProps(ts: seq<Tok>, str: bytes, j: nat, e: nat, ps: seq<Property>, ns: seq<Node>)
    requires PropsFrom(ts, str, j, e, ps, Flats(ns) + [EEnd])
    ensures KidsFrom(ts, str, SkipQuiet(ts, j), e, ns)
    decreases e - j
  {
    if ts[j].Prop? {
      StepProp(ts, str, j, e, ps, Flats(ns) + [EEnd]);
      KidsAfterProps(ts, str, SkipNops(ts, j + 1), e, ps[1..], ns);
      QuietNops(ts, j + 1);
    } else {
      LastProp(ts, str, j, e, ps, Flats(ns) + [EEnd]);
    }
  }

  /** At the token where the kids begin there is a kid or the end of the parent. */
  lemma KidOrEnd(ts: seq<Tok>, str: bytes, b: nat, e: nat, ns: seq<Node>)
    requires KidsFrom(ts, str, b, e, ns)
    ensures ns == [] ==> ts[b].EndNode?
    ensures ns != [] ==> ts[b].Begin?
  {
    assert ts[b..e][0] == ts[b];
    FlatsHead(ns, [EEnd]);
  }

  /** The first kid and what follows it. */
  lemma FirstKid(ts: seq<Tok>, str: bytes, b: nat, e: nat, ns: seq<Node>) returns (m: nat)
    requires KidsFrom(ts, str, b, e, ns) && ns != []
    ensures NodeSpan(ts, str, b, m, ns[0]) && Close(ts, b + 1, 0) == Some(m) && m < e
    ensures KidsFrom(ts, str, SkipNops(ts, m), e, ns[1..])
  {
    KidOrEnd(ts, str, b, e, ns);
    var f, g := Flat(ns[0]), Flats(ns[1..]) + [EEnd];
    assert Flats(ns) + [EEnd] == f + g;
    var k := CutTokens(ts[b..e], str, |f|);
    m := b + k;
    SubSlice(ts, b, m, e);
    assert (f + g)[..|f|] == f && (f + g)[|f|..] == g;
    assert ts[b..e][k - 1] == ts[m - 1];
    CloseIsEnd(ts, str, b, m, ns[0]);
    NopsSkipped(ts, str, m, e);
  }

  /** The walk from the end of a kid to the next one. */
  lemma {:induction false} CloseThenSib(ts: seq<Tok>, j: nat, d: nat)
    requires Close(ts, j, d).Some?
    ensures NextSib(ts, j, d + 1) == NextSib(ts, Close(ts, j, d).value, 0)
    decreases |ts| - j
  {
    if !ts[j].EndNode? {
      CloseThenSib(ts, j + 1, if ts[j].Begin? then d + 1 else d);
    } else if d > 0 {
      CloseThenSib(ts, j + 1, d - 1);
    }
  }

  lemma {:induction false} SibSkip(ts: seq<Tok>, j: nat)
    requires j <= |ts|
    ensures NextSib(ts, j, 0) == NextSib(ts, SkipNops(ts, j), 0)
    decreases |ts| - j
  {
    if j < |ts| && ts[j].Nop? {
      SibSkip(ts, j + 1);
    }
  }

  /** The kid after the first one, as fdt_next_subnode finds it. */
  lemma NextKid(ts: seq<Tok>, str: bytes, b: nat, e: nat, m: nat, ns: seq<Node>)
    requires Close(ts, b + 1, 0) == Some(m) && m <= |ts| && KidsFrom(ts, str, SkipNops(ts, m), e, ns)
    ensures NextSib(ts, b + 1, 1) == (if ns == [] then None else Some(SkipNops(ts, m)))
  {
    CloseThenSib(ts, b + 1, 0);
    SibSkip(ts, m);
    KidOrEnd(ts, str, SkipNops(ts, m), e, ns);
  }

  lemma {:induction false} WalkSkip(ts: seq<Tok>, j: nat, d: int)
    requires j <= |ts|
    ensures WalkFrom(ts, j, d) == WalkFrom(ts, SkipQuiet(ts, j), d)
    decreases |ts| - j
  {
    if j < |ts| && Quiet(ts[j]) {
      WalkSkip(ts, j + 1, d);
    }
  }

  /** Read back the node at an offset with the calls a client makes. */
  method ReadNode(st: bytes, str: bytes, off: int, ghost ts: seq<Tok>, ghost i: nat, ghost e: nat, ghost n: Node)
    returns (r: Node)
    requires Begins(st, ts, off, i) && |str| <= INT_MAX && NodeSpan(ts, str, i, e, n)
    ensures r == n
    decreases e - i
  {
    PropsBegin(ts, str, i, e, n);
    KidsBegin(ts, str, i, e, n);
    WalkSkip(ts, i + 1, 0);
    ghost var b := SkipQuiet(ts, i + 1);
    KidOrEnd(ts, str, b, e, n.kids);
    var name := GetName(st, off, ts, i);
    var props := ReadProps(st, str, off, ts, i, e, n);
    var kids := [];
    ghost var left := n.kids;
    var k := FirstSubnode(st, off, ts, i);
    while k >= 0
      invariant n.kids == kids + left && i < b && KidsFrom(ts, str, b, e, left)
      invariant k >= 0 <==> left != []
      invariant left != [] ==> Begins(st, ts, k, b)
      decreases e - b
    {
      ghost var m := FirstKid(ts, str, b, e, left);
      var kid := ReadNode(st, str, k, ts, b, m, left[0]);
      NextKid(ts, str, b, e, m, left[1..]);
      MoveOne(kids, left);
      kids, left := kids + [kid], left[1..];
      k := NextSubnode(st, k, ts, b);
      b := SkipNops(ts, m);
    }
    r := Node(name, props, kids);
  }

  lemma RootCut(us: seq<Tok>, str: bytes, t: Node) returns (k: nat)
    requires us != [] && us[0] != Nop && Events(us, str) == Some(Flat(t))
    ensures 1 < k <= |us| && us[0].Begin? && us[k - 1] != Nop && Events(us[..k], str) == Some(Flat(t))
  {
    var f := Flat(t);
    assert f[0].EBegin?;
    k := CutTokens(us, str, |f|);
    assert f[..|f|] == f;
  }

  /** The root is the first token that is not a Nop. */
  lemma RootSpan(ts: seq<Tok>, str: bytes, t: Node) returns (e: nat)
    requires ts != [] && Events(ts[..|ts| - 1], str) == Some(Flat(t))
    ensures e < |ts| && NodeSpan(ts, str, SkipNops(ts, 0), e, t)
    ensures WalkFrom(ts, 0, 0) == Found(SkipNops(ts, 0), 1)
  {
    var l, i := |ts| - 1, SkipNops(ts, 0);
    assert ts[0..l] == ts[..l];
    NopsSkipped(ts, str, 0, l);
    var k := RootCut(ts[i..l], str, t);
    e := i + k;
    SubSlice(ts, i, e, l);
    WalkNops(ts, 0);
  }

  lemma {:induction false} WalkNops(ts: seq<Tok>, j: nat)
    requires j <= |ts|
    ensures WalkFrom(ts, j, 0) == WalkFrom(ts, SkipNops(ts, j), 0)
    decreases |ts| - j
  {
    if j < |ts| && ts[j].Nop? {
      WalkNops(ts, j + 1);
    }
  }

  /** Whatever the blob holds is what its walk returns. */
  method ReadTree(st: bytes, str: bytes, ghost t: Node) returns (r: Node)
    requires Holds(st, str, t) && |st| <= INT_MAX && |str| <= INT_MAX
    ensures r == t
  {
    ghost var ts := Decode(st).value;
    ghost var e := RootSpan(ts, str, t);
    var off, depth := NextNode(st, -1, 0, ts, -1);
    r := ReadNode(st, str, off, ts, SkipNops(ts, 0), e, t);
  }
}
