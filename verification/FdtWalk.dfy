/** The walks of libs/libfdt/fdt.c and fdt_ro.c over any structure block, whole tokens or not: what
    they return, and exactly when they end. */
module FdtWalk {
  import opened Prelude
  import opened FdtTokens

  const ERR_NOTFOUND: int := -1
  const ERR_EXISTS: int := -2
  const ERR_NOSPACE: int := -3
  const ERR_BADOFFSET: int := -4
  const ERR_BADSTATE: int := -7
  const ERR_TRUNCATED: int := -8
  const ERR_BADMAGIC: int := -9
  const ERR_BADSTRUCTURE: int := -11

  const INT_MAX: nat := 0x7fff_ffff

  datatype Next = Next(tag: nat, next: int)

  /** fdt_next_tag at any offset of any block. The length of a property is added in 32 bits,
      so 12 + len wraps; a negative `next` is an error code. */
  function NextTag(st: bytes, off: int): Next {
    if off < 0 || off + 4 > |st| then Next(FDT_END, ERR_TRUNCATED)
    else
      var tag := Be32(st, off);
      if tag == FDT_BEGIN_NODE then
        match StrAt(st, off + 4)
        case None => Next(FDT_END, ERR_BADSTRUCTURE)
        case Some(name) => Next(tag, Align4(off + 4 + |name| + 1))
      else if tag == FDT_PROP then
        if off + 8 > |st| || off + Wrap32(12 + Be32(st, off + 4)) > |st| then Next(FDT_END, ERR_BADSTRUCTURE)
        else Next(tag, Align4(off + Wrap32(12 + Be32(st, off + 4))))
      else if tag == FDT_END || tag == FDT_END_NODE || tag == FDT_NOP then Next(tag, Align4(off + 4))
      else Next(FDT_END, ERR_BADSTRUCTURE)
  }

  /** A tag walk advances on every tag but one: a property whose length field is 2^32 - 12. */
  lemma WalkAdvances(st: bytes, off: int)
    requires NextTag(st, off).next >= 0 && off % 4 == 0
    ensures NextTag(st, off).next > off <==>
              !(Be32(st, off) == FDT_PROP && Be32(st, off + 4) == TWO32 - 12)
  {
  }

  /** On such a property it stays where it is, for ever. */
  lemma WalkStalls()
    ensures
      var st := Word(FDT_PROP) + Word(TWO32 - 12);
      NextTag(st, 0) == Next(FDT_PROP, 0)
  {
    var st := Word(FDT_PROP) + Word(TWO32 - 12);
    assert st[0..4] == Word(FDT_PROP) && st[4..8] == Word(TWO32 - 12);
    Be32Word(st, 0, FDT_PROP);
    Be32Word(st, 4, TWO32 - 12);
  }

  /** The loop that skips the name of a node. */
  method ScanNul(b: bytes, from: nat) returns (end: nat, found: bool)
    requires from <= |b|
    ensures found <==> StrAt(b, from).Some?
    ensures found ==> end == from + |StrAt(b, from).value| + 1
  {
    end := from;
    while end < |b| && b[end] != 0
      invariant from <= end <= |b|
      invariant StrAt(b, from).Some? <==> StrAt(b, end).Some?
      invariant StrAt(b, from).Some? ==> from + |StrAt(b, from).value| == end + |StrAt(b, end).value|
    {
      end := end + 1;
    }
    found := end < |b|;
    end := if found then end + 1 else end;
  }

  /** Adding the length to an int and taking the difference back, all in 32 bits. */
  lemma WrapSpan(off: nat, len: nat)
    requires off <= INT_MAX && len < TWO32
    ensures
      var sum := Wrap32(off + 12 + len);
      var at := if sum > INT_MAX then sum - TWO32 else sum;
      var span := Wrap32(at - off);
      span == Wrap32(12 + len) && (off + span <= INT_MAX ==> at == off + span)
  {
  }

  method FdtNextTag(st: bytes, off: int) returns (r: Next)
    requires |st| <= INT_MAX
    ensures r == NextTag(st, off)
  {
    if off < 0 || off + 4 > |st| {
      return Next(FDT_END, ERR_TRUNCATED);
    }
    var tag := Be32(st, off);
    if tag == FDT_BEGIN_NODE {
      var end, found := ScanNul(st, off + 4);
      if !found {
        return Next(FDT_END, ERR_BADSTRUCTURE);
      }
      return Next(tag, Align4(end));
    } else if tag == FDT_PROP {
      if off + 8 > |st| {
        return Next(FDT_END, ERR_BADSTRUCTURE);
      }
      // an int plus an unsigned, stored to an int; its difference to off is unsigned again
      var sum := Wrap32(off + 12 + Be32(st, off + 4));
      var at := if sum > INT_MAX then sum - TWO32 else sum;
      var span := Wrap32(at - off);
      WrapSpan(off, Be32(st, off + 4));
      if off + span > |st| {
        return Next(FDT_END, ERR_BADSTRUCTURE);
      }
      return Next(tag, Align4(at));
    } else if tag != FDT_END && tag != FDT_END_NODE && tag != FDT_NOP {
      return Next(FDT_END, ERR_BADSTRUCTURE);
    }
    return Next(tag, Align4(off + 4));
  }

  /** fdt_check_node_offset_ and fdt_check_prop_offset_ */
  method CheckOffset(st: bytes, off: int, tag: nat) returns (r: int)
    requires |st| <= INT_MAX
    ensures r == (if off < 0 || off % 4 != 0 || NextTag(st, off).tag != tag then ERR_BADOFFSET else NextTag(st, off).next)
  {
    if off < 0 || off % 4 != 0 {
      return ERR_BADOFFSET;
    }
    var t := FdtNextTag(st, off);
    return if t.tag != tag then ERR_BADOFFSET else t.next;
  }

  // ---- one round of fdt_next_node

  /** The loop goes on at `next`, or returns r; the depth may be absent. */
  datatype Round = Again(next: nat, depth: Option<int>) | Return(r: int, depth: Option<int>)

  function Deeper(depth: Option<int>, n: int): Option<int> {
    if depth.Some? then Some(depth.value + n) else None
  }

  function NodeRound(st: bytes, off: nat, depth: Option<int>): Round {
    var t := NextTag(st, off);
    if t.tag == FDT_BEGIN_NODE then Return(off, Deeper(depth, 1))
    else if t.tag == FDT_END then
      Return(if t.next >= 0 || (t.next == ERR_TRUNCATED && depth.None?) then ERR_NOTFOUND else t.next, depth)
    else if t.next < 0 then Return(t.next, depth)
    else if t.tag == FDT_END_NODE then
      if depth.Some? && depth.value - 1 < 0 then Return(t.next, Deeper(depth, -1)) else Again(t.next, Deeper(depth, -1))
    else Again(t.next, depth)
  }

  /** A property whose length field is 2^32 - 12. */
  predicate Stalls(st: bytes, off: nat) {
    off + 8 <= |st| && Be32(st, off) == FDT_PROP && Be32(st, off + 4) == TWO32 - 12
  }

  lemma RoundMoves(st: bytes, off: nat, depth: Option<int>)
    requires off % 4 == 0 && NodeRound(st, off, depth).Again?
    ensures NodeRound(st, off, depth).next % 4 == 0 && off + 4 <= |st|
    ensures if Stalls(st, off) then NodeRound(st, off, depth) == Again(off, depth) else NodeRound(st, off, depth).next > off
  {
    WalkAdvances(st, off);
  }

  datatype Trip = Hangs | Ends(r: int, depth: Option<int>)

  /** The whole loop from off on. */
  function NodeWalk(st: bytes, off: nat, depth: Option<int>): (t: Trip)
    requires off % 4 == 0
    ensures t.Ends? && t.r >= 0 ==> t.r >= off && t.r % 4 == 0
    ensures t.Ends? ==> (t.depth.Some? <==> depth.Some?)
    decreases |st| - off
  {
    match NodeRound(st, off, depth)
    case Return(r, d) => Ends(r, d)
    case Again(next, d) =>
      RoundMoves(st, off, depth);
      if next == off then Hangs else NodeWalk(st, next, d)
  }

  lemma NodeStep(st: bytes, off: nat, depth: Option<int>, r: Round)
    requires off % 4 == 0 && r == NodeRound(st, off, depth) && (r.Again? ==> r.next > off)
    ensures r.Again? ==> r.next % 4 == 0
    ensures NodeWalk(st, off, depth) == if r.Again? then NodeWalk(st, r.next, r.depth) else Ends(r.r, r.depth)
  {
    if r.Again? {
      RoundMoves(st, off, depth);
    }
  }

  // ---- when it ends

  /** The loop is over after at most n rounds. */
  ghost predicate OverIn(st: bytes, off: nat, depth: Option<int>, n: nat)
    decreases n
  {
    n > 0 && match NodeRound(st, off, depth) case Return(_, _) => true case Again(next, d) => OverIn(st, next, d, n - 1)
  }

  ghost predicate Over(st: bytes, off: nat, depth: Option<int>, n: nat) {
    OverIn(st, off, depth, n)
  }

  /** The offset the loop is at after m rounds, if it is still going. */
  function Reached(st: bytes, off: nat, depth: Option<int>, m: nat): Option<nat>
    decreases m
  {
    if m == 0 then Some(off)
    else match NodeRound(st, off, depth) case Return(_, _) => None case Again(next, d) => Reached(st, next, d, m - 1)
  }

  ghost predicate Meets(st: bytes, off: nat, depth: Option<int>, m: nat) {
    Reached(st, off, depth, m).Some? && Stalls(st, Reached(st, off, depth, m).value)
  }

  lemma {:induction false} HangsFor(st: bytes, off: nat, depth: Option<int>, n: nat)
    requires off % 4 == 0 && NodeRound(st, off, depth) == Again(off, depth)
    ensures !OverIn(st, off, depth, n)
  {
    if n > 0 {
      HangsFor(st, off, depth, n - 1);
    }
  }

  lemma {:induction false} NotOver(st: bytes, off: nat, depth: Option<int>, n: nat)
    requires off % 4 == 0 && NodeWalk(st, off, depth).Hangs?
    ensures !OverIn(st, off, depth, n)
    decreases n
  {
    if n > 0 && NodeRound(st, off, depth).Again? {
      RoundMoves(st, off, depth);
      if Stalls(st, off) {
        HangsFor(st, off, depth, n);
      } else {
        NotOver(st, NodeRound(st, off, depth).next, NodeRound(st, off, depth).depth, n - 1);
      }
    }
  }

  lemma {:induction false} OverAtLast(st: bytes, off: nat, depth: Option<int>) returns (n: nat)
    requires off % 4 == 0 && NodeWalk(st, off, depth).Ends?
    ensures OverIn(st, off, depth, n)
    decreases |st| - off
  {
    n := 1;
    if NodeRound(st, off, depth).Again? {
      RoundMoves(st, off, depth);
      var m := OverAtLast(st, NodeRound(st, off, depth).next, NodeRound(st, off, depth).depth);
      n := m + 1;
    }
  }

  /** The loop of fdt_next_node ends exactly when the walk says so. */
  lemma EndsIff(st: bytes, off: nat, depth: Option<int>)
    requires off % 4 == 0
    ensures NodeWalk(st, off, depth).Ends? <==> exists n: nat :: Over(st, off, depth, n)
  {
    if NodeWalk(st, off, depth).Ends? {
      var n := OverAtLast(st, off, depth);
      assert Over(st, off, depth, n);
    } else {
      forall n: nat ensures !Over(st, off, depth, n) {
        NotOver(st, off, depth, n);
      }
    }
  }

  lemma {:induction false} StallAhead(st: bytes, off: nat, depth: Option<int>) returns (m: nat)
    requires off % 4 == 0 && NodeWalk(st, off, depth).Hangs?
    ensures Meets(st, off, depth, m)
    decreases |st| - off
  {
    RoundMoves(st, off, depth);
    m := 0;
    if !Stalls(st, off) {
      var i := StallAhead(st, NodeRound(st, off, depth).next, NodeRound(st, off, depth).depth);
      m := i + 1;
    }
  }

  lemma {:induction false} StallHangs(st: bytes, off: nat, depth: Option<int>, m: nat)
    requires off % 4 == 0 && Meets(st, off, depth, m)
    ensures NodeWalk(st, off, depth).Hangs?
    decreases m
  {
    assert Stalls(st, off) ==> NextTag(st, off) == Next(FDT_PROP, off);
    RoundMoves(st, off, depth);
    if !Stalls(st, off) {
      StallHangs(st, NodeRound(st, off, depth).next, NodeRound(st, off, depth).depth, m - 1);
    }
  }

  /** It goes round for ever exactly when it comes to a property whose length field is 2^32 - 12. */
  lemma HangsIff(st: bytes, off: nat, depth: Option<int>)
    requires off % 4 == 0
    ensures NodeWalk(st, off, depth).Hangs? <==> exists m: nat :: Meets(st, off, depth, m)
  {
    if NodeWalk(st, off, depth).Hangs? {
      var m := StallAhead(st, off, depth);
    }
    if m: nat :| Meets(st, off, depth, m) {
      StallHangs(st, off, depth, m);
    }
  }

  // ---- the functions that walk

  /** Where the loop of fdt_next_node begins, or the error. */
  function NodeStart(st: bytes, off: int): int {
    if off < 0 then 0
    else if off % 4 != 0 || NextTag(st, off).tag != FDT_BEGIN_NODE then ERR_BADOFFSET
    else NextTag(st, off).next
  }

  lemma StartsBehind(st: bytes, off: int)
    ensures NodeStart(st, off) >= 0 ==> NodeStart(st, off) > off && NodeStart(st, off) % 4 == 0 && off <= |st|
    ensures NodeStart(st, off) < 0 ==> NodeStart(st, off) == ERR_BADOFFSET
  {
    if off >= 0 && off % 4 == 0 && NextTag(st, off).tag == FDT_BEGIN_NODE {
      WalkAdvances(st, off);
    }
  }

  /** fdt_next_node */
  function NextNodeTrip(st: bytes, off: int, depth: Option<int>): (t: Trip)
    ensures t.Ends? && t.r >= 0 ==> t.r > off && off <= |st|
    ensures t.Ends? ==> (t.depth.Some? <==> depth.Some?)
  {
    StartsBehind(st, off);
    if NodeStart(st, off) < 0 then Ends(NodeStart(st, off), depth) else NodeWalk(st, NodeStart(st, off), depth)
  }

  /** On every block on which it ends at all. */
  method WalkNextNode(st: bytes, off: int, depth: Option<int>) returns (r: int, d: Option<int>)
    requires |st| <= INT_MAX && NextNodeTrip(st, off, depth).Ends?
    ensures Ends(r, d) == NextNodeTrip(st, off, depth)
  {
    var next := 0;
    StartsBehind(st, off);
    if off >= 0 {
      next := CheckOffset(st, off, FDT_BEGIN_NODE);
      if next < 0 {
        return next, depth;
      }
    }
    d := depth;
    while true
      invariant next >= 0 && next % 4 == 0 && NodeWalk(st, next, d) == NextNodeTrip(st, off, depth)
      decreases |st| - next
    {
      r := next;
      var t := FdtNextTag(st, r);
      next := t.next;
      if t.tag == FDT_BEGIN_NODE {
        return r, Deeper(d, 1);
      } else if t.tag == FDT_END_NODE {
        if d.Some? && d.value - 1 < 0 {
          return next, Deeper(d, -1);
        }
        d := Deeper(d, -1);
      } else if t.tag == FDT_END {
        return if next >= 0 || (next == ERR_TRUNCATED && d.None?) then ERR_NOTFOUND else next, d;
      }
      RoundMoves(st, r, if t.tag == FDT_END_NODE then Deeper(d, 1) else d);
    }
  }

  /** fdt_first_subnode */
  method WalkFirstSubnode(st: bytes, off: int) returns (r: int)
    requires |st| <= INT_MAX && NextNodeTrip(st, off, Some(0)).Ends?
    ensures
      var t := NextNodeTrip(st, off, Some(0));
      r == if t.r < 0 || t.depth != Some(1) then ERR_NOTFOUND else t.r
  {
    var o, depth := WalkNextNode(st, off, Some(0));
    r := if o < 0 || depth != Some(1) then ERR_NOTFOUND else o;
  }

  /** The loop of fdt_next_subnode from the node at off, which is at that depth. */
  function SibTrip(st: bytes, off: int, depth: int): Trip
    decreases |st| - off
  {
    match NextNodeTrip(st, off, Some(depth))
    case Hangs => Hangs
    case Ends(r, d) =>
      if r < 0 || d.value < 1 then Ends(ERR_NOTFOUND, d) else if d.value > 1 then SibTrip(st, r, d.value) else Ends(r, d)
  }

  lemma SibStep(st: bytes, off: int, depth: int, t: Trip)
    requires t == NextNodeTrip(st, off, Some(depth)) && t.Ends?
    ensures SibTrip(st, off, depth) ==
              if t.r < 0 || t.depth.value < 1 then Ends(ERR_NOTFOUND, t.depth)
              else if t.depth.value > 1 then SibTrip(st, t.r, t.depth.value) else t
  {
  }

  /** fdt_next_subnode */
  method WalkNextSubnode(st: bytes, off: int) returns (r: int)
    requires |st| <= INT_MAX && SibTrip(st, off, 1).Ends?
    ensures r == SibTrip(st, off, 1).r
  {
    r := off;
    var depth := Some(1);
    while true
      invariant depth.Some? && SibTrip(st, r, depth.value) == SibTrip(st, off, 1)
      decreases |st| - r
    {
      r, depth := WalkNextNode(st, r, depth);
      if r < 0 || depth.value < 1 {
        return ERR_NOTFOUND;
      }
      if depth.value <= 1 {
        return r;
      }
    }
  }

  /** The loop of fdt_node_end_offset_. */
  function EndTrip(st: bytes, off: int, depth: int): Trip
    decreases |st| - off
  {
    if off < 0 || depth < 0 then Ends(off, Some(depth))
    else
      match NextNodeTrip(st, off, Some(depth))
      case Hangs => Hangs
      case Ends(r, d) => if r < 0 then Ends(r, d) else EndTrip(st, r, d.value)
  }

  lemma EndStep(st: bytes, off: int, depth: int, t: Trip)
    requires off >= 0 && depth >= 0 && t == NextNodeTrip(st, off, Some(depth)) && t.Ends?
    ensures EndTrip(st, off, depth) == if t.r < 0 then t else EndTrip(st, t.r, t.depth.value)
  {
  }

  lemma EndStop(st: bytes, off: int, depth: int)
    requires depth < 0
    ensures EndTrip(st, off, depth) == Ends(off, Some(depth))
  {
  }

  /** fdt_node_end_offset_ */
  method WalkNodeEnd(st: bytes, off: int) returns (r: int)
    requires |st| <= INT_MAX && EndTrip(st, off, 0).Ends?
    ensures r == EndTrip(st, off, 0).r
  {
    r := off;
    var depth := Some(0);
    while r >= 0 && depth.value >= 0
      invariant depth.Some? && EndTrip(st, off, 0).Ends?
      invariant if r < 0 then EndTrip(st, off, 0).r == r else EndTrip(st, r, depth.value) == EndTrip(st, off, 0)
      decreases r >= 0, |st| - r
    {
      r, depth := WalkNextNode(st, r, depth);
    }
  }

  /** nextprop_, which always ends. */
  function PropTrip(st: bytes, off: int): int
    decreases |st| - off
  {
    var t := NextTag(st, off);
    if t.tag == FDT_END then (if t.next >= 0 then ERR_BADSTRUCTURE else t.next)
    else if t.tag == FDT_PROP then off
    else if t.tag == FDT_NOP then PropTrip(st, t.next)
    else ERR_NOTFOUND
  }

  method WalkNextProp(st: bytes, off: int) returns (r: int)
    requires |st| <= INT_MAX
    ensures r == PropTrip(st, off)
  {
    r := off;
    while true
      invariant PropTrip(st, r) == PropTrip(st, off)
      decreases |st| - r
    {
      var t := FdtNextTag(st, r);
      if t.tag == FDT_END {
        return if t.next >= 0 then ERR_BADSTRUCTURE else t.next;
      } else if t.tag == FDT_PROP {
        return r;
      } else if t.tag != FDT_NOP {
        return ERR_NOTFOUND;
      }
      r := t.next;
    }
  }
}
