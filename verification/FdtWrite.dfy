/** The sequential writer of libs/libfdt/fdt_sw.c. Strings grow backwards from the end of the
    buffer, property tokens name them by negative offsets, and fdt_finish moves the strings
    behind the structure block and corrects the offsets. */
module FdtWrite {
  import opened Prelude
  import opened FdtTokens
  import opened FdtTree
  import opened FdtPlace
  import opened FdtEditSpec
  import opened FdtWalk
  import opened FdtRead
  import opened FdtBlob

  // ---- the unfinished blob

  /** The token with its name offset counted from the front of n bytes of strings. */
  function Fixed(t: Tok, n: nat): Tok {
    if t.Prop? then Prop(Wrap32(t.nameoff + n), t.val) else t
  }

  function FixedAll(ts: seq<Tok>, n: nat): seq<Tok> {
    seq(|ts|, i requires 0 <= i < |ts| => Fixed(ts[i], n))
  }

  /** The events written so far. */
  function SwEvents(ts: seq<Tok>, str: bytes): Option<seq<Event>> {
    Events(FixedAll(ts, |str|), str)
  }

  /** Strings put in front do not change what was written. */
  lemma {:induction false} MoreInFront(ts: seq<Tok>, str: bytes, x: bytes)
    requires SwEvents(ts, str).Some? && |x| + |str| <= INT_MAX
    ensures SwEvents(ts, x + str) == SwEvents(ts, str)
  {
    if ts == [] {
      assert FixedAll(ts, |str|) == [] && FixedAll(ts, |x + str|) == [];
    } else {
      FixedCons(ts, |str|);
      FixedCons(ts, |x + str|);
      EventsAppend([Fixed(ts[0], |str|)], FixedAll(ts[1..], |str|), str);
      EventsAppend([Fixed(ts[0], |x + str|)], FixedAll(ts[1..], |x + str|), x + str);
      OneInFront(ts[0], |str|, |x + str|, str, x);
      MoreInFront(ts[1..], str, x);
    }
  }

  lemma FixedCons(ts: seq<Tok>, n: nat)
    requires ts != []
    ensures FixedAll(ts, n) == [Fixed(ts[0], n)] + FixedAll(ts[1..], n)
  {
  }

  lemma OneInFront(t: Tok, n: nat, n': nat, str: bytes, x: bytes)
    requires Events([Fixed(t, n)], str).Some? && n == |str| && n' == |x| + n <= INT_MAX
    ensures Events([Fixed(t, n')], x + str) == Events([Fixed(t, n)], str)
  {
    var u, u' := Fixed(t, n), Fixed(t, n');
    if t.Prop? {
      ModShift(t.nameoff, n, |x|, n', u.nameoff, u'.nameoff);
      TokInFront(u, u', str, x);
    } else {
      EventsSingle(t, str);
      EventsSingle(t, x + str);
    }
  }

  lemma TokInFront(u: Tok, u': Tok, str: bytes, x: bytes)
    requires u.Prop? && u'.Prop? && u.val == u'.val && Events([u], str).Some?
    requires u.nameoff < |str| ==> u'.nameoff == |x| + u.nameoff
    ensures Events([u'], x + str) == Events([u], str)
  {
    PropInFront(u.nameoff, u'.nameoff, u.val, str, x);
  }

  lemma PropInFront(o: nat, o': nat, val: bytes, str: bytes, x: bytes)
    requires Events([Prop(o, val)], str).Some? && (o < |str| ==> o' == |x| + o)
    ensures Events([Prop(o', val)], x + str) == Events([Prop(o, val)], str)
  {
    EventsSingle(Prop(o, val), str);
    var name := StrAt(str, o).value;
    StrAtBehind(str, x, o, o');
    PropEvent(Prop(o, val), str, name);
    PropEvent(Prop(o', val), x + str, name);
  }

  lemma StrAtBehind(str: bytes, x: bytes, o: nat, o': nat)
    requires StrAt(str, o).Some? && o' == |x| + o
    ensures StrAt(x + str, o') == StrAt(str, o)
  {
    var n := |StrAt(str, o).value| + 1;
    SliceBehind(x, str, o, o + n);
    StrAtLocal(str, x + str, o, o');
  }

  lemma SliceBehind(x: bytes, y: bytes, lo: nat, hi: nat)
    requires lo <= hi <= |y|
    ensures (x + y)[|x| + lo..|x| + hi] == y[lo..hi]
  {
  }

  lemma ModShift(a: nat, n: nat, d: nat, n': nat, o: nat, o': nat)
    requires n' == d + n <= INT_MAX && o == Wrap32(a + n) && o' == Wrap32(a + n')
    ensures o < n ==> o' == d + o
  {
  }

  lemma SwAppend(ts: seq<Tok>, t: Tok, str: bytes)
    requires SwEvents(ts, str).Some? && Events([Fixed(t, |str|)], str).Some?
    ensures SwEvents(ts + [t], str) == Some(SwEvents(ts, str).value + Events([Fixed(t, |str|)], str).value)
  {
    assert FixedAll(ts + [t], |str|) == FixedAll(ts, |str|) + [Fixed(t, |str|)];
    EventsAppend(FixedAll(ts, |str|), [Fixed(t, |str|)], str);
  }

  /** The strings of an unfinished blob. */
  function Tail(b: Blob): bytes
    requires b.sizeStrings <= b.totalsize <= b.buf.Length
    reads b, b.buf
  {
    b.buf[b.totalsize - b.sizeStrings..b.totalsize]
  }

  /** The structure block st with the strings str says es. */
  ghost predicate Wrote(st: bytes, str: bytes, es: seq<Event>) {
    Decode(st).Some? && SwEvents(Decode(st).value, str) == Some(es)
  }

  ghost predicate Layout(b: Blob)
    reads b
  {
    && b.magic == FDT_SW_MAGIC && b.version == 17
    && b.totalsize == b.buf.Length == b.offStrings <= INT_MAX
    && 40 <= b.offRsv && b.offRsv + 16 <= b.offStruct
    && b.offStruct + b.sizeStruct + b.sizeStrings <= b.totalsize
  }

  /** A blob between fdt_finish_reservemap and fdt_finish into which es has been written. */
  ghost predicate Writing(b: Blob, es: seq<Event>)
    reads b, b.buf
  {
    Layout(b) && Wrote(b.Struct(), Tail(b), es)
  }

  // ---- space

  /** The bytes in front of the free space and behind it. */
  function Used(b: Blob): nat
    reads b
  {
    b.offStruct + b.sizeStruct + b.sizeStrings
  }

  /** The space for what an event writes, when its name is not in the strings yet. */
  function Cost(e: Event): nat {
    match e
    case EBegin(name) => 4 + Align4(|name| + 1)
    case EProp(p) => 12 + Align4(|p.val|) + |p.name| + 1
    case EEnd => 4
  }

  function Costs(es: seq<Event>): nat {
    if es == [] then 0 else Cost(es[0]) + Costs(es[1..])
  }

  lemma {:induction false} CostsAppend(a: seq<Event>, b: seq<Event>)
    ensures Costs(a + b) == Costs(a) + Costs(b)
  {
    if a == [] {
      assert a + b == b;
    } else {
      assert (a + b)[1..] == a[1..] + b;
      CostsAppend(a[1..], b);
    }
  }

  lemma CostsOne(e: Event)
    ensures Costs([e]) == Cost(e)
  {
    assert [e][1..] == [];
  }

  // ---- creation

  method Create(b: Blob) returns (err: int)
    requires b.buf.Length <= INT_MAX
    modifies b, b.buf
    ensures err == (if b.buf.Length < 48 then ERR_NOSPACE else 0)
    ensures err == 0 ==>
              && b.magic == FDT_SW_MAGIC && b.version == 17 && b.totalsize == b.buf.Length
              && b.offRsv == b.offStruct == 48 && b.offStrings == b.sizeStruct == b.sizeStrings == 0
              && forall i | 0 <= i < b.buf.Length :: b.buf[i] == 0
  {
    if b.buf.Length < 48 {
      return ERR_NOSPACE;
    }
    forall i | 0 <= i < b.buf.Length {
      b.buf[i] := 0;
    }
    b.magic, b.version, b.totalsize := FDT_SW_MAGIC, 17, b.buf.Length;
    b.offRsv, b.offStruct, b.offStrings, b.sizeStruct, b.sizeStrings := 48, 48, 0, 0, 0;
    return 0;
  }

  /** fdt_finish_reservemap with no further entries: the terminating entry. */
  method FinishReservemap(b: Blob) returns (err: int)
    requires b.totalsize == b.buf.Length <= INT_MAX && b.version == 17 && 48 <= b.offRsv <= b.offStruct <= b.totalsize
    requires b.sizeStruct == b.sizeStrings == 0
    modifies b, b.buf
    ensures err == (if old(b.magic) == FDT_MAGIC then ERR_BADSTATE
                    else if old(b.magic) != FDT_SW_MAGIC then ERR_BADMAGIC
                    else if old(b.offStrings) != 0 then ERR_BADSTATE
                    else if old(b.offStruct) + 16 > b.totalsize then ERR_NOSPACE
                    else 0)
    ensures err == 0 ==> Writing(b, []) && Used(b) == old(b.offStruct) + 16
    ensures err != 0 ==> unchanged(b) && unchanged(b.buf)
  {
    if b.magic == FDT_MAGIC {
      return ERR_BADSTATE;
    } else if b.magic != FDT_SW_MAGIC {
      return ERR_BADMAGIC;
    } else if b.offStrings != 0 {
      return ERR_BADSTATE;
    } else if b.offStruct + 16 > b.totalsize {
      return ERR_NOSPACE;
    }
    Put(b.buf, b.offStruct, seq(16, i => 0));
    b.offStruct := b.offStruct + 16;
    b.offStrings := b.totalsize;
    assert b.Struct() == [] && FixedAll([], |Tail(b)|) == [];
    return 0;
  }

  function ProbeStruct(b: Blob): int
    reads b
  {
    if b.magic == FDT_MAGIC then ERR_BADSTATE
    else if b.magic != FDT_SW_MAGIC then ERR_BADMAGIC
    else if b.offStrings != b.totalsize then ERR_BADSTATE
    else 0
  }

  // ---- one token at a time

  lemma WroteMore(st: bytes, c: bytes, str: bytes, es: seq<Event>, ev: Event)
    requires Wrote(st, str, es) && IsChunk(c) && Events([Fixed(TokOf(c), |str|)], str) == Some([ev])
    ensures Wrote(st + c, str, es + [ev])
  {
    DecodeOne(c);
    DecodeAppend(st, c);
    SwAppend(Decode(st).value, TokOf(c), str);
  }

  lemma WroteBegin(st: bytes, c: bytes, str: bytes, es: seq<Event>, name: bytes)
    requires Wrote(st, str, es) && NoNul(name)
    requires |c| == 4 + Align4(|name| + 1) && c[..4 + |name| + 1] == Word(FDT_BEGIN_NODE) + name + [0]
    ensures Wrote(st + c, str, es + [EBegin(name)])
  {
    var h := c[..4 + |name| + 1];
    assert c[..4] == h[..4] && c[4..4 + |name|] == h[4..4 + |name|] && c[4 + |name|] == h[4 + |name|];
    AlignShift(4, |name| + 1);
    BeginChunk(c, name);
    EventsOne(Begin(name), str);
    WroteMore(st, c, str, es, EBegin(name));
  }

  lemma WroteEnd(st: bytes, c: bytes, str: bytes, es: seq<Event>)
    requires Wrote(st, str, es) && c == Word(FDT_END_NODE)
    ensures Wrote(st + c, str, es + [EEnd])
  {
    PlainChunk(EndNode);
    EventsOne(EndNode, str);
    WroteMore(st, c, str, es, EEnd);
  }

  /** The name offset of a property is -k, with k counted back from the end of the strings. */
  lemma WroteProp(st: bytes, c: bytes, str: bytes, es: seq<Event>, k: nat, name: bytes, val: bytes)
    requires Wrote(st, str, es)
    requires |str| <= INT_MAX && Named(str, k, name) && |val| < TWO32
    requires |c| == 12 + Align4(|val|) && c[..12 + |val|] == PropHead(|val|, TWO32 - k) + val
    ensures Wrote(st + c, str, es + [EProp(Property(name, val))])
  {
    PropHeadChunk(c, TWO32 - k, val);
    FixedProp(|str|, k, val);
    PropEvent(Prop(|str| - k, val), str, name);
    WroteMore(st, c, str, es, EProp(Property(name, val)));
  }

  lemma FixedProp(n: nat, k: nat, val: bytes)
    requires 0 < k <= n <= INT_MAX
    ensures Fixed(Prop(TWO32 - k, val), n) == Prop(n - k, val)
  {
  }

  /** What grabbing space for a token c leaves behind. */
  twostate predicate Appended(b: Blob, new c: bytes)
    reads b, b.buf
    requires old(b.offStruct + b.sizeStruct <= b.buf.Length && b.sizeStrings <= b.totalsize <= b.buf.Length)
  {
    && b.magic == old(b.magic) && b.version == old(b.version) && b.totalsize == old(b.totalsize)
    && b.offRsv == old(b.offRsv) && b.offStruct == old(b.offStruct) && b.offStrings == old(b.offStrings)
    && b.sizeStrings == old(b.sizeStrings) && b.sizeStruct == old(b.sizeStruct) + |c|
    && b.offStruct + b.sizeStruct + b.sizeStrings <= b.totalsize
    && b.Struct() == old(b.Struct()) + c && Tail(b) == old(Tail(b))
  }

  /** fdt_grab_space_ for len bytes, the first of which are then written; the others stay what
      they were. */
  method Grab(b: Blob, len: nat, head: bytes) returns (ok: bool, ghost c: bytes)
    requires b.totalsize <= b.buf.Length && b.offStruct + b.sizeStruct + b.sizeStrings <= b.totalsize && |head| <= len
    modifies b`sizeStruct, b.buf
    ensures ok <==> old(b.offStruct + b.sizeStruct) + len + b.sizeStrings <= b.totalsize
    ensures ok ==> |c| == len && c[..|head|] == head && Appended(b, c)
    ensures !ok ==> unchanged(b) && unchanged(b.buf)
  {
    var spaceleft := b.totalsize - b.offStruct - b.sizeStrings;
    if b.sizeStruct + len > spaceleft {
      return false, [];
    }
    var at := b.offStruct + b.sizeStruct;
    c := head + b.buf[at + |head|..at + len];
    b.sizeStruct := b.sizeStruct + len;
    ghost var m := b.buf[..];
    Put(b.buf, at, head);
    PutSlice(m, at, head, b.offStruct, at + len);
    PutSlice(m, at, head, b.totalsize - b.sizeStrings, b.totalsize);
    assert m[b.offStruct..at] + head + m[at + |head|..at + len] == old(b.Struct()) + c;
    return true, c;
  }

  /** The blob says what it said before; an error leaves it as it was. */
  method BeginNode(b: Blob, name: bytes, ghost es: seq<Event>) returns (err: int)
    requires ProbeStruct(b) == 0 ==> Writing(b, es)
    requires NoNul(name)
    modifies b, b.buf
    ensures err == (if old(ProbeStruct(b)) != 0 then old(ProbeStruct(b))
                    else if old(Used(b)) + Cost(EBegin(name)) > b.buf.Length then ERR_NOSPACE else 0)
    ensures err == 0 ==> Writing(b, es + [EBegin(name)]) && Used(b) == old(Used(b)) + Cost(EBegin(name))
    ensures err != 0 ==> unchanged(b) && unchanged(b.buf)
  {
    err := ProbeStruct(b);
    if err != 0 {
      return;
    }
    var ok, c := Grab(b, 4 + Align4(|name| + 1), Word(FDT_BEGIN_NODE) + name + [0]);
    if !ok {
      return ERR_NOSPACE;
    }
    WroteBegin(old(b.Struct()), c, Tail(b), es, name);
    return 0;
  }

  method FinishNode(b: Blob, ghost es: seq<Event>) returns (err: int)
    requires ProbeStruct(b) == 0 ==> Writing(b, es)
    modifies b, b.buf
    ensures err == (if old(ProbeStruct(b)) != 0 then old(ProbeStruct(b))
                    else if old(Used(b)) + 4 > b.buf.Length then ERR_NOSPACE else 0)
    ensures err == 0 ==> Writing(b, es + [EEnd]) && Used(b) == old(Used(b)) + 4
    ensures err != 0 ==> unchanged(b) && unchanged(b.buf)
  {
    err := ProbeStruct(b);
    if err != 0 {
      return;
    }
    var ok, c := Grab(b, 4, Word(FDT_END_NODE));
    if !ok {
      return ERR_NOSPACE;
    }
    assert c == c[..4];
    WroteEnd(old(b.Struct()), c, Tail(b), es);
    return 0;
  }

  /** The strings of b have been extended at the front or not at all. */
  twostate predicate MoreTail(b: Blob)
    reads b, b.buf
    requires old(Layout(b))
  {
    && b.magic == old(b.magic) && b.version == old(b.version) && b.totalsize == old(b.totalsize)
    && b.offRsv == old(b.offRsv) && b.offStruct == old(b.offStruct) && b.offStrings == old(b.offStrings)
    && b.sizeStruct == old(b.sizeStruct) && b.sizeStrings >= old(b.sizeStrings)
    && Layout(b) && b.Struct() == old(b.Struct())
  }

  method PushString(b: Blob, s: bytes)
    requires Layout(b) && b.offStruct + b.sizeStruct + b.sizeStrings + |s| <= b.totalsize
    modifies b`sizeStrings, b.buf
    ensures MoreTail(b) && b.sizeStrings == old(b.sizeStrings) + |s| && Tail(b) == s + old(Tail(b))
  {
    var at := b.totalsize - b.sizeStrings - |s|;
    ghost var m := b.buf[..];
    Put(b.buf, at, s);
    PutSlice(m, at, s, b.offStruct, b.offStruct + b.sizeStruct);
    PutSlice(m, at, s, at, b.totalsize);
    b.sizeStrings := b.sizeStrings + |s|;
    assert m[at..at] == [];
  }

  lemma FrontString(s: bytes, tab: bytes)
    requires NoNul(s)
    ensures StrAt((s + [0]) + tab, 0) == Some(s)
  {
    var t := (s + [0]) + tab;
    assert t[0..|s| + 1] == s + [0];
    StringFound(t, s, 0);
  }

  /** The string s begins k bytes before the end of the strings. */
  ghost predicate Named(str: bytes, k: int, s: bytes) {
    0 < k <= |str| && StrAt(str, |str| - k) == Some(s)
  }

  lemma FoundNamed(str: bytes, s: bytes, p: nat)
    requires StringAt(str, p, s) && NoNul(s)
    ensures Named(str, |str| - p, s)
  {
    StringFound(str, s, p);
  }

  /** The string is not there and does not fit into room bytes together with the others. */
  ghost predicate NoRoom(str: bytes, room: int, s: bytes) {
    |str| + |s| + 1 > room && forall p: nat :: !StringAt(str, p, s)
  }

  /** fdt_find_add_string_: a negative offset from the end of the buffer, or 0 when the string is
      not there and does not fit. */
  method FindAddString(b: Blob, s: bytes) returns (r: int)
    requires Layout(b) && NoNul(s)
    modifies b`sizeStrings, b.buf
    ensures r == 0 ==> unchanged(b) && unchanged(b.buf) && NoRoom(Tail(b), b.totalsize - b.offStruct - b.sizeStruct, s)
    ensures r != 0 ==> MoreTail(b) && Named(Tail(b), -r, s) && b.sizeStrings <= old(b.sizeStrings) + |s| + 1
    ensures r != 0 ==> Tail(b) == old(Tail(b)) || Tail(b) == (s + [0]) + old(Tail(b))
  {
    var p := FindString(Tail(b), s);
    if p >= 0 {
      FoundNamed(Tail(b), s, p);
      r := p - b.sizeStrings;
    } else if b.totalsize - b.sizeStrings - (|s| + 1) < b.offStruct + b.sizeStruct {
      r := 0;
    } else {
      FrontString(s, Tail(b));
      PushString(b, s + [0]);
      r := 0 - b.sizeStrings;
    }
  }

  /** The name of a property; what has been written stays as it is. */
  method PlaceName(b: Blob, name: bytes, ghost es: seq<Event>) returns (r: int)
    requires Writing(b, es) && NoNul(name)
    modifies b`sizeStrings, b.buf
    ensures r == 0 ==> unchanged(b) && unchanged(b.buf) && Used(b) + |name| + 1 > b.buf.Length
    ensures r != 0 ==> Writing(b, es) && Named(Tail(b), -r, name) && Used(b) <= old(Used(b)) + |name| + 1
  {
    ghost var tab := Tail(b);
    r := FindAddString(b, name);
    if Tail(b) != tab {
      WroteInFront(b.Struct(), tab, es, name + [0]);
    }
  }

  lemma WroteInFront(st: bytes, str: bytes, es: seq<Event>, x: bytes)
    requires Wrote(st, str, es) && |x| + |str| <= INT_MAX
    ensures Wrote(st, x + str, es)
  {
    MoreInFront(Decode(st).value, str, x);
  }

  method PutProperty(b: Blob, nameoff: int, name: bytes, val: bytes, ghost es: seq<Event>) returns (ok: bool)
    requires Writing(b, es) && |val| <= INT_MAX
    requires Named(Tail(b), -nameoff, name)
    modifies b`sizeStruct, b.buf
    ensures ok <==> old(Used(b)) + 12 + Align4(|val|) <= b.buf.Length
    ensures ok ==> Writing(b, es + [EProp(Property(name, val))]) && Used(b) == old(Used(b)) + 12 + Align4(|val|)
    ensures !ok ==> unchanged(b) && unchanged(b.buf)
  {
    ghost var c;
    ok, c := Grab(b, 12 + Align4(|val|), PropHead(|val|, TWO32 + nameoff) + val);
    if ok {
      WroteProp(old(b.Struct()), c, Tail(b), es, -nameoff, name, val);
    }
  }

  /** fdt_property. When the space for the token is missing the name may stay in the strings. */
  method WriteProperty(b: Blob, name: bytes, val: bytes, ghost es: seq<Event>) returns (err: int)
    requires ProbeStruct(b) == 0 ==> Writing(b, es)
    requires NoNul(name) && |val| <= INT_MAX
    modifies b, b.buf
    ensures err == 0 ==> Writing(b, es + [EProp(Property(name, val))]) && Used(b) <= old(Used(b)) + Cost(EProp(Property(name, val)))
    ensures err != 0 ==> err == (if old(ProbeStruct(b)) != 0 then old(ProbeStruct(b)) else ERR_NOSPACE)
    ensures err == ERR_NOSPACE ==> Writing(b, es) && old(Used(b)) + Cost(EProp(Property(name, val))) > b.buf.Length
  {
    err := ProbeStruct(b);
    if err != 0 {
      return;
    }
    var nameoff := PlaceName(b, name, es);
    if nameoff == 0 {
      return ERR_NOSPACE;
    }
    var ok := PutProperty(b, nameoff, name, val, es);
    return if ok then 0 else ERR_NOSPACE;
  }

  // ---- finishing

  /** The first i tokens have been corrected. */
  function Partly(ts: seq<Tok>, n: nat, i: nat): seq<Tok>
    requires i <= |ts|
  {
    FixedAll(ts[..i], n) + ts[i..]
  }

  lemma PartlyNext(ts: seq<Tok>, n: nat, i: nat)
    requires i < |ts|
    ensures
      var us, ws := Partly(ts, n, i), Partly(ts, n, i + 1);
      && |us| == |ts| && us[i] == ts[i] && ws[..i] == us[..i]
      && ws == us[..i] + [Fixed(ts[i], n)] + us[i + 1..]
  {
  }

  lemma RenamedChunk(c: bytes, t: Tok, w: nat)
    requires First(c) == Some(t) && t.Prop? && |c| == Len(t) && w < TWO32
    ensures |c| >= 12 && First(c[..8] + Word(w) + c[12..]) == Some(Prop(w, t.val)) && IsChunk(c[..8] + Word(w) + c[12..])
  {
    var d := c[..8] + Word(w) + c[12..];
    WordOf(c, 0);
    WordOf(c, 4);
    assert d[..4] == c[0..4] && d[4..8] == c[4..8] && d[8..12] == Word(w);
    assert d[12..12 + |t.val|] == c[12..12 + |t.val|];
    PropChunk(d, w, t.val);
  }

  lemma PutInChunk(st: bytes, off: nat, n: nat, x: bytes, c: bytes, d: bytes, st': bytes)
    requires off + n <= |st| && 12 <= n && |x| == 4 && c == st[off..off + n]
    requires d == c[..8] + x + c[12..] && st' == st[..off + 8] + x + st[off + 12..]
    ensures st' == st[..off] + d + st[off + n..]
  {
  }

  lemma RenamedDecodes(c: bytes, t: Tok, w: nat, d: bytes)
    requires First(c) == Some(t) && t.Prop? && |c| == Len(t) && w < TWO32 && d == c[..8] + Word(w) + c[12..]
    ensures |c| >= 12 && Decode(d) == Some([Prop(w, t.val)])
  {
    RenamedChunk(c, t, w);
    DecodeOne(d);
  }

  /** A new name offset in property token i of a block. */
  lemma NewNameoff(st: bytes, ts: seq<Tok>, off: nat, i: nat, w: nat, st': bytes)
    requires Pos(st, ts, off, i) && i < |ts| && ts[i].Prop? && w < TWO32
    requires off + 12 <= |st| && st' == st[..off + 8] + Word(w) + st[off + 12..]
    ensures Decode(st') == Some(ts[..i] + [Prop(w, ts[i].val)] + ts[i + 1..])
  {
    ChunkAt(st, ts, off, i);
    var n := Len(ts[i]);
    var c := st[off..off + n];
    var d := c[..8] + Word(w) + c[12..];
    RenamedDecodes(c, ts[i], w, d);
    PutInChunk(st, off, n, Word(w), c, d, st');
    SizeAdd(ts, i);
    SplicedAs(st, ts, i, off, off + n, d, Prop(w, ts[i].val), st');
  }

  lemma SplicedAs(st: bytes, ts: seq<Tok>, i: nat, lo: nat, hi: nat, d: bytes, t: Tok, st': bytes)
    requires Decode(st) == Some(ts) && i < |ts| && lo == Size(ts[..i]) && hi == Size(ts[..i + 1]) && lo <= hi <= |st|
    requires Decode(d) == Some([t]) && st' == st[..lo] + d + st[hi..]
    ensures Decode(st') == Some(ts[..i] + [t] + ts[i + 1..])
  {
    SpliceAt(st, ts, i, i + 1, lo, hi, d, [t]);
  }

  /** The position behind token i is the same when the token has been corrected. */
  lemma PosNext(st: bytes, st': bytes, ts: seq<Tok>, n: nat, off: int, i: nat)
    requires i < |ts| && Pos(st, Partly(ts, n, i), off, i)
    requires |st'| <= INT_MAX && Decode(st') == Some(Partly(ts, n, i + 1))
    ensures Pos(st', Partly(ts, n, i + 1), off + Len(ts[i]), i + 1)
  {
    PartlyNext(ts, n, i);
    var ws := Partly(ts, n, i + 1);
    SizeAdd(ws, i);
    assert ws[i] == Fixed(ts[i], n);
  }

  /** The name offset that fdt_finish stores over the one at off. */
  function Corrected(st: bytes, off: nat, n: nat): (w: nat)
    requires off + 12 <= |st|
    ensures w < TWO32
  {
    Wrap32(Be32(st, off + 8) + n)
  }

  lemma CorrectedIs(st: bytes, ts: seq<Tok>, n: nat, off: nat, i: nat)
    requires i < |ts| && ts[i].Prop? && Pos(st, ts, off, i)
    ensures off + 12 <= |st| && Fixed(ts[i], n) == Prop(Corrected(st, off, n), ts[i].val)
  {
    TagAt(st, ts, off, i);
    WordShift(st, off, 8);
  }

  lemma NameCorrected(st: bytes, ts: seq<Tok>, n: nat, off: nat, i: nat)
    requires i < |ts| && ts[i].Prop? && Pos(st, Partly(ts, n, i), off, i)
    ensures off + 12 <= |st|
    ensures
      var w := Word(Corrected(st, off, n));
      Pos(st[..off + 8] + w + st[off + 12..], Partly(ts, n, i + 1), off + Len(ts[i]), i + 1)
  {
    PartlyNext(ts, n, i);
    CorrectedIs(st, Partly(ts, n, i), n, off, i);
    var w := Corrected(st, off, n);
    var st' := st[..off + 8] + Word(w) + st[off + 12..];
    NewNameoff(st, Partly(ts, n, i), off, i, w, st');
    PosNext(st, st', ts, n, off, i);
  }

  /** One step of the walk in fdt_finish at a property. */
  method CorrectName(b: Blob, off: nat, ghost ts: seq<Tok>, ghost i: nat)
    requires i < |ts| && ts[i].Prop? && b.offStruct + b.sizeStruct <= b.offStrings
    requires b.offStrings + b.sizeStrings <= b.buf.Length <= INT_MAX
    requires Pos(b.Struct(), Partly(ts, b.sizeStrings, i), off, i)
    modifies b.buf
    ensures b.Strings() == old(b.Strings())
    ensures Pos(b.Struct(), Partly(ts, b.sizeStrings, i + 1), off + Len(ts[i]), i + 1)
  {
    var st, n := b.Struct(), b.sizeStrings;
    NameCorrected(st, ts, n, off, i);
    Patch(b, off + 8, Word(Corrected(st, off, n)));
  }

  lemma PartlySame(ts: seq<Tok>, n: nat, i: nat)
    requires i < |ts| && !ts[i].Prop?
    ensures Partly(ts, n, i + 1) == Partly(ts, n, i)
  {
  }

  lemma PartlyEnds(ts: seq<Tok>, n: nat)
    requires forall k | 0 <= k < |ts| :: ts[k] != End
    ensures Partly(ts + [End], n, 0) == ts + [End]
    ensures Partly(ts + [End], n, |ts| + 1) == FixedAll(ts, n) + [End]
    ensures forall k | 0 <= k < |ts + [End]| :: TagOf((ts + [End])[k]) == FDT_END <==> k == |ts|
  {
    assert (ts + [End])[..|ts| + 1] == ts + [End];
  }

  /** One step of the walk in fdt_finish. */
  method CorrectToken(b: Blob, off: nat, ghost ts: seq<Tok>, ghost i: nat) returns (tag: nat, next: int)
    requires i < |ts| && b.offStruct + b.sizeStruct <= b.offStrings
    requires b.offStrings + b.sizeStrings <= b.buf.Length <= INT_MAX
    requires Pos(b.Struct(), Partly(ts, b.sizeStrings, i), off, i)
    modifies b.buf
    ensures tag == TagOf(ts[i]) && next > 0 && b.Strings() == old(b.Strings())
    ensures Pos(b.Struct(), Partly(ts, b.sizeStrings, i + 1), next, i + 1)
  {
    PartlyNext(ts, b.sizeStrings, i);
    tag, next := ReadTag(b.Struct(), off, Partly(ts, b.sizeStrings, i), i);
    if tag == FDT_PROP {
      CorrectName(b, off, ts, i);
    } else {
      PartlySame(ts, b.sizeStrings, i);
    }
  }

  /** The walk of fdt_finish: every name offset is corrected, the rest stays. The only End is the
      last token. */
  method CorrectNames(b: Blob, ghost us: seq<Tok>) returns (next: int)
    requires b.offStruct + b.sizeStruct <= b.offStrings && b.offStrings + b.sizeStrings <= b.buf.Length <= INT_MAX
    requires Pos(b.Struct(), Partly(us, b.sizeStrings, 0), 0, 0) && us != []
    requires forall k | 0 <= k < |us| :: TagOf(us[k]) == FDT_END <==> k == |us| - 1
    modifies b.buf
    ensures next >= 0 && b.Strings() == old(b.Strings())
    ensures Pos(b.Struct(), Partly(us, b.sizeStrings, |us|), next, |us|)
  {
    ghost var i := 0;
    var tag := FDT_NOP;
    next := 0;
    while tag != FDT_END
      invariant i <= |us| && (tag == FDT_END <==> i == |us|)
      invariant next >= 0 && b.Strings() == old(b.Strings())
      invariant Pos(b.Struct(), Partly(us, b.sizeStrings, i), next, i)
      decreases |us| - i
    {
      tag, next := CorrectToken(b, next, us, i);
      i := i + 1;
    }
  }

  /** fdt_finish moves the strings from the end of the buffer to behind the structure block. */
  method MoveStrings(b: Blob)
    requires Layout(b)
    modifies b`offStrings, b.buf
    ensures b.offStrings == b.offStruct + b.sizeStruct
    ensures b.Struct() == old(b.Struct()) && b.Strings() == old(Tail(b))
  {
    var from, to := b.totalsize - b.sizeStrings, b.offStruct + b.sizeStruct;
    MovedDown(b.buf[..], to, from, b.sizeStrings, b.offStruct);
    Move(b.buf, to, from, b.sizeStrings);
    b.offStrings := to;
  }

  lemma MovedDown(m: bytes, to: nat, from: nat, n: nat, lo: nat)
    requires lo <= to && to + n <= |m| && from + n <= |m|
    ensures
      var w := m[..to] + m[from..from + n] + m[to + n..];
      w[lo..to] == m[lo..to] && w[to..to + n] == m[from..from + n]
  {
  }

  lemma SaysAll(st: bytes, ts: seq<Tok>, str: bytes, es: seq<Event>)
    requires SwEvents(ts, str) == Some(es) && Decode(st) == Some(FixedAll(ts, |str|) + [End])
    ensures Says(st, str, es)
  {
    var us := FixedAll(ts, |str|);
    assert (us + [End])[..|us|] == us;
  }

  /** The block with its End, before the names are corrected. */
  lemma WroteAll(st: bytes, c: bytes, str: bytes, es: seq<Event>)
    requires Wrote(st, str, es) && c == Word(FDT_END)
    ensures Decode(st + c) == Some(Decode(st).value + [End])
    ensures forall k | 0 <= k < |Decode(st).value| :: Decode(st).value[k] != End
  {
    PlainChunk(End);
    DecodeOne(c);
    DecodeAppend(st, c);
    var ts := Decode(st).value;
    NoEnd(FixedAll(ts, |str|), str);
    forall k | 0 <= k < |ts| ensures ts[k] != End {
      assert FixedAll(ts, |str|)[k] == Fixed(ts[k], |str|);
    }
  }

  /** The strings go behind the structure block, and every name offset is corrected. */
  method MoveAndCorrect(b: Blob, ghost ts: seq<Tok>) returns (next: int)
    requires Layout(b) && Decode(b.Struct()) == Some(ts + [End]) && forall k | 0 <= k < |ts| :: ts[k] != End
    modifies b`offStrings, b.buf
    ensures next >= 0 && b.offStrings == b.offStruct + b.sizeStruct && b.Strings() == old(Tail(b))
    ensures Decode(b.Struct()) == Some(FixedAll(ts, b.sizeStrings) + [End])
  {
    PartlyEnds(ts, b.sizeStrings);
    MoveStrings(b);
    next := CorrectNames(b, ts + [End]);
  }

  method Seal(b: Blob, ghost ts: seq<Tok>, ghost es: seq<Event>) returns (err: int)
    requires Layout(b) && Decode(b.Struct()) == Some(ts + [End]) && SwEvents(ts, Tail(b)) == Some(es)
    requires forall k | 0 <= k < |ts| :: ts[k] != End
    modifies b, b.buf
    ensures err == 0 && Ordered(b) && Says(b.Struct(), b.Strings(), es)
    ensures b.offStrings == b.offStruct + b.sizeStruct && b.totalsize == b.offStrings + b.sizeStrings
  {
    err := MoveAndCorrect(b, ts);
    SaysAll(b.Struct(), ts, b.Strings(), es);
    if err >= 0 {
      CloseHeader(b);
      err := 0;
    }
  }

  method CloseHeader(b: Blob)
    requires b.version == 17 && 40 <= b.offRsv && b.offRsv + 16 <= b.offStruct && b.offStruct + b.sizeStruct <= b.offStrings
    requires b.offStrings + b.sizeStrings <= b.buf.Length <= INT_MAX
    modifies b`totalsize, b`magic
    ensures Ordered(b) && b.totalsize == b.offStrings + b.sizeStrings
    ensures b.Struct() == old(b.Struct()) && b.Strings() == old(b.Strings())
  {
    b.totalsize, b.magic := b.offStrings + b.sizeStrings, FDT_MAGIC;
  }

  /** A finished blob is packed and says what was written; an error leaves it as it was. */
  method Finish(b: Blob, ghost es: seq<Event>) returns (err: int)
    requires ProbeStruct(b) == 0 ==> Writing(b, es)
    modifies b, b.buf
    ensures err == 0 ==> Ordered(b) && Says(b.Struct(), b.Strings(), es)
    ensures err == 0 ==> b.offStrings == b.offStruct + b.sizeStruct && b.totalsize == b.offStrings + b.sizeStrings
    ensures err != 0 ==> unchanged(b) && unchanged(b.buf)
    ensures err == (if old(ProbeStruct(b)) != 0 then old(ProbeStruct(b))
                    else if old(Used(b)) + 4 > b.buf.Length then ERR_NOSPACE else 0)
  {
    err := ProbeStruct(b);
    if err == 0 {
      ghost var st := b.Struct();
      var ok, c := Grab(b, 4, Word(FDT_END));
      if ok {
        assert c == c[..4];
        WroteAll(st, c, Tail(b), es);
        err := Seal(b, Decode(st).value, es);
      } else {
        err := ERR_NOSPACE;
      }
    }
  }

  // ---- a whole tree

  /** Names are C strings and lengths are ints. */
  ghost predicate Plain(n: Node) {
    && NoNul(n.name)
    && (forall i | 0 <= i < |n.props| :: NoNul(n.props[i].name) && |n.props[i].val| <= INT_MAX)
    && forall i | 0 <= i < |n.kids| :: Plain(n.kids[i])
  }

  /** Writing es failed or not, started with `used` bytes in use: it fails only for want of space. */
  predicate Spent(err: int, used: nat, cost: nat, length: nat, now: nat) {
    if err == 0 then now <= used + cost else err == ERR_NOSPACE && used + cost > length
  }

  method WriteProps(b: Blob, ps: seq<Property>, ghost es: seq<Event>) returns (err: int)
    requires Writing(b, es) && forall i | 0 <= i < |ps| :: NoNul(ps[i].name) && |ps[i].val| <= INT_MAX
    modifies b, b.buf
    ensures err == 0 ==> Writing(b, es + PropEvents(ps))
    ensures Spent(err, old(Used(b)), Costs(PropEvents(ps)), b.buf.Length, Used(b))
  {
    err := 0;
    var i := 0;
    assert ps[..0] == [] && es + [] == es;
    while i < |ps| && err == 0
      invariant i <= |ps| && (err == 0 ==> Writing(b, es + PropEvents(ps[..i])))
      invariant Spent(err, old(Used(b)), Costs(PropEvents(ps[..i])), b.buf.Length, Used(b))
      decreases |ps| - i, err == 0
    {
      err := WriteProperty(b, ps[i].name, ps[i].val, es + PropEvents(ps[..i]));
      PropEventsSnoc(es, ps, i);
      PropCosts(ps, i);
      i := i + 1;
    }
    PropsCost(ps, i);
    assert ps[..|ps|] == ps;
  }

  lemma PropCosts(ps: seq<Property>, i: nat)
    requires i < |ps|
    ensures Costs(PropEvents(ps[..i + 1])) == Costs(PropEvents(ps[..i])) + Cost(EProp(ps[i]))
  {
    PropEventsSnoc([], ps, i);
    assert [] + PropEvents(ps[..i]) == PropEvents(ps[..i]) && [] + PropEvents(ps[..i + 1]) == PropEvents(ps[..i + 1]);
    CostsAppend(PropEvents(ps[..i]), [EProp(ps[i])]);
    CostsOne(EProp(ps[i]));
  }

  lemma PropsCost(ps: seq<Property>, i: nat)
    requires i <= |ps|
    ensures Costs(PropEvents(ps[..i])) <= Costs(PropEvents(ps))
  {
    assert ps == ps[..i] + ps[i..];
    PropEventsAppend(ps[..i], ps[i..]);
    CostsAppend(PropEvents(ps[..i]), PropEvents(ps[i..]));
  }

  lemma PropEventsSnoc(es: seq<Event>, ps: seq<Property>, i: nat)
    requires i < |ps|
    ensures es + PropEvents(ps[..i]) + [EProp(ps[i])] == es + PropEvents(ps[..i + 1])
  {
    assert ps[..i + 1] == ps[..i] + [ps[i]];
    PropEventsAppend(ps[..i], [ps[i]]);
    PropEventsOne(ps[i]);
  }

  lemma FlatsSnoc(es: seq<Event>, ns: seq<Node>, i: nat)
    requires i < |ns|
    ensures es + Flats(ns[..i]) + Flat(ns[i]) == es + Flats(ns[..i + 1])
  {
    assert ns[..i + 1] == ns[..i] + [ns[i]];
    FlatsAppend(ns[..i], [ns[i]]);
    FlatsOne(ns[i]);
    Associate(es, Flats(ns[..i]), Flat(ns[i]));
  }

  lemma Associate<T>(a: seq<T>, b: seq<T>, c: seq<T>)
    ensures a + b + c == a + (b + c)
  {
  }

  lemma FlatParts(es: seq<Event>, n: Node)
    ensures es + [EBegin(n.name)] + PropEvents(n.props) + Flats(n.kids) + [EEnd] == es + Flat(n)
  {
  }

  lemma KidCosts(ns: seq<Node>, i: nat)
    requires i < |ns|
    ensures Costs(Flats(ns[..i + 1])) == Costs(Flats(ns[..i])) + Costs(Flat(ns[i]))
  {
    FlatsSnoc([], ns, i);
    assert [] + Flats(ns[..i]) == Flats(ns[..i]) && [] + Flats(ns[..i + 1]) == Flats(ns[..i + 1]);
    CostsAppend(Flats(ns[..i]), Flat(ns[i]));
  }

  lemma KidsCost(ns: seq<Node>, i: nat)
    requires i <= |ns|
    ensures Costs(Flats(ns[..i])) <= Costs(Flats(ns))
  {
    assert ns == ns[..i] + ns[i..];
    FlatsAppend(ns[..i], ns[i..]);
    CostsAppend(Flats(ns[..i]), Flats(ns[i..]));
  }

  lemma NodeCosts(n: Node)
    ensures Costs(Flat(n)) == Cost(EBegin(n.name)) + Costs(PropEvents(n.props)) + Costs(Flats(n.kids)) + 4
  {
    CostsOne(EBegin(n.name));
    CostsOne(EEnd);
    CostsAppend([EBegin(n.name)], PropEvents(n.props));
    CostsAppend([EBegin(n.name)] + PropEvents(n.props), Flats(n.kids));
    CostsAppend([EBegin(n.name)] + PropEvents(n.props) + Flats(n.kids), [EEnd]);
  }

  /** begin_node, the properties, the children, end_node */
  method WriteNode(b: Blob, n: Node, ghost es: seq<Event>) returns (err: int)
    requires Writing(b, es) && Plain(n)
    modifies b, b.buf
    ensures err == 0 ==> Writing(b, es + Flat(n))
    ensures Spent(err, old(Used(b)), Costs(Flat(n)), b.buf.Length, Used(b))
    decreases n, 1
  {
    NodeCosts(n);
    err := BeginNode(b, n.name, es);
    if err == 0 {
      ghost var es1 := es + [EBegin(n.name)];
      err := WriteProps(b, n.props, es1);
      if err == 0 {
        ghost var es2 := es1 + PropEvents(n.props);
        err := WriteKids(b, n.kids, es2);
        if err == 0 {
          err := FinishNode(b, es2 + Flats(n.kids));
          FlatParts(es, n);
        }
      }
    }
  }

  method WriteKids(b: Blob, ns: seq<Node>, ghost es: seq<Event>) returns (err: int)
    requires Writing(b, es) && forall i | 0 <= i < |ns| :: Plain(ns[i])
    modifies b, b.buf
    ensures err == 0 ==> Writing(b, es + Flats(ns))
    ensures Spent(err, old(Used(b)), Costs(Flats(ns)), b.buf.Length, Used(b))
    decreases ns, 0
  {
    err := 0;
    var i := 0;
    assert ns[..0] == [] && es + [] == es;
    while i < |ns| && err == 0
      invariant i <= |ns| && (err == 0 ==> Writing(b, es + Flats(ns[..i])))
      invariant Spent(err, old(Used(b)), Costs(Flats(ns[..i])), b.buf.Length, Used(b))
      decreases |ns| - i, err == 0
    {
      err := WriteNode(b, ns[i], es + Flats(ns[..i]));
      FlatsSnoc(es, ns, i);
      KidCosts(ns, i);
      i := i + 1;
    }
    KidsCost(ns, i);
    assert ns[..|ns|] == ns;
  }

  /** A buffer of this size is large enough for the tree: header, reserve map, tokens, names and End. */
  function Need(t: Node): nat {
    48 + 16 + Costs(Flat(t)) + 4
  }

  /** The whole sequence of calls, from fdt_create to fdt_finish. */
  method WriteTree(b: Blob, t: Node) returns (err: int)
    requires b.buf.Length <= INT_MAX && Plain(t)
    modifies b, b.buf
    ensures err == 0 ==> Tree(b, t)
    ensures err != 0 ==> err == ERR_NOSPACE && b.buf.Length < Need(t)
  {
    err := Create(b);
    if err == 0 {
      err := FinishReservemap(b);
      if err == 0 {
        err := WriteNode(b, t, []);
        if err == 0 {
          assert [] + Flat(t) == Flat(t);
          err := Finish(b, Flat(t));
        }
      }
    }
  }

  /** Write, then read: the same nodes, names, properties and nesting. */
  method WriteThenRead(b: Blob, t: Node) returns (err: int, r: Option<Node>)
    requires b.buf.Length <= INT_MAX && Plain(t)
    modifies b, b.buf
    ensures err == 0 ==> r == Some(t) && Tree(b, t)
    ensures err != 0 ==> err == ERR_NOSPACE && r == None && b.buf.Length < Need(t)
  {
    err := WriteTree(b, t);
    r := None;
    if err == 0 {
      var n := ReadTree(b.Struct(), b.Strings(), t);
      r := Some(n);
    }
  }
}
