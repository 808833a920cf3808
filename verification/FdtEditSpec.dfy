/** What each edit of the token sequence does to the abstract tree: exactly one place changes. */
module FdtEditSpec {
  import opened Prelude
  import opened FdtTokens
  import opened FdtTree
  import opened FdtPlace

  // ---- properties of one node

  /** The first property with this name, or |ps|. */
  function IndexOf(ps: seq<Property>, name: bytes): (k: nat)
    ensures k <= |ps| && (k < |ps| ==> ps[k].name == name)
    ensures forall j | 0 <= j < k :: ps[j].name != name
  {
    if ps == [] || ps[0].name == name then 0 else 1 + IndexOf(ps[1..], name)
  }

  /** fdt_setprop: the value of the first property of that name, or a new first property. */
  function WithProp(ps: seq<Property>, name: bytes, val: bytes): seq<Property> {
    var k := IndexOf(ps, name);
    if k < |ps| then ps[k := Property(name, val)] else [Property(name, val)] + ps
  }

  /** What was set is what is found, and no other name is affected. */
  lemma {:induction false} SetThenGet(ps: seq<Property>, name: bytes, val: bytes, other: bytes)
    ensures
      var qs := WithProp(ps, name, val);
      && IndexOf(qs, name) < |qs| && qs[IndexOf(qs, name)].val == val
      && (other != name ==>
            && (IndexOf(qs, other) < |qs| <==> IndexOf(ps, other) < |ps|)
            && (IndexOf(ps, other) < |ps| ==> qs[IndexOf(qs, other)] == ps[IndexOf(ps, other)]))
  {
    var qs := WithProp(ps, name, val);
    var k := IndexOf(ps, name);
    if k < |ps| {
      IndexIs(qs, name, k);
      if other != name {
        IndexIs(qs, other, IndexOf(ps, other));
      }
    } else {
      assert qs[1..] == ps;
    }
  }

  lemma {:induction false} IndexIs(ps: seq<Property>, name: bytes, k: nat)
    requires k <= |ps| && (k < |ps| ==> ps[k].name == name)
    requires forall j | 0 <= j < k :: ps[j].name != name
    ensures IndexOf(ps, name) == k
  {
  }

  // ---- one node is exchanged

  /** Other tokens with the events of n' in the place of the node give the tree with n' there. */
  lemma Exchange(ts: seq<Tok>, str: bytes, t: Node, i: nat, e: nat, z: Hole, n: Node, seg: seq<Tok>, n': Node)
    requires At(ts, str, t, i, e, z, n) && Events(seg, str) == Some(Flat(n'))
    ensures Reads(ts[..i] + seg + ts[e..], str, Plug(z, n'))
  {
    EventsAppend(ts[..i], seg, str);
    EventsAppend(ts[..i] + seg, ts[e..], str);
    FlatPlug(z, n');
  }

  /** Tokens that say nothing in the place of a node leave what stands around it. */
  lemma Drop(ts: seq<Tok>, str: bytes, t: Node, i: nat, e: nat, z: Hole, n: Node, seg: seq<Tok>)
    requires At(ts, str, t, i, e, z, n) && Events(seg, str) == Some([])
    ensures Events(ts[..i] + seg + ts[e..], str) == Some(Before(z) + Behind(z))
  {
    EventsAppend(ts[..i], seg, str);
    EventsAppend(ts[..i] + seg, ts[e..], str);
    assert Before(z) + [] == Before(z);
  }

  ghost predicate Flush(ts: seq<Tok>) {
    forall j | 0 <= j < |ts| :: ts[j] == Nop
  }

  lemma {:induction false} NopsSayNothing(ts: seq<Tok>, str: bytes)
    requires Flush(ts)
    ensures Events(ts, str) == Some([])
  {
    if ts != [] {
      NopsSayNothing(ts[1..], str);
    }
  }

  // ---- inside a node

  predicate Quiet(t: Tok) { t.Prop? || t.Nop? }

  ghost predicate AllQuiet(ts: seq<Tok>) {
    forall j | 0 <= j < |ts| :: Quiet(ts[j])
  }

  /** Leading property tokens are leading properties. */
  lemma {:induction false} QuietProps(ts: seq<Tok>, str: bytes, ps: seq<Property>, rest: seq<Event>, q: nat)
    returns (k: nat)
    requires Events(ts, str) == Some(PropEvents(ps) + rest) && (rest != [] ==> !rest[0].EProp?)
    requires q <= |ts| && AllQuiet(ts[..q])
    ensures k <= |ps| && Events(ts[..q], str) == Some(PropEvents(ps[..k]))
    ensures Events(ts[q..], str) == Some(PropEvents(ps[k..]) + rest)
    decreases q
  {
    if q == 0 {
      k := 0;
    } else {
      assert ts[..q][0] == ts[0] && ts[1..][..q - 1] == ts[..q][1..];
      assert ts[1..][q - 1..] == ts[q..];
      assert AllQuiet(ts[1..][..q - 1]);
      var es := PropEvents(ps) + rest;
      if ts[0] == Nop {
        k := QuietProps(ts[1..], str, ps, rest, q - 1);
      } else {
        assert es[0].EProp?;
        assert ps != [];
        assert es[1..] == PropEvents(ps[1..]) + rest;
        var k' := QuietProps(ts[1..], str, ps[1..], rest, q - 1);
        k := k' + 1;
        assert ps[..k] == [ps[0]] + ps[1..][..k'];
        assert ps[1..][k'..] == ps[k..];
        assert ps[..k][1..] == ps[1..][..k'];
      }
    }
  }

  /** The events of a node behind its begin. */
  lemma Inside(ts: seq<Tok>, str: bytes, n: Node)
    requires ts != [] && Events(ts, str) == Some(Flat(n)) && ts[0].Begin?
    ensures ts[0] == Begin(n.name)
    ensures Events(ts[1..], str) == Some(PropEvents(n.props) + (Flats(n.kids) + [EEnd]))
    ensures !(Flats(n.kids) + [EEnd])[0].EProp?
  {
    var es := Events(ts[1..], str).value;
    assert Flat(n)[0] == EBegin(ts[0].name);
    assert Flat(n)[1..] == es;
    assert Flat(n)[1..] == PropEvents(n.props) + (Flats(n.kids) + [EEnd]);
    FlatsHead(n.kids, [EEnd]);
  }

  /** The node whose tokens are begin, a, mid, b, where a holds its first k properties. */
  lemma Rebuild(begin: Tok, str: bytes, name: bytes, a: seq<Tok>, mid: seq<Tok>, b: seq<Tok>,
                ps: seq<Property>, ms: seq<Event>, rest: seq<Event>, n: Node)
    requires begin == Begin(name) && Events(a, str) == Some(PropEvents(ps)) && Events(mid, str) == Some(ms)
    requires Events(b, str) == Some(rest)
    requires Flat(n) == [EBegin(name)] + PropEvents(ps) + ms + rest
    ensures Events([begin] + a + mid + b, str) == Some(Flat(n))
  {
    assert Events([begin][1..], str) == Some([]);
    EventsAppend([begin], a, str);
    EventsAppend([begin] + a, mid, str);
    EventsAppend([begin] + a + mid, b, str);
  }

  /** Scan the property tokens from j for one with this name. */
  function FindFrom(ts: seq<Tok>, str: bytes, j: nat, name: bytes): (q: Option<nat>)
    ensures q.Some? ==> j <= q.value < |ts| && ts[q.value].Prop? && StrAt(str, ts[q.value].nameoff) == Some(name)
    ensures q.Some? ==> forall x | j <= x < q.value :: Quiet(ts[x])
    decreases |ts| - j
  {
    if j >= |ts| || !Quiet(ts[j]) then None
    else if ts[j].Prop? && StrAt(str, ts[j].nameoff) == Some(name) then Some(j)
    else FindFrom(ts, str, j + 1, name)
  }

  /** Property k of ps is the token q of ts[j..e], whose events are those of ps and rest. */
  ghost predicate FoundAt(ts: seq<Tok>, str: bytes, j: nat, e: nat, ps: seq<Property>, rest: seq<Event>, q: nat, k: nat) {
    && j <= q < e <= |ts| && k < |ps| && ts[q].Prop? && ts[q].val == ps[k].val
    && Events(ts[j..q], str) == Some(PropEvents(ps[..k]))
    && Events(ts[q + 1..e], str) == Some(PropEvents(ps[k + 1..]) + rest)
  }

  lemma FoundAfterNop(ts: seq<Tok>, str: bytes, j: nat, e: nat, ps: seq<Property>, rest: seq<Event>, q: nat, k: nat)
    requires j < |ts| && ts[j] == Nop && FoundAt(ts, str, j + 1, e, ps, rest, q, k)
    ensures FoundAt(ts, str, j, e, ps, rest, q, k)
  {
    assert ts[j..q][1..] == ts[j + 1..q];
  }

  lemma FoundAfterProp(ts: seq<Tok>, str: bytes, j: nat, e: nat, ps: seq<Property>, rest: seq<Event>, q: nat, k: nat)
    requires j < |ts| && ts[j].Prop? && ps != [] && StrAt(str, ts[j].nameoff) == Some(ps[0].name) && ts[j].val == ps[0].val
    requires FoundAt(ts, str, j + 1, e, ps[1..], rest, q, k)
    ensures FoundAt(ts, str, j, e, ps, rest, q, k + 1)
  {
    assert ts[j..q][1..] == ts[j + 1..q];
    assert ps[..k + 1] == [ps[0]] + ps[1..][..k] && ps[..k + 1][1..] == ps[1..][..k];
    assert ps[1..][k + 1..] == ps[k + 2..];
  }

  /** The events of ts[j..e] when its first token is a property. */
  lemma FirstProp(ts: seq<Tok>, str: bytes, j: nat, e: nat, ps: seq<Property>, rest: seq<Event>)
    requires j < e <= |ts| && ts[j].Prop? && Events(ts[j..e], str) == Some(PropEvents(ps) + rest)
    requires rest != [] && !rest[0].EProp?
    ensures ps != [] && StrAt(str, ts[j].nameoff) == Some(ps[0].name) && ts[j].val == ps[0].val
    ensures Events(ts[j + 1..e], str) == Some(PropEvents(ps[1..]) + rest)
  {
    assert ts[j..e][1..] == ts[j + 1..e] && ts[j..e][0] == ts[j];
    HeadProp(ts[j..e], str, ps, rest);
  }

  lemma HeadProp(us: seq<Tok>, str: bytes, ps: seq<Property>, rest: seq<Event>)
    requires us != [] && us[0].Prop? && Events(us, str) == Some(PropEvents(ps) + rest)
    requires rest != [] && !rest[0].EProp?
    ensures ps != [] && StrAt(str, us[0].nameoff) == Some(ps[0].name) && us[0].val == ps[0].val
    ensures Events(us[1..], str) == Some(PropEvents(ps[1..]) + rest)
  {
    var es := Events(us[1..], str).value;
    var p := Property(StrAt(str, us[0].nameoff).value, us[0].val);
    if ps == [] {
      Uncons(EProp(p), es, rest[0], [], rest[1..]);
    } else {
      Uncons(EProp(p), es, EProp(ps[0]), PropEvents(ps[1..]), rest);
    }
  }

  lemma Uncons<T>(a: T, es: seq<T>, x: T, xs: seq<T>, rest: seq<T>)
    ensures [a] + es == [x] + xs + rest ==> a == x && es == xs + rest
    ensures rest != [] ==> [rest[0]] + [] + rest[1..] == rest
  {
    if [a] + es == [x] + xs + rest {
      assert ([a] + es)[0] == ([x] + xs + rest)[0];
      assert es == ([a] + es)[1..] == ([x] + xs + rest)[1..] == xs + rest;
    }
  }

  lemma FirstEvent(ps: seq<Property>, rest: seq<Event>)
    requires rest != []
    ensures
      var es := PropEvents(ps) + rest;
      es != [] && es[0] == (if ps != [] then EProp(ps[0]) else rest[0])
  {
  }

  /** The scan finds the first property of that name, and nothing exactly when there is none. */
  lemma {:induction false} FindsFirst(ts: seq<Tok>, str: bytes, j: nat, e: nat, name: bytes, ps: seq<Property>, rest: seq<Event>)
    requires j <= e <= |ts| && Events(ts[j..e], str) == Some(PropEvents(ps) + rest)
    requires rest != [] && !rest[0].EProp?
    ensures
      var q, k := FindFrom(ts, str, j, name), IndexOf(ps, name);
      (q.Some? <==> k < |ps|) && (q.Some? ==> FoundAt(ts, str, j, e, ps, rest, q.value, k))
    decreases e - j
  {
    assert j < e;
    assert ts[j..e][1..] == ts[j + 1..e] && ts[j..e][0] == ts[j];
    var q, k := FindFrom(ts, str, j, name), IndexOf(ps, name);
    if ts[j].Nop? {
      FindsFirst(ts, str, j + 1, e, name, ps, rest);
      if q.Some? {
        FoundAfterNop(ts, str, j, e, ps, rest, q.value, k);
      }
    } else if ts[j].Prop? {
      FirstProp(ts, str, j, e, ps, rest);
      if ps[0].name == name {
        assert ts[j..j] == [] && ps[..0] == [];
      } else {
        FindsFirst(ts, str, j + 1, e, name, ps[1..], rest);
        if q.Some? {
          FoundAfterProp(ts, str, j, e, ps, rest, q.value, k - 1);
        }
      }
    } else {
      NotQuiet(ts[j..e], str, ps, rest);
    }
  }

  lemma NotQuiet(ts: seq<Tok>, str: bytes, ps: seq<Property>, rest: seq<Event>)
    requires ts != [] && !Quiet(ts[0]) && Events(ts, str) == Some(PropEvents(ps) + rest) && rest != []
    ensures ps == [] && PropEvents(ps) + rest == rest
  {
    FirstEvent(ps, rest);
  }

  // ---- the edits

  /** The node at i, and where its property `name` is. */
  lemma PropPlace(ts: seq<Tok>, str: bytes, t: Node, i: nat, e: nat, z: Hole, n: Node, name: bytes)
    requires At(ts, str, t, i, e, z, n)
    ensures
      var q, k := FindFrom(ts, str, i + 1, name), IndexOf(n.props, name);
      && (q.Some? <==> k < |n.props|)
      && (q.Some? ==> FoundAt(ts, str, i + 1, e, n.props, Flats(n.kids) + [EEnd], q.value, k))
  {
    assert ts[i..e][0] == ts[i] && ts[i..e][1..] == ts[i + 1..e];
    Inside(ts[i..e], str, n);
    FindsFirst(ts, str, i + 1, e, name, n.props, Flats(n.kids) + [EEnd]);
  }

  lemma FlatProps(n: Node, a: seq<Property>, ms: seq<Property>, b: seq<Property>)
    ensures Flat(n.(props := a + ms + b)) ==
              [EBegin(n.name)] + PropEvents(a) + PropEvents(ms) + (PropEvents(b) + (Flats(n.kids) + [EEnd]))
  {
    PropEventsAppend(a + ms, b);
    PropEventsAppend(a, ms);
    Spread([EBegin(n.name)], PropEvents(a), PropEvents(ms), PropEvents(b), Flats(n.kids), [EEnd]);
  }

  lemma Spread<T>(b: seq<T>, x: seq<T>, m: seq<T>, y: seq<T>, k: seq<T>, e: seq<T>)
    ensures b + (x + m + y) + k + e == b + x + m + (y + (k + e))
  {
  }

  /** Tokens q1..q2 inside the node are exchanged for mid. */
  lemma ExchangeInside(ts: seq<Tok>, str: bytes, t: Node, i: nat, e: nat, z: Hole, n: Node,
                       q1: nat, q2: nat, mid: seq<Tok>, n': Node)
    requires At(ts, str, t, i, e, z, n) && i < q1 <= q2 <= e
    requires Events([ts[i]] + ts[i + 1..q1] + mid + ts[q2..e], str) == Some(Flat(n'))
    ensures Reads(ts[..q1] + mid + ts[q2..], str, Plug(z, n'))
  {
    Exchange(ts, str, t, i, e, z, n, [ts[i]] + ts[i + 1..q1] + mid + ts[q2..e], n');
    Around(ts, i, q1, q2, e, mid);
  }

  lemma Around<T>(s: seq<T>, i: nat, q1: nat, q2: nat, e: nat, mid: seq<T>)
    requires i < q1 <= q2 <= e <= |s|
    ensures s[..i] + ([s[i]] + s[i + 1..q1] + mid + s[q2..e]) + s[e..] == s[..q1] + mid + s[q2..]
  {
  }

  /** A property token is exchanged for tokens that say ms. */
  lemma ExchangeFound(ts: seq<Tok>, str: bytes, t: Node, i: nat, e: nat, z: Hole, n: Node, q: nat, k: nat,
                      mid: seq<Tok>, ms: seq<Property>)
    requires At(ts, str, t, i, e, z, n) && FoundAt(ts, str, i + 1, e, n.props, Flats(n.kids) + [EEnd], q, k)
    requires Events(mid, str) == Some(PropEvents(ms))
    ensures Reads(ts[..q] + mid + ts[q + 1..], str, Plug(z, n.(props := n.props[..k] + ms + n.props[k + 1..])))
  {
    var a, b := n.props[..k], n.props[k + 1..];
    var n' := n.(props := a + ms + b);
    FlatProps(n, a, ms, b);
    Rebuild(ts[i], str, n.name, ts[i + 1..q], mid, ts[q + 1..e], a, PropEvents(ms),
            PropEvents(b) + (Flats(n.kids) + [EEnd]), n');
    ExchangeInside(ts, str, t, i, e, z, n, q, q + 1, mid, n');
  }

  /** A new first property. */
  lemma InsertProp(ts: seq<Tok>, str: bytes, t: Node, i: nat, e: nat, z: Hole, n: Node, mid: seq<Tok>, p: Property)
    requires At(ts, str, t, i, e, z, n) && Events(mid, str) == Some([EProp(p)])
    ensures Reads(ts[..i + 1] + mid + ts[i + 1..], str, Plug(z, n.(props := [p] + n.props)))
  {
    assert ts[i..e][0] == ts[i] && ts[i..e][1..] == ts[i + 1..e];
    Inside(ts[i..e], str, n);
    var n' := n.(props := [p] + n.props);
    FlatProps(n, [], [p], n.props);
    assert [] + [p] + n.props == n'.props;
    PropEventsOne(p);
    Rebuild(ts[i], str, n.name, [], mid, ts[i + 1..e], [], [EProp(p)], PropEvents(n.props) + (Flats(n.kids) + [EEnd]), n');
    assert ts[i + 1..i + 1] == [];
    ExchangeInside(ts, str, t, i, e, z, n, i + 1, i + 1, mid, n');
  }

  lemma PropEventsOne(p: Property)
    ensures PropEvents([p]) == [EProp(p)]
  {
    assert [p][1..] == [];
  }

  /** fdt_set_name: other tokens for the begin of the node. */
  lemma RenameWith(ts: seq<Tok>, str: bytes, t: Node, i: nat, e: nat, z: Hole, n: Node, mid: seq<Tok>, name: bytes)
    requires At(ts, str, t, i, e, z, n) && Events(mid, str) == Some([EBegin(name)])
    ensures Reads(ts[..i] + mid + ts[i + 1..], str, Plug(z, n.(name := name)))
  {
    RenamedEvents(ts[i..e], str, n, mid, name);
    assert ts[i..e][1..] == ts[i + 1..e];
    Exchange(ts, str, t, i, e, z, n, mid + ts[i + 1..e], n.(name := name));
    assert ts[..i] + (mid + ts[i + 1..e]) + ts[e..] == ts[..i] + mid + ts[i + 1..];
  }

  lemma RenamedEvents(us: seq<Tok>, str: bytes, n: Node, mid: seq<Tok>, name: bytes)
    requires us != [] && us[0] == Begin(n.name) && Events(us, str) == Some(Flat(n)) && Events(mid, str) == Some([EBegin(name)])
    ensures Events(mid + us[1..], str) == Some(Flat(n.(name := name)))
  {
    Inside(us, str, n);
    var rest := PropEvents(n.props) + (Flats(n.kids) + [EEnd]);
    assert Flat(n.(name := name)) == [EBegin(name)] + rest;
    EventsAppend(mid, us[1..], str);
  }

  lemma EventsOne(t: Tok, str: bytes)
    requires t.Begin? || t.EndNode?
    ensures Events([t], str) == Some([if t.Begin? then EBegin(t.name) else EEnd])
  {
    assert Events([t][1..], str) == Some([]);
    var e := if t.Begin? then EBegin(t.name) else EEnd;
    assert [e] + [] == [e];
  }

  lemma EventsNil(t: Tok, str: bytes)
    ensures Events([t][1..], str) == Some([])
  {
  }

  /** What one token says. */
  function Said(t: Tok, str: bytes): Option<seq<Event>> {
    match t
    case Nop => Some([])
    case Begin(name) => Some([EBegin(name)])
    case EndNode => Some([EEnd])
    case End => None
    case Prop(o, val) => if StrAt(str, o).Some? then Some([EProp(Property(StrAt(str, o).value, val))]) else None
  }

  lemma EventsSingle(t: Tok, str: bytes)
    ensures Events([t], str) == Said(t, str)
  {
    EventsNil(t, str);
    if t.Prop? && StrAt(str, t.nameoff).Some? {
      PropEvent(t, str, StrAt(str, t.nameoff).value);
    } else if t.Begin? || t.EndNode? {
      EventsOne(t, str);
    }
  }

  lemma PropEvent(t: Tok, str: bytes, name: bytes)
    requires t.Prop? && StrAt(str, t.nameoff) == Some(name)
    ensures Events([t], str) == Some([EProp(Property(name, t.val))])
  {
    EventsNil(t, str);
    var e := EProp(Property(name, t.val));
    assert [e] + [] == [e];
  }

  lemma NewKid(str: bytes, name: bytes)
    ensures Events([Begin(name), EndNode], str) == Some([EBegin(name), EEnd])
    ensures Flat(Node(name, [], [])) == [EBegin(name), EEnd]
  {
    EventsOne(Begin(name), str);
    EventsOne(EndNode, str);
    EventsAppend([Begin(name)], [EndNode], str);
    assert [Begin(name)] + [EndNode] == [Begin(name), EndNode];
    assert [EBegin(name)] + [EEnd] == [EBegin(name), EEnd];
  }

  lemma FlatKid(n: Node, kid: Node)
    ensures Flat(n.(kids := [kid] + n.kids)) == [EBegin(n.name)] + PropEvents(n.props) + Flat(kid) + (Flats(n.kids) + [EEnd])
  {
    assert ([kid] + n.kids)[1..] == n.kids;
  }

  /** The properties of a node end at its first token that is neither a property nor a Nop. */
  lemma PropsEnd(ts: seq<Tok>, str: bytes, i: nat, e: nat, n: Node, q: nat)
    requires i < q < e <= |ts| && ts[i].Begin? && Events(ts[i..e], str) == Some(Flat(n))
    requires AllQuiet(ts[i + 1..q]) && !Quiet(ts[q])
    ensures Events(ts[i + 1..q], str) == Some(PropEvents(n.props))
    ensures Events(ts[q..e], str) == Some(Flats(n.kids) + [EEnd])
  {
    assert ts[i..e][0] == ts[i] && ts[i..e][1..] == ts[i + 1..e];
    Inside(ts[i..e], str, n);
    SubSlice(ts, i + 1, q, e);
    var k := QuietProps(ts[i + 1..e], str, n.props, Flats(n.kids) + [EEnd], q - (i + 1));
    NotQuiet(ts[q..e], str, n.props[k..], Flats(n.kids) + [EEnd]);
    assert n.props[..k] == n.props;
  }

  /** fdt_add_subnode: a new first child, placed at the first token that is neither a property
      nor a Nop. */
  lemma InsertKid(ts: seq<Tok>, str: bytes, t: Node, i: nat, e: nat, z: Hole, n: Node, q: nat, mid: seq<Tok>, name: bytes)
    requires At(ts, str, t, i, e, z, n) && i < q < e && AllQuiet(ts[i + 1..q]) && !Quiet(ts[q])
    requires Events(mid, str) == Some([EBegin(name), EEnd])
    ensures Reads(ts[..q] + mid + ts[q..], str, Plug(z, n.(kids := [Node(name, [], [])] + n.kids)))
  {
    PropsEnd(ts, str, i, e, n, q);
    var kid := Node(name, [], []);
    var n' := n.(kids := [kid] + n.kids);
    NewKid(str, name);
    FlatKid(n, kid);
    Rebuild(ts[i], str, n.name, ts[i + 1..q], mid, ts[q..e], n.props, [EBegin(name), EEnd], Flats(n.kids) + [EEnd], n');
    ExchangeInside(ts, str, t, i, e, z, n, q, q, mid, n');
  }

  /** Strings that are appended change nothing for the tokens that could be read before. */
  lemma {:induction false} MoreStrings(ts: seq<Tok>, str: bytes, ext: bytes)
    requires Events(ts, str).Some?
    ensures Events(ts, str + ext) == Events(ts, str)
  {
    if ts != [] {
      MoreStrings(ts[1..], str, ext);
      if ts[0].Prop? {
        var s := StrAt(str, ts[0].nameoff).value;
        assert (str + ext)[ts[0].nameoff..ts[0].nameoff + |s| + 1] == str[ts[0].nameoff..ts[0].nameoff + |s| + 1];
        StrAtLocal(str, str + ext, ts[0].nameoff, ts[0].nameoff);
      }
    }
  }
}
