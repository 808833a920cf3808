/** The abstract device tree, its flat form, and one-hole contexts that say where in a tree an
    edit takes place. */
module FdtTree {
  import opened Prelude
  import opened FdtTokens

  datatype Property = Property(name: bytes, val: bytes)
  datatype Node = Node(name: bytes, props: seq<Property>, kids: seq<Node>)

  /** A token that matters to a reader, with the property name looked up. */
  datatype Event = EBegin(name: bytes) | EProp(prop: Property) | EEnd

  function PropEvents(ps: seq<Property>): seq<Event> {
    if ps == [] then [] else [EProp(ps[0])] + PropEvents(ps[1..])
  }

  /** Properties come before children. */
  function Flat(n: Node): seq<Event> {
    [EBegin(n.name)] + PropEvents(n.props) + Flats(n.kids) + [EEnd]
  }

  function Flats(ns: seq<Node>): seq<Event> {
    if ns == [] then [] else Flat(ns[0]) + Flats(ns[1..])
  }

  /** What the tokens say with the strings block str; Nops say nothing. */
  function Events(ts: seq<Tok>, str: bytes): Option<seq<Event>> {
    if ts == [] then Some([])
    else
      match Events(ts[1..], str)
      case None => None
      case Some(es) =>
        match ts[0]
        case Nop => Some(es)
        case Begin(name) => Some([EBegin(name)] + es)
        case EndNode => Some([EEnd] + es)
        case End => None
        case Prop(off, val) =>
          match StrAt(str, off)
          case None => None
          case Some(name) => Some([EProp(Property(name, val))] + es)
  }

  /** A finished structure block: tokens that say es, with Nops anywhere between, and one End. */
  ghost predicate Says(st: bytes, str: bytes, es: seq<Event>) {
    && Decode(st).Some?
    && var ts := Decode(st).value;
       && ts != [] && ts[|ts| - 1] == End
       && Events(ts[..|ts| - 1], str) == Some(es)
  }

  /** The blob with structure block st and strings block str holds the tree t. */
  ghost predicate Holds(st: bytes, str: bytes, t: Node) {
    Says(st, str, Flat(t))
  }

  lemma {:induction false} EventsAppend(a: seq<Tok>, b: seq<Tok>, str: bytes)
    ensures Events(a + b, str).Some? <==> Events(a, str).Some? && Events(b, str).Some?
    ensures Events(a + b, str).Some? ==> Events(a + b, str).value == Events(a, str).value + Events(b, str).value
  {
    if a == [] {
      assert a + b == b;
    } else {
      assert (a + b)[1..] == a[1..] + b;
      EventsAppend(a[1..], b, str);
    }
  }

  lemma {:induction false} FlatsAppend(a: seq<Node>, b: seq<Node>)
    ensures Flats(a + b) == Flats(a) + Flats(b)
  {
    if a == [] {
      assert a + b == b;
    } else {
      assert (a + b)[1..] == a[1..] + b;
      FlatsAppend(a[1..], b);
    }
  }

  lemma {:induction false} PropEventsAppend(a: seq<Property>, b: seq<Property>)
    ensures PropEvents(a + b) == PropEvents(a) + PropEvents(b)
  {
    if a == [] {
      assert a + b == b;
    } else {
      assert (a + b)[1..] == a[1..] + b;
      PropEventsAppend(a[1..], b);
    }
  }

  // ---- the flat form determines the tree

  lemma {:induction false} PropsUnique(p: seq<Property>, q: seq<Property>, u: seq<Event>, w: seq<Event>)
    requires PropEvents(p) + u == PropEvents(q) + w
    requires (u != [] && !u[0].EProp?) && (w != [] && !w[0].EProp?)
    ensures p == q && u == w
  {
    var l, r := PropEvents(p) + u, PropEvents(q) + w;
    if p == [] || q == [] {
      assert p == [] ==> l == u;
      assert q == [] ==> r == w;
    } else {
      assert l[0] == EProp(p[0]) && r[0] == EProp(q[0]);
      assert l[1..] == PropEvents(p[1..]) + u && r[1..] == PropEvents(q[1..]) + w;
      PropsUnique(p[1..], q[1..], u, w);
      assert p == [p[0]] + p[1..] && q == [q[0]] + q[1..];
    }
  }

  lemma FlatTail(n: Node, u: seq<Event>)
    ensures (Flat(n) + u)[1..] == PropEvents(n.props) + (Flats(n.kids) + ([EEnd] + u))
  {
  }

  lemma {:induction false} FlatUnique(a: Node, b: Node, u: seq<Event>, w: seq<Event>)
    requires Flat(a) + u == Flat(b) + w
    ensures a == b && u == w
    decreases a, 1
  {
    var l, r := Flat(a) + u, Flat(b) + w;
    assert l[0] == EBegin(a.name) && r[0] == EBegin(b.name);
    FlatTail(a, u);
    FlatTail(b, w);
    FlatsHead(a.kids, [EEnd] + u);
    FlatsHead(b.kids, [EEnd] + w);
    PropsUnique(a.props, b.props, Flats(a.kids) + ([EEnd] + u), Flats(b.kids) + ([EEnd] + w));
    FlatsUnique(a.kids, b.kids, u, w);
  }

  lemma FlatsHead(ns: seq<Node>, u: seq<Event>)
    requires u != [] && !u[0].EProp?
    ensures Flats(ns) + u != [] && !(Flats(ns) + u)[0].EProp?
    ensures ns != [] ==> (Flats(ns) + u)[0].EBegin?
  {
    if ns == [] {
      assert Flats(ns) + u == u;
    } else {
      assert Flats(ns) == Flat(ns[0]) + Flats(ns[1..]) && Flat(ns[0])[0] == EBegin(ns[0].name);
    }
  }

  lemma {:induction false} FlatsUnique(a: seq<Node>, b: seq<Node>, u: seq<Event>, w: seq<Event>)
    requires Flats(a) + ([EEnd] + u) == Flats(b) + ([EEnd] + w)
    ensures a == b && u == w
    decreases a, 0
  {
    var l, r := Flats(a) + ([EEnd] + u), Flats(b) + ([EEnd] + w);
    FlatsHead(a, [EEnd] + u);
    FlatsHead(b, [EEnd] + w);
    if a == [] || b == [] {
      assert a == [] ==> l == [EEnd] + u;
      assert b == [] ==> r == [EEnd] + w;
      assert l[1..] == r[1..];
    } else {
      assert l == Flat(a[0]) + (Flats(a[1..]) + ([EEnd] + u));
      assert r == Flat(b[0]) + (Flats(b[1..]) + ([EEnd] + w));
      FlatUnique(a[0], b[0], Flats(a[1..]) + ([EEnd] + u), Flats(b[1..]) + ([EEnd] + w));
      FlatsUnique(a[1..], b[1..], u, w);
      assert a == [a[0]] + a[1..] && b == [b[0]] + b[1..];
    }
  }

  /** A blob holds at most one tree. */
  lemma HoldsUnique(st: bytes, str: bytes, t: Node, u: Node)
    requires Holds(st, str, t) && Holds(st, str, u)
    ensures t == u
  {
    assert Flat(t) + [] == Flat(u) + [];
    FlatUnique(t, u, [], []);
  }

  // ---- where in the tree

  /** A tree with a hole where one child may stand. */
  datatype Hole = Top | In(up: Hole, name: bytes, props: seq<Property>, left: seq<Node>, right: seq<Node>)

  /** The tree with the nodes ns in the hole. */
  function Fill(z: Hole, ns: seq<Node>): Node
    requires z.In?
  {
    var n := Node(z.name, z.props, z.left + ns + z.right);
    if z.up.Top? then n else Fill(z.up, [n])
  }

  function Plug(z: Hole, n: Node): Node {
    if z.Top? then n else Fill(z, [n])
  }

  function Before(z: Hole): seq<Event> {
    if z.Top? then [] else Before(z.up) + [EBegin(z.name)] + PropEvents(z.props) + Flats(z.left)
  }

  function Behind(z: Hole): seq<Event> {
    if z.Top? then [] else Flats(z.right) + [EEnd] + Behind(z.up)
  }

  lemma Regroup<T>(x: seq<T>, b: seq<T>, p: seq<T>, l: seq<T>, m: seq<T>, r: seq<T>, e: seq<T>, y: seq<T>)
    ensures x + (b + p + (l + m + r) + e) + y == (x + b + p + l) + m + (r + e + y)
  {
  }

  lemma {:induction false} FlatFill(z: Hole, ns: seq<Node>)
    requires z.In?
    ensures Flat(Fill(z, ns)) == Before(z) + Flats(ns) + Behind(z)
  {
    var n := Node(z.name, z.props, z.left + ns + z.right);
    FlatsAppend(z.left + ns, z.right);
    FlatsAppend(z.left, ns);
    Regroup(Before(z.up), [EBegin(z.name)], PropEvents(z.props), Flats(z.left), Flats(ns), Flats(z.right), [EEnd], Behind(z.up));
    if z.up.In? {
      FlatFill(z.up, [n]);
      FlatsOne(n);
    } else {
      assert [] + Flat(n) + [] == Flat(n);
    }
  }

  lemma FlatsOne(n: Node)
    ensures Flats([n]) == Flat(n)
  {
    assert Flats([n]) == Flat(n) + Flats([n][1..]);
  }

  lemma FlatPlug(z: Hole, n: Node)
    ensures Flat(Plug(z, n)) == Before(z) + Flat(n) + Behind(z)
  {
    if z.In? {
      FlatFill(z, [n]);
      FlatsOne(n);
    }
  }

  /** Every begin event of a tree is the first event of a subtree of it. */
  lemma {:induction false} Locate(up: Hole, n: Node, k: nat) returns (z: Hole, m: Node)
    requires k < |Flat(n)| && Flat(n)[k].EBegin?
    ensures Plug(z, m) == Plug(up, n) && |Before(z)| == |Before(up)| + k
    decreases n, 1
  {
    if k == 0 {
      z, m := up, n;
    } else {
      var f := Flat(n);
      var p := |PropEvents(n.props)|;
      PropEventsAre(n.props);
      assert f[|f| - 1] == EEnd;
      assert f[k] == Flats(n.kids)[k - 1 - p];
      z, m := LocateKids(up, n.name, n.props, [], n.kids, k - 1 - p);
      assert [] + n.kids == n.kids;
    }
  }

  lemma {:induction false} LocateKids(up: Hole, name: bytes, props: seq<Property>, left: seq<Node>, right: seq<Node>, k: nat)
    returns (z: Hole, m: Node)
    requires k < |Flats(right)| && Flats(right)[k].EBegin?
    ensures Plug(z, m) == Plug(up, Node(name, props, left + right))
    ensures |Before(z)| == |Before(up)| + 1 + |PropEvents(props)| + |Flats(left)| + k
    decreases right, 0
  {
    var n := right[0];
    if k < |Flat(n)| {
      var h := In(up, name, props, left, right[1..]);
      z, m := Locate(h, n, k);
      assert left + [n] + right[1..] == left + right;
    } else {
      z, m := LocateKids(up, name, props, left + [n], right[1..], k - |Flat(n)|);
      assert left + [n] + right[1..] == left + right;
      FlatsAppend(left, [n]);
      FlatsOne(n);
    }
  }

  lemma {:induction false} PropEventsAre(ps: seq<Property>)
    ensures |PropEvents(ps)| == |ps| && forall i | 0 <= i < |ps| :: PropEvents(ps)[i] == EProp(ps[i])
  {
    if ps != [] {
      PropEventsAre(ps[1..]);
    }
  }

  // ---- nesting depth

  function Delta(e: Event): int {
    match e
    case EBegin(_) => 1
    case EProp(_) => 0
    case EEnd => -1
  }

  function Depth(es: seq<Event>): int {
    if es == [] then 0 else Delta(es[0]) + Depth(es[1..])
  }

  lemma {:induction false} DepthAppend(a: seq<Event>, b: seq<Event>)
    ensures Depth(a + b) == Depth(a) + Depth(b)
  {
    if a == [] {
      assert a + b == b;
    } else {
      assert (a + b)[1..] == a[1..] + b;
      DepthAppend(a[1..], b);
    }
  }

  lemma {:induction false} PropDepth(ps: seq<Property>, j: nat)
    requires j <= |PropEvents(ps)|
    ensures Depth(PropEvents(ps)[..j]) == 0
  {
    if j > 0 {
      assert PropEvents(ps)[..j] == [EProp(ps[0])] + PropEvents(ps[1..])[..j - 1];
      assert PropEvents(ps)[..j][1..] == PropEvents(ps[1..])[..j - 1];
      PropDepth(ps[1..], j - 1);
    }
  }

  /** Inside the flat form of a node the depth is positive, at its end it is zero. */
  lemma {:induction false} FlatDepth(n: Node, j: nat)
    requires j <= |Flat(n)|
    ensures j < |Flat(n)| ==> Depth(Flat(n)[..j]) >= (if j == 0 then 0 else 1)
    ensures j == |Flat(n)| ==> Depth(Flat(n)[..j]) == 0
    decreases n, 1
  {
    var b, p, k := [EBegin(n.name)], PropEvents(n.props), Flats(n.kids);
    if 0 < j {
      if j <= 1 + |p| {
        assert Flat(n)[..j] == b + p[..j - 1];
        DepthAppend(b, p[..j - 1]);
        PropDepth(n.props, j - 1);
      } else {
        var i := if j < |Flat(n)| then j - 1 - |p| else |k|;
        FlatsDepth(n.kids, i);
        PropDepth(n.props, |p|);
        assert p[..|p|] == p && k[..|k|] == k;
        DepthAppend(b, p);
        DepthAppend(b + p, k[..i]);
        if j < |Flat(n)| {
          assert Flat(n)[..j] == b + p + k[..i];
        } else {
          assert Flat(n)[..j] == b + p + k + [EEnd];
          DepthAppend(b + p + k, [EEnd]);
        }
      }
    }
  }

  lemma {:induction false} FlatsDepth(ns: seq<Node>, j: nat)
    requires j <= |Flats(ns)|
    ensures Depth(Flats(ns)[..j]) >= 0
    ensures j == |Flats(ns)| ==> Depth(Flats(ns)[..j]) == 0
    decreases ns, 0
  {
    if ns != [] {
      var f, r := Flat(ns[0]), Flats(ns[1..]);
      if j <= |f| {
        assert Flats(ns)[..j] == f[..j];
        FlatDepth(ns[0], j);
      } else {
        assert Flats(ns)[..j] == f + r[..j - |f|];
      }
      if |f| <= j {
        FlatDepth(ns[0], |f|);
        assert f[..|f|] == f;
        FlatsDepth(ns[1..], j - |f|);
        DepthAppend(f, r[..j - |f|]);
        assert Flats(ns)[..j] == f + r[..j - |f|];
      }
    }
  }
}
