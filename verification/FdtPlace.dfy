/** From a token index to a place in the tree: the tokens of the node that begins there and
    what stands before and behind it. */
module FdtPlace {
  import opened Prelude
  import opened FdtTokens
  import opened FdtTree

  /** The tokens ts are those of the tree t, with Nops, without the final End. */
  ghost predicate Reads(ts: seq<Tok>, str: bytes, t: Node) {
    Events(ts, str) == Some(Flat(t))
  }

  lemma EventsSplit(ts: seq<Tok>, str: bytes, i: nat)
    requires i <= |ts| && Events(ts, str).Some?
    ensures Events(ts[..i], str).Some? && Events(ts[i..], str).Some?
    ensures Events(ts, str).value == Events(ts[..i], str).value + Events(ts[i..], str).value
  {
    assert ts == ts[..i] + ts[i..];
    EventsAppend(ts[..i], ts[i..], str);
  }

  /** Cut the tokens where n events have been read. */
  lemma {:induction false} CutTokens(ts: seq<Tok>, str: bytes, n: nat) returns (e: nat)
    requires Events(ts, str).Some? && n <= |Events(ts, str).value|
    ensures e <= |ts|
    ensures Events(ts[..e], str) == Some(Events(ts, str).value[..n])
    ensures Events(ts[e..], str) == Some(Events(ts, str).value[n..])
    ensures if n == 0 then e == 0 else e > 0 && ts[e - 1] != Nop
  {
    if n == 0 {
      e := 0;
    } else {
      var es := Events(ts, str).value;
      var k := if ts[0] == Nop then n else n - 1;
      var e' := CutTokens(ts[1..], str, k);
      e := e' + 1;
      assert e' > 0 ==> ts[e - 1] == ts[1..][e' - 1];
      assert ts[..e][1..] == ts[1..][..e'];
      assert ts[e..] == ts[1..][e'..];
      assert ts[0] != Nop ==> es[..n] == [es[0]] + es[1..][..n - 1] && es[n..] == es[1..][n - 1..];
    }
  }

  lemma SubSlice<T>(s: seq<T>, i: nat, k: nat, e: nat)
    requires i <= k <= e <= |s|
    ensures s[i..e][..k - i] == s[i..k] && s[i..e][k - i..] == s[k..e]
  {
  }

  function TokDepth(ts: seq<Tok>): int {
    if ts == [] then 0
    else (match ts[0] case Begin(_) => 1 case EndNode => -1 case _ => 0) + TokDepth(ts[1..])
  }

  lemma {:induction false} TokDepthIs(ts: seq<Tok>, str: bytes)
    requires Events(ts, str).Some?
    ensures TokDepth(ts) == Depth(Events(ts, str).value)
  {
    if ts != [] {
      TokDepthIs(ts[1..], str);
      var es, r := Events(ts, str).value, Events(ts[1..], str).value;
      assert ts[0] != Nop ==> es[1..] == r;
    }
  }

  lemma {:induction false} TokDepthNext(ts: seq<Tok>, i: nat, j: nat)
    requires i <= j < |ts|
    ensures TokDepth(ts[i..j + 1]) == TokDepth(ts[i..j]) + TokDepth([ts[j]])
    decreases j - i
  {
    if i < j {
      assert ts[i..j + 1][1..] == ts[i + 1..j + 1] && ts[i..j][1..] == ts[i + 1..j];
      TokDepthNext(ts, i + 1, j);
    } else {
      assert ts[i..j] == [] && ts[i..j + 1] == [ts[j]];
    }
  }

  /** Scan from j with d nodes open inside the node: the index behind its own EndNode. */
  function Close(ts: seq<Tok>, j: nat, d: nat): Option<nat>
    decreases |ts| - j
  {
    if j >= |ts| then None
    else
      match ts[j]
      case Begin(_) => Close(ts, j + 1, d + 1)
      case EndNode => if d == 0 then Some(j + 1) else Close(ts, j + 1, d - 1)
      case End => None
      case _ => Close(ts, j + 1, d)
  }

  lemma {:induction false} CloseFrom(ts: seq<Tok>, i: nat, j: nat, e: nat)
    requires i < j < e <= |ts| && TokDepth(ts[i..e]) == 0
    requires forall k | i < k < e :: TokDepth(ts[i..k]) >= 1
    requires forall k | i < k < e :: ts[k] != End
    ensures Close(ts, j, TokDepth(ts[i..j]) - 1) == Some(e)
    decreases e - j
  {
    TokDepthNext(ts, i, j);
    if j + 1 < e {
      CloseFrom(ts, i, j + 1, e);
    }
  }

  /** The node that begins at token i: n is at hole z of the tree t and its tokens are
      ts[i..e]. */
  ghost predicate At(ts: seq<Tok>, str: bytes, t: Node, i: nat, e: nat, z: Hole, n: Node) {
    && i < e <= |ts| && ts[i] == Begin(n.name) && ts[e - 1] == EndNode
    && t == Plug(z, n)
    && Events(ts[..i], str) == Some(Before(z))
    && Events(ts[i..e], str) == Some(Flat(n))
    && Events(ts[e..], str) == Some(Behind(z))
    && Close(ts, i + 1, 0) == Some(e)
  }

  /** The place of token i, as events. */
  lemma PlaceOf(ts: seq<Tok>, str: bytes, t: Node, i: nat) returns (z: Hole, n: Node)
    requires Reads(ts, str, t) && i < |ts| && ts[i].Begin?
    ensures t == Plug(z, n) && n.name == ts[i].name
    ensures Events(ts[..i], str) == Some(Before(z)) && Events(ts[i..], str) == Some(Flat(n) + Behind(z))
  {
    EventsSplit(ts, str, i);
    var a, b := Events(ts[..i], str).value, Events(ts[i..], str).value;
    assert b[0] == EBegin(ts[i].name);
    assert Flat(t)[|a|] == b[0];
    z, n := Locate(Top, t, |a|);
    FlatPlug(z, n);
    assert a == Flat(t)[..|a|] == Before(z);
    assert b == Flat(t)[|a|..] == Flat(n) + Behind(z);
    assert Flat(n)[0] == b[0];
  }

  lemma NodeAt(ts: seq<Tok>, str: bytes, t: Node, i: nat) returns (e: nat, z: Hole, n: Node)
    requires Reads(ts, str, t) && i < |ts| && ts[i].Begin?
    ensures At(ts, str, t, i, e, z, n)
  {
    z, n := PlaceOf(ts, str, t, i);
    var b := Flat(n) + Behind(z);
    var e' := CutTokens(ts[i..], str, |Flat(n)|);
    e := i + e';
    assert ts[i..][..e'] == ts[i..e] && ts[i..][e'..] == ts[e..];
    assert b[..|Flat(n)|] == Flat(n) && b[|Flat(n)|..] == Behind(z);
    assert ts[e - 1] == ts[i..e][e' - 1];
    LastIsEnd(ts[i..e], str, n);
    CloseIsEnd(ts, str, i, e, n);
  }

  lemma LastIsEnd(ts: seq<Tok>, str: bytes, n: Node)
    requires Events(ts, str) == Some(Flat(n)) && ts != [] && ts[|ts| - 1] != Nop
    ensures ts[|ts| - 1] == EndNode
  {
    var l := |ts| - 1;
    EventsSplit(ts, str, l);
    assert ts[l..] == [ts[l]];
    var es := Events([ts[l]], str).value;
    assert Events([ts[l]][1..], str) == Some([]);
    assert |es| == 1 && Flat(n)[|Flat(n)| - 1] == es[0];
  }

  lemma CloseIsEnd(ts: seq<Tok>, str: bytes, i: nat, e: nat, n: Node)
    requires i + 1 < e <= |ts| && Events(ts[i..e], str) == Some(Flat(n)) && ts[i].Begin? && ts[e - 1] != Nop
    ensures Close(ts, i + 1, 0) == Some(e)
  {
    forall k | i < k <= e ensures TokDepth(ts[i..k]) >= (if k < e then 1 else 0) && (k == e ==> TokDepth(ts[i..k]) == 0) {
      EventsSplit(ts[i..e], str, k - i);
      SubSlice(ts, i, k, e);
      var x, y := Events(ts[i..k], str).value, Events(ts[k..e], str).value;
      assert x == Flat(n)[..|x|];
      TokDepthIs(ts[i..k], str);
      FlatDepth(n, |x|);
      HasFirst(ts[i..k], str);
      if k < e {
        assert ts[k..e][|ts[k..e]| - 1] == ts[e - 1];
        HasLast(ts[k..e], str);
      } else {
        assert ts[k..e] == [];
      }
    }
    assert ts[i..i + 1] == [ts[i]];
    assert TokDepth([ts[i]]) == 1 + TokDepth([ts[i]][1..]);
    NoEnd(ts[i..e], str);
    forall k | i < k < e ensures ts[k] != End {
      assert ts[k] == ts[i..e][k - i];
    }
    CloseFrom(ts, i, i + 1, e);
  }

  lemma {:induction false} NoEnd(ts: seq<Tok>, str: bytes)
    requires Events(ts, str).Some?
    ensures forall k | 0 <= k < |ts| :: ts[k] != End
  {
    if ts != [] {
      NoEnd(ts[1..], str);
      assert forall k | 0 < k < |ts| :: ts[k] == ts[1..][k - 1];
    }
  }

  lemma HasFirst(ts: seq<Tok>, str: bytes)
    requires Events(ts, str).Some? && ts != [] && ts[0] != Nop
    ensures Events(ts, str).value != []
  {
  }

  lemma HasLast(ts: seq<Tok>, str: bytes)
    requires Events(ts, str).Some? && ts != [] && ts[|ts| - 1] != Nop
    ensures Events(ts, str).value != []
  {
    var l := |ts| - 1;
    EventsSplit(ts, str, l);
    assert ts[l..] == [ts[l]];
  }
}
