/** Who waits for whom, as a relation: sets in which everybody waits for somebody of the set, and the
    chains that lead into them. */
module WaitGraph {
  import opened Prelude

  type Rel = (nat, nat) -> bool

  /** Everybody in the set waits for somebody in the set. */
  ghost predicate Closed(r: Rel, w: set<nat>) {
    forall a {:trigger WaitsIn(r, w, a)} | a in w :: WaitsIn(r, w, a)
  }

  ghost predicate WaitsIn(r: Rel, w: set<nat>, a: nat) {
    exists b | b in w :: r(a, b)
  }

  ghost predicate InClosed(r: Rel, a: nat) {
    exists w: set<nat> :: a in w && Closed(r, w)
  }

  ghost predicate Chain(r: Rel, l: seq<nat>) {
    |l| > 0 && forall i | 0 <= i < |l| - 1 :: Linked(r, l, i)
  }

  ghost predicate Linked(r: Rel, l: seq<nat>, i: nat) {
    i + 1 < |l| && r(l[i], l[i + 1])
  }

  /** a waits for nobody. */
  ghost predicate Free(r: Rel, a: nat) {
    forall b: nat :: !r(a, b)
  }

  /** All that wait, and all that are waited for, are in the set. */
  ghost predicate Within(r: Rel, nodes: set<nat>) {
    forall a: nat, b: nat | r(a, b) :: a in nodes && b in nodes
  }

  /** A chain that comes back to itself makes a closed set. */
  lemma BackIsClosed(r: Rel, l: seq<nat>, i: nat, j: nat)
    requires Chain(r, l) && i < j < |l| && l[i] == l[j]
    ensures InClosed(r, l[0])
  {
    var w := set m | 0 <= m < j :: l[m];
    forall a | a in w ensures WaitsIn(r, w, a) {
      var m :| 0 <= m < j && l[m] == a;
      assert Linked(r, l, m);
      var b := if m + 1 < j then l[m + 1] else l[i];
      assert b in w && r(a, b);
    }
    assert l[0] in w && Closed(r, w);
  }

  lemma {:induction false} FewNodes(l: seq<nat>, nodes: set<nat>)
    requires NoDup(l) && forall i | 0 <= i < |l| :: l[i] in nodes
    ensures |l| <= |nodes|
  {
    if l != [] {
      FewNodes(l[1..], nodes - {l[0]});
    }
  }

  lemma ChainNodes(r: Rel, l: seq<nat>, nodes: set<nat>)
    requires Chain(r, l) && Within(r, nodes) && l[0] in nodes
    ensures forall i | 0 <= i < |l| :: l[i] in nodes
  {
    forall i | 0 < i < |l| ensures l[i] in nodes {
      assert Linked(r, l, i - 1);
    }
  }

  lemma Longer(r: Rel, l: seq<nat>, b: nat)
    requires Chain(r, l) && r(l[|l| - 1], b)
    ensures Chain(r, l + [b])
  {
    var n := l + [b];
    forall i | 0 <= i < |n| - 1 ensures Linked(r, n, i) {
      if i < |l| - 1 {
        assert Linked(r, l, i);
      }
    }
  }

  /** Somebody in no closed set waits, through others at most, for somebody that waits for nobody. */
  lemma {:induction false} ChainEnds(r: Rel, l: seq<nat>, nodes: set<nat>) returns (m: seq<nat>)
    requires Chain(r, l) && NoDup(l) && Within(r, nodes) && l[0] in nodes && !InClosed(r, l[0])
    ensures Chain(r, m) && l <= m && NoDup(m) && Free(r, m[|m| - 1])
    ensures forall i | 0 <= i < |m| :: m[i] in nodes
    decreases |nodes| - |l|
  {
    ChainNodes(r, l, nodes);
    FewNodes(l, nodes);
    if Free(r, l[|l| - 1]) {
      m := l;
    } else {
      var b: nat :| r(l[|l| - 1], b);
      var n := l + [b];
      Longer(r, l, b);
      if b in l {
        var i :| 0 <= i < |l| && l[i] == b;
        BackIsClosed(r, n, i, |l|);
      }
      ChainNodes(r, n, nodes);
      FewNodes(n, nodes);
      m := ChainEnds(r, n, nodes);
    }
  }

  lemma ClosedMono(r: Rel, q: Rel, w: set<nat>)
    requires Closed(r, w) && forall a, b | a in w && b in w && r(a, b) :: q(a, b)
    ensures Closed(q, w)
  {
    forall a | a in w ensures WaitsIn(q, w, a) {
      assert WaitsIn(r, w, a);
      var b :| b in w && r(a, b);
      assert q(a, b);
    }
  }

  /** From a member of a closed set there are chains of every length. */
  lemma {:induction false} LongChain(r: Rel, w: set<nat>, a: nat, n: nat) returns (l: seq<nat>)
    requires Closed(r, w) && a in w
    ensures Chain(r, l) && |l| == n + 1 && l[0] == a && forall i | 0 <= i < |l| :: l[i] in w
    decreases n
  {
    if n == 0 {
      l := [a];
    } else {
      var m := LongChain(r, w, a, n - 1);
      assert WaitsIn(r, w, m[n - 1]);
      var b :| b in w && r(m[n - 1], b);
      Longer(r, m, b);
      l := m + [b];
    }
  }

  /** a is in a closed set exactly when a chain from it comes back to itself. */
  lemma ClosedIff(r: Rel, a: nat)
    ensures InClosed(r, a) <==> exists l :: Chain(r, l) && l[0] == a && !NoDup(l)
  {
    if InClosed(r, a) {
      var w: set<nat> :| a in w && Closed(r, w);
      var l := LongChain(r, w, a, |w|);
      if NoDup(l) {
        FewNodes(l, w);
      }
    }
    if l :| Chain(r, l) && l[0] == a && !NoDup(l) {
      var i, j :| 0 <= i < j < |l| && l[i] == l[j];
      BackIsClosed(r, l, i, j);
    }
  }
}
