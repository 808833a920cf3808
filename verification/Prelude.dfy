/** Types and facts shared by the modules. */
module Prelude {

  type byte = x: nat | x < 256
  type bytes = seq<byte>

  const TWO32: nat := 0x1_0000_0000
  const TWO64: nat := 0x1_0000_0000_0000_0000

  /** The value of an unsigned 32-bit sum or difference. */
  function Wrap32(x: int): (r: nat)
    ensures r < TWO32
  {
    x % 0x1_0000_0000
  }

  datatype Option<+T> = None | Some(value: T)

  ghost predicate NoNul(s: bytes) {
    forall i | 0 <= i < |s| :: s[i] != 0
  }

  ghost predicate NoDup(l: seq<nat>) {
    forall i, j | 0 <= i < j < |l| :: l[i] != l[j]
  }

  /** The list after the first t has been unlinked. */
  function Without(l: seq<nat>, t: nat): seq<nat> {
    if l == [] then [] else if l[0] == t then l[1..] else [l[0]] + Without(l[1..], t)
  }

  lemma {:induction false} WithoutIs(l: seq<nat>, t: nat)
    requires NoDup(l)
    ensures forall u :: u in Without(l, t) <==> u in l && u != t
    ensures NoDup(Without(l, t)) && NoDup(Without(l, t) + [t])
  {
    if l != [] && l[0] != t {
      var r := Without(l[1..], t);
      WithoutIs(l[1..], t);
      assert l[0] !in r;
      assert Without(l, t) + [t] == [l[0]] + (r + [t]);
    }
  }

  ghost predicate Steps<S, X>(p: (S, X, S) -> bool, ss: seq<S>, xs: seq<X>) {
    |ss| == |xs| + 1 && forall i | 0 <= i < |xs| :: p(ss[i], xs[i], ss[i + 1])
  }

  lemma JoinSteps<S, X>(p: (S, X, S) -> bool, ss: seq<S>, xs: seq<X>, ts: seq<S>, ys: seq<X>)
    requires Steps(p, ss, xs) && Steps(p, ts, ys) && ss[|xs|] == ts[0]
    ensures Steps(p, ss + ts[1..], xs + ys) && (ss + ts[1..])[|xs + ys|] == ts[|ys|]
  {
    var us, zs, n := ss + ts[1..], xs + ys, |xs|;
    forall i | 0 <= i < |zs| ensures p(us[i], zs[i], us[i + 1]) {
      assert if i < n then us[i] == ss[i] && us[i + 1] == ss[i + 1] else us[i] == ts[i - n] && us[i + 1] == ts[i - n + 1];
    }
  }

  lemma MulMono(p: nat, q: nat, c: nat)
    ensures p <= q ==> p * c <= q * c
  {
    if p < q {
      MulMono(p, q - 1, c);
      assert q * c == (q - 1) * c + c;
    }
  }
}
