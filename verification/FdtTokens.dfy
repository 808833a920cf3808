/** The structure block of a flattened device tree (sections 5.4.1 and 5.4.2 of the Devicetree
    Specification v0.4) as a sequence of tokens. The decoder says what fdt_next_tag finds; a
    block is a concatenation of chunks, one token each. */
module FdtTokens {
  import opened Prelude

  const FDT_BEGIN_NODE: nat := 1
  const FDT_END_NODE: nat := 2
  const FDT_PROP: nat := 3
  const FDT_NOP: nat := 4
  const FDT_END: nat := 9

  /** A big-endian 32-bit word. */
  function Be32(b: bytes, o: nat): (w: nat)
    requires o + 4 <= |b|
    ensures w < TWO32
  {
    var b0: int, b1: int, b2: int, b3: int := b[o], b[o + 1], b[o + 2], b[o + 3];
    b0 * 0x100_0000 + b1 * 0x1_0000 + b2 * 0x100 + b3
  }

  function Word(w: nat): bytes
    requires w < TWO32
  {
    [w / 0x100_0000, w / 0x1_0000 % 0x100, w / 0x100 % 0x100, w % 0x100]
  }

  lemma Be32Word(b: bytes, o: nat, w: nat)
    requires w < TWO32 && o + 4 <= |b| && b[o..o + 4] == Word(w)
    ensures Be32(b, o) == w
  {
    assert b[o] == Word(w)[0] && b[o + 1] == Word(w)[1] && b[o + 2] == Word(w)[2] && b[o + 3] == Word(w)[3];
  }

  lemma WordOf(b: bytes, o: nat)
    requires o + 4 <= |b|
    ensures b[o..o + 4] == Word(Be32(b, o))
  {
    Digits(b[o], b[o + 1], b[o + 2], b[o + 3]);
  }

  lemma Digits(b0: byte, b1: byte, b2: byte, b3: byte)
    ensures
      var x0: int, x1: int, x2: int, x3: int := b0, b1, b2, b3;
      Word(x0 * 0x100_0000 + x1 * 0x1_0000 + x2 * 0x100 + x3) == [b0, b1, b2, b3]
  {
    var x0: int, x1: int, x2: int, x3: int := b0, b1, b2, b3;
    var w := x0 * 0x100_0000 + x1 * 0x1_0000 + x2 * 0x100 + x3;
    assert w / 0x100 == x0 * 0x1_0000 + x1 * 0x100 + x2;
    assert w / 0x1_0000 == x0 * 0x100 + x1;
    assert w / 0x100_0000 == x0;
  }

  /** FDT_TAGALIGN */
  function Align4(n: nat): (r: nat)
    ensures n <= r < n + 4 && r % 4 == 0
  {
    (n + 3) / 4 * 4
  }

  /** The string that starts at i, if its terminating NUL is inside b. */
  function StrAt(b: bytes, i: nat): (r: Option<bytes>)
    ensures r.Some? ==> i + |r.value| < |b| && b[i..i + |r.value|] == r.value && b[i + |r.value|] == 0
    ensures r.Some? ==> forall j | 0 <= j < |r.value| :: r.value[j] != 0
    decreases |b| - i
  {
    if i >= |b| then None
    else if b[i] == 0 then Some([])
    else
      match StrAt(b, i + 1)
      case None => None
      case Some(r) => Some([b[i]] + r)
  }

  lemma {:induction false} StrAtIs(b: bytes, i: nat, s: bytes)
    requires NoNul(s) && i + |s| < |b| && b[i..i + |s|] == s && b[i + |s|] == 0
    ensures StrAt(b, i) == Some(s)
    decreases |s|
  {
    if s != [] {
      assert b[i] == s[0];
      assert b[i + 1..i + |s|] == s[1..];
      StrAtIs(b, i + 1, s[1..]);
    }
  }

  lemma StrAtLocal(a: bytes, b: bytes, i: nat, j: nat)
    requires StrAt(a, i).Some? && j + |StrAt(a, i).value| < |b|
    requires b[j..j + |StrAt(a, i).value| + 1] == a[i..i + |StrAt(a, i).value| + 1]
    ensures StrAt(b, j) == StrAt(a, i)
  {
    var s := StrAt(a, i).value;
    assert b[j..j + |s|] == b[j..j + |s| + 1][..|s|];
    assert a[i..i + |s|] == a[i..i + |s| + 1][..|s|];
    assert b[j + |s|] == b[j..j + |s| + 1][|s|] == a[i..i + |s| + 1][|s|];
    StrAtIs(b, j, s);
  }

  // ---- tokens

  datatype Tok = Begin(name: bytes) | Prop(nameoff: nat, val: bytes) | Nop | EndNode | End

  /** The bytes a token takes, padding included. */
  function Len(t: Tok): (n: nat)
    ensures n > 0
  {
    match t
    case Begin(name) => Align4(4 + |name| + 1)
    case Prop(_, val) => Align4(12 + |val|)
    case _ => 4
  }

  function Size(ts: seq<Tok>): nat {
    if ts == [] then 0 else Len(ts[0]) + Size(ts[1..])
  }

  lemma SumAligned(m: nat, n: nat)
    requires m % 4 == 0 && n % 4 == 0
    ensures (m + n) % 4 == 0
  {
  }

  lemma LenAligned(t: Tok)
    ensures Len(t) % 4 == 0
  {
  }

  lemma {:induction false} SizeAligned(ts: seq<Tok>)
    ensures Size(ts) % 4 == 0
  {
    if ts != [] {
      SizeAligned(ts[1..]);
      LenAligned(ts[0]);
      SumAligned(Len(ts[0]), Size(ts[1..]));
    }
  }

  lemma {:induction false} SizeAppend(a: seq<Tok>, b: seq<Tok>)
    ensures Size(a + b) == Size(a) + Size(b)
  {
    if a == [] {
      assert a + b == b;
    } else {
      assert (a + b)[1..] == a[1..] + b;
      SizeAppend(a[1..], b);
    }
  }

  /** The token at the front of a block. */

  function First(b: bytes): Option<Tok> {
    if |b| < 4 then None
    else
      var tag := Be32(b, 0);
      if tag == FDT_BEGIN_NODE then
        match StrAt(b, 4)
        case None => None
        case Some(name) => Some(Begin(name))
      else if tag == FDT_PROP then
        if |b| < 12 || 12 + Be32(b, 4) > |b| then None
        else Some(Prop(Be32(b, 8), b[12..12 + Be32(b, 4)]))
      else if tag == FDT_NOP then Some(Nop)
      else if tag == FDT_END_NODE then Some(EndNode)
      else if tag == FDT_END then Some(End)
      else None
  }

  /** The first token does not depend on what follows it. */
  lemma FirstLocal(a: bytes, b: bytes)
    requires First(a).Some? && Len(First(a).value) <= |a| && Len(First(a).value) <= |b|
    requires b[..Len(First(a).value)] == a[..Len(First(a).value)]
    ensures First(b) == First(a)
  {
    var n := Len(First(a).value);
    assert forall i | 0 <= i < n :: b[i] == b[..n][i] == a[..n][i] == a[i];
    if First(a).value.Begin? {
      var s := StrAt(a, 4).value;
      assert b[4..4 + |s| + 1] == a[4..4 + |s| + 1];
      StrAtLocal(a, b, 4, 4);
    } else if First(a).value.Prop? {
      assert b[12..12 + Be32(a, 4)] == a[12..12 + Be32(a, 4)];
    }
  }

  /** b is exactly one token. */
  ghost predicate IsChunk(b: bytes) {
    First(b).Some? && Len(First(b).value) == |b|
  }

  function TokOf(b: bytes): Tok
    requires First(b).Some?
  {
    First(b).value
  }

  /** All tokens of a block, if it is made of whole tokens. */
  function Decode(b: bytes): Option<seq<Tok>> {
    if b == [] then Some([])
    else
      match First(b)
      case None => None
      case Some(t) =>
        if Len(t) > |b| then None
        else
          match Decode(b[Len(t)..])
          case None => None
          case Some(ts) => Some([t] + ts)
  }

  lemma DecodeStep(b: bytes)
    requires b != [] && Decode(b).Some?
    ensures
      var ts := Decode(b).value;
      ts != [] && First(b) == Some(ts[0]) && Len(ts[0]) <= |b| && Decode(b[Len(ts[0])..]) == Some(ts[1..])
  {
    var t := First(b).value;
    assert ([t] + Decode(b[Len(t)..]).value)[1..] == Decode(b[Len(t)..]).value;
  }

  ghost predicate AllChunks(cs: seq<bytes>) {
    forall i | 0 <= i < |cs| :: IsChunk(cs[i])
  }

  function Toks(cs: seq<bytes>): seq<Tok>
    requires AllChunks(cs)
  {
    seq(|cs|, i requires 0 <= i < |cs| => TokOf(cs[i]))
  }

  function Join(cs: seq<bytes>): bytes {
    if cs == [] then [] else cs[0] + Join(cs[1..])
  }

  lemma {:induction false} JoinAppend(cs: seq<bytes>, ds: seq<bytes>)
    ensures Join(cs + ds) == Join(cs) + Join(ds)
  {
    if cs == [] {
      assert cs + ds == ds;
    } else {
      assert (cs + ds)[1..] == cs[1..] + ds;
      JoinAppend(cs[1..], ds);
    }
  }

  /** The decoder gives back the tokens of the chunks. */
  lemma {:induction false} DecodeJoin(cs: seq<bytes>)
    requires AllChunks(cs)
    ensures Decode(Join(cs)) == Some(Toks(cs))
  {
    if cs != [] {
      var b := Join(cs);
      assert b[..|cs[0]|] == cs[0];
      assert cs[0][..|cs[0]|] == cs[0];
      FirstLocal(cs[0], b);
      assert b[|cs[0]|..] == Join(cs[1..]);
      DecodeJoin(cs[1..]);
      assert Toks(cs) == [TokOf(cs[0])] + Toks(cs[1..]);
    }
  }

  /** The bytes of the first token alone. */
  lemma FirstOf(b: bytes, c: bytes, t: Tok, n: nat)
    requires First(b) == Some(t) && n == Len(t) <= |b| && c == b[..n]
    ensures First(c) == Some(t)
  {
    FirstLocal(b, c);
  }

  lemma ConsBlock(b: bytes, n: nat, c: bytes, r: bytes, rest: seq<bytes>)
    requires n <= |b| && c == b[..n] && r == b[n..] && IsChunk(c) && AllChunks(rest) && Join(rest) == r
    ensures AllChunks([c] + rest) && Join([c] + rest) == b && Toks([c] + rest) == [TokOf(c)] + Toks(rest)
  {
    ConsChunk(c, rest);
    assert b == c + r;
  }

  /** A block that decodes is made of chunks. */
  lemma {:induction false} ChunksOf(b: bytes) returns (cs: seq<bytes>)
    requires Decode(b).Some?
    ensures AllChunks(cs) && Join(cs) == b && Toks(cs) == Decode(b).value
  {
    if b == [] {
      cs := [];
    } else {
      DecodeStep(b);
      var ts := Decode(b).value;
      var n := Len(ts[0]);
      var c, r := b[..n], b[n..];
      FirstOf(b, c, ts[0], n);
      var rest := ChunksOf(r);
      cs := [c] + rest;
      ConsBlock(b, n, c, r, rest);
    }
  }

  lemma ConsChunk(c: bytes, cs: seq<bytes>)
    requires IsChunk(c) && AllChunks(cs)
    ensures
      var ds := [c] + cs;
      AllChunks(ds) && Join(ds) == c + Join(cs) && Toks(ds) == [TokOf(c)] + Toks(cs)
  {
    assert ([c] + cs)[1..] == cs;
  }

  lemma {:induction false} JoinSize(cs: seq<bytes>)
    requires AllChunks(cs)
    ensures |Join(cs)| == Size(Toks(cs))
  {
    if cs != [] {
      JoinSize(cs[1..]);
      assert Toks(cs) == [TokOf(cs[0])] + Toks(cs[1..]);
    }
  }

  /** Every token is where the sizes of the tokens before it say. */
  lemma DecodeFrom(b: bytes, i: nat)
    requires Decode(b).Some? && i <= |Decode(b).value|
    ensures
      var ts := Decode(b).value;
      && Size(ts[..i]) <= |b|
      && Decode(b[..Size(ts[..i])]) == Some(ts[..i])
      && Decode(b[Size(ts[..i])..]) == Some(ts[i..])
  {
    var cs := ChunksOf(b);
    CutChunks(cs, i);
  }

  /** A block of whole tokens is as long as they are, which is a multiple of four. */
  lemma BlockAligned(b: bytes)
    requires Decode(b).Some?
    ensures |b| == Size(Decode(b).value) && |b| % 4 == 0
  {
    var cs := ChunksOf(b);
    JoinSize(cs);
    SizeAligned(Decode(b).value);
  }

  lemma CutChunks(cs: seq<bytes>, i: nat)
    requires AllChunks(cs) && i <= |cs|
    ensures
      var b, ts := Join(cs), Toks(cs);
      && Size(ts[..i]) <= |b|
      && b[..Size(ts[..i])] == Join(cs[..i]) && Decode(Join(cs[..i])) == Some(ts[..i])
      && b[Size(ts[..i])..] == Join(cs[i..]) && Decode(Join(cs[i..])) == Some(ts[i..])
  {
    var a, c := cs[..i], cs[i..];
    assert cs == a + c;
    JoinAppend(a, c);
    ToksSlice(cs, i);
    JoinSize(a);
    DecodeJoin(a);
    DecodeJoin(c);
    CutAt(Join(a), Join(c), Size(Toks(cs)[..i]));
  }

  lemma ToksSlice(cs: seq<bytes>, i: nat)
    requires AllChunks(cs) && i <= |cs|
    ensures Toks(cs[..i]) == Toks(cs)[..i] && Toks(cs[i..]) == Toks(cs)[i..]
  {
  }

  lemma CutAt(a: bytes, b: bytes, n: nat)
    requires n == |a|
    ensures (a + b)[..n] == a && (a + b)[n..] == b
  {
  }
}
