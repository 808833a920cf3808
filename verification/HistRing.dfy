/** The history ring of the shell (apps/esh/esh_hist.c) against an unbounded list of strings. */
module HistRing {
  import opened Prelude

  const LEN: nat := 4096  // ESH_HIST_LEN

  const FILL: byte := 0xff

  /** The bytes written since the last reset: a NUL, then every string with its NUL. The entries
      are given newest first. */
  function Stream(es: seq<bytes>): (r: bytes)
    ensures r != [] && r[|r| - 1] == 0
  {
    if es == [] then [0] else Stream(es[1..]) + es[0] + [0]
  }

  ghost predicate Strings(es: seq<bytes>) {
    forall i | 0 <= i < |es| :: NoNul(es[i])
  }

  /** The byte d places before the end of the stream; the buffer was filled with FILL before. */
  function Back(s: bytes, d: nat): byte {
    if d < |s| then s[|s| - 1 - d] else FILL
  }

  /** The newest n + 1 strings with their terminators. */
  function Span(es: seq<bytes>, n: nat): nat
    requires n < |es|
    decreases n
  {
    |es[0]| + 1 + if n == 0 then 0 else Span(es[1..], n - 1)
  }

  // ---- the backward search on the stream

  /** The place of the NUL before the n-th string back, looked for from d to limit. */
  function Scan(s: bytes, d: nat, n: nat, limit: int): (r: Option<nat>)
    ensures r.Some? ==> d <= r.value <= limit
    decreases limit - d
  {
    if d > limit then None
    else if Back(s, d) == 0 then (if n == 0 then Some(d) else Scan(s, d + 1, n - 1, limit))
    else Scan(s, d + 1, n, limit)
  }

  lemma ScanStep(s: bytes, d: nat, n: nat, limit: int)
    requires d <= limit
    ensures Scan(s, d, n, limit) ==
              if Back(s, d) == 0 && n == 0 then Some(d) else Scan(s, d + 1, if Back(s, d) == 0 then n - 1 else n, limit)
  {
  }

  /** Bytes without a NUL are passed over. */
  lemma {:induction false} ScanOver(s: bytes, t: bytes, d: nat, n: nat, limit: int)
    requires NoNul(t) && 1 <= d <= |t| + 1
    ensures Scan(s + t + [0], d, n, limit) == Scan(s + t + [0], |t| + 1, n, limit)
    decreases |t| + 1 - d
  {
    if d <= |t| && d <= limit {
      assert Back(s + t + [0], d) == t[|t| - d];
      ScanOver(s, t, d + 1, n, limit);
    }
  }

  /** Behind the newest string the search goes on as in the older stream. */
  lemma {:induction false} ScanOlder(s: bytes, t: bytes, d: nat, n: nat, limit: int)
    ensures
      var r := Scan(s, d, n, limit - (|t| + 1));
      Scan(s + t + [0], |t| + 1 + d, n, limit) == if r.None? then None else Some(r.value + |t| + 1)
    decreases limit - d
  {
    if |t| + 1 + d <= limit {
      var w := s + t + [0];
      assert Back(w, |t| + 1 + d) == Back(s, d);
      ScanOlder(s, t, d + 1, if Back(s, d) == 0 && n > 0 then n - 1 else n, limit);
    }
  }

  lemma {:induction false} ScanNothing(d: nat, n: nat, limit: int)
    requires d >= 1
    ensures Scan([0], d, n, limit) == None
    decreases limit - d
  {
    if d <= limit {
      ScanNothing(d + 1, n, limit);
    }
  }

  /** The search finds entry n exactly when it is in the list and lies within the limit. */
  lemma {:induction false} ScanFinds(es: seq<bytes>, n: nat, limit: int)
    requires Strings(es)
    ensures Scan(Stream(es), 1, n, limit) == if n < |es| && Span(es, n) <= limit then Some(Span(es, n)) else None
    decreases |es|
  {
    if es == [] {
      ScanNothing(1, n, limit);
    } else {
      var s, t := Stream(es[1..]), es[0];
      ScanOver(s, t, 1, n, limit);
      assert Back(s + t + [0], |t| + 1) == 0;
      if n > 0 {
        ScanOlder(s, t, 1, n - 1, limit);
        ScanFinds(es[1..], n - 1, limit - (|t| + 1));
      }
    }
  }

  /** The bytes of entry n lie behind that NUL. */
  lemma {:induction false} EntryAt(es: seq<bytes>, n: nat, k: nat)
    requires Strings(es) && n < |es| && k <= |es[n]|
    ensures Span(es, n) > |es[n]| && Span(es, n) - 1 - k < |Stream(es)|
    ensures Back(Stream(es), Span(es, n) - 1 - k) == if k < |es[n]| then es[n][k] else 0
    decreases n
  {
    var s, t := Stream(es[1..]), es[0];
    if n > 0 {
      EntryAt(es[1..], n - 1, k);
      var d := Span(es[1..], n - 1) - 1 - k;
      assert Back(s + t + [0], |t| + 1 + d) == Back(s, d);
    }
  }

  // ---- the ring

  /** The place d before the tail. */
  function Before(tail: nat, d: nat): (i: nat)
    requires tail < LEN && d < LEN
    ensures i < LEN
  {
    if d <= tail then tail - d else tail + LEN - d
  }

  /** modulo(i - 1, ESH_HIST_LEN) and (i + 1) % ESH_HIST_LEN go one place back and forth. */
  lemma Neighbours(tail: nat, d: nat)
    requires tail < LEN && 0 < d < LEN
    ensures (Before(tail, d) + 1) % LEN == Before(tail, d - 1)
    ensures d + 1 < LEN ==> (Before(tail, d) - 1) % LEN == Before(tail, d + 1)
    ensures Before(tail, d) == (tail + 1) % LEN <==> d == LEN - 1
  {
  }

  /** The buffer holds the last LEN bytes of the stream, the last one at the tail. */
  ghost predicate Holds(buf: seq<byte>, tail: nat, s: bytes) {
    && |buf| == LEN && tail < LEN
    && forall d | 0 <= d < LEN :: buf[Before(tail, d)] == Back(s, d)
  }

  class Hist {
    const buf: array<byte>
    var tail: nat
    /** The strings added since the last reset, newest first. */
    ghost var entries: seq<bytes>

    ghost predicate Valid()
      reads this, buf
    {
      Strings(entries) && Holds(buf[..], tail, Stream(entries))
    }

    constructor ()
      ensures Valid() && fresh(buf) && entries == []
    {
      buf := new byte[LEN](i => FILL);
      tail, entries := 0, [];
      new;
      buf[0] := 0;
      FreshRing(buf[..]);
    }

    /** init_buffer, with the tail set to 0 */
    method Reset()
      requires buf.Length == LEN
      modifies this, buf
      ensures Valid() && entries == []
    {
      forall i | 0 <= i < LEN {
        buf[i] := FILL;
      }
      buf[0] := 0;
      tail, entries := 0, [];
      FreshRing(buf[..]);
    }

    /** esh_hist_add: the string becomes the newest entry; one that does not fit empties the
        history. */
    method Add(s: bytes) returns (wrapped: bool)
      requires Valid() && NoNul(s)
      modifies this, buf
      ensures Valid() && (wrapped <==> |s| + 1 > LEN - 2)
      ensures entries == if wrapped then [] else [s] + old(entries)
    {
      var i, k, done := (tail + 1) % LEN, 0, false;
      wrapped := false;
      while !wrapped && !done
        invariant k <= |s| + 1 && k <= LEN - 2 && tail == old(tail) < LEN && entries == old(entries)
        invariant i == Forward(tail, if done then k else k + 1) && (done <==> k == |s| + 1)
        invariant wrapped ==> k == LEN - 2 && k <= |s|
        invariant Written(old(buf[..]), buf[..], tail, s + [0], k)
        decreases |s| + 1 - k, !wrapped
      {
        if i == (tail - 1) % LEN {
          wrapped := true;
        } else {
          buf[i] := if k < |s| then s[k] else 0;
          k := k + 1;
          if k == |s| + 1 {
            done := true;
          } else {
            i := (i + 1) % LEN;
          }
        }
      }
      if wrapped {
        Reset();
      } else {
        AddHolds(old(buf[..]), buf[..], tail, Stream(entries), s + [0]);
        tail, entries := i, [s] + entries;
        assert entries[1..] == old(entries);
        assert Stream(entries) == Stream(old(entries)) + (s + [0]);
      }
    }

    /** esh_hist_nth */
    method Nth(n: nat) returns (r: int)
      requires Valid()
      ensures r == if n < |entries| && Span(entries, n) <= LEN - 2 then Before(tail, Span(entries, n) - 1) else -1
    {
      ScanFinds(entries, n, LEN - 2);
      ghost var s, d := Stream(entries), 1;
      ghost var found := Scan(s, 1, n, LEN - 2);
      var start, stop := (tail - 1) % LEN, (tail + 1) % LEN;
      var i, m := start, n;
      r := -1;
      Neighbours(tail, 1);
      while i != stop && r == -1
        invariant 1 <= d <= LEN - 1 && i == Before(tail, d)
        invariant if r == -1 then found == Scan(s, d, m, LEN - 2) else found == Some(d) && r == Before(tail, d - 1)
        decreases LEN - d, r == -1
      {
        Neighbours(tail, d);
        HoldsAt(buf[..], tail, s, d);
        ScanStep(s, d, m, LEN - 2);
        if buf[i] == 0 && m == 0 {
          r := (i + 1) % LEN;
        } else {
          if buf[i] == 0 {
            m := m - 1;
          }
          i, d := (i - 1) % LEN, d + 1;
        }
      }
      Neighbours(tail, d);
    }

    /** for_each_char with a callback that collects: the string at an offset. */
    method ReadAt(offset: nat, ghost n: nat) returns (t: bytes)
      requires Valid() && n < |entries| && Span(entries, n) <= LEN - 2 && offset == Before(tail, Span(entries, n) - 1)
      ensures t == entries[n]
    {
      t := [];
      var i := offset;
      ghost var e, d := entries[n], Span(entries, n) - 1;
      CharAt(buf[..], tail, entries, n, d, 0, i);
      while buf[i] != 0 && i != (offset - 1) % LEN
        invariant 0 <= i < LEN && |t| <= |e| <= d && t == e[..|t|] && IsAt(buf[..], e, |t|, i)
        invariant i == Before(tail, d - |t|) && i != (offset - 1) % LEN
        decreases |e| - |t|
      {
        Neighbours(tail, d - |t|);
        t := t + [buf[i]];
        i := (i + 1) % LEN;
        CharAt(buf[..], tail, entries, n, d, |t|, i);
      }
    }
  }

  /** Place i holds byte k of the string e, or its NUL. */
  ghost predicate IsAt(buf: seq<byte>, e: bytes, k: nat, i: nat) {
    i < |buf| && buf[i] == if k < |e| then e[k] else 0
  }

  lemma CharAt(buf: seq<byte>, tail: nat, es: seq<bytes>, n: nat, d: nat, k: nat, i: nat)
    requires Strings(es) && Holds(buf, tail, Stream(es)) && n < |es| && Span(es, n) == d + 1 <= LEN - 2 && k <= |es[n]|
    requires k <= d && i == Before(tail, d - k)
    ensures d >= |es[n]| && IsAt(buf, es[n], k, i) && i != (Before(tail, d) - 1) % LEN
  {
    EntryAt(es, n, k);
    HoldsAt(buf, tail, Stream(es), d - k);
    NotAround(tail, d, k);
  }

  /** The place j behind the tail. */
  function Forward(tail: nat, j: nat): (i: nat)
    requires tail < LEN && j < LEN
    ensures i < LEN
  {
    if tail + j < LEN then tail + j else tail + j - LEN
  }

  /** The first k bytes of t have been written behind the tail. */
  ghost predicate Written(m: seq<byte>, w: seq<byte>, tail: nat, t: bytes, k: nat) {
    && |m| == |w| == LEN && tail < LEN && k <= |t| && k < LEN
    && forall j | 0 <= j < LEN :: w[Forward(tail, j)] == if 1 <= j <= k then t[j - 1] else m[Forward(tail, j)]
  }

  lemma AddHolds(m: seq<byte>, w: seq<byte>, tail: nat, s: bytes, t: bytes)
    requires Holds(m, tail, s) && |t| < LEN && Written(m, w, tail, t, |t|)
    ensures Holds(w, Forward(tail, |t|), s + t)
  {
    var tail' := Forward(tail, |t|);
    forall d | 0 <= d < LEN ensures w[Before(tail', d)] == Back(s + t, d) {
      if d < |t| {
        assert Before(tail', d) == Forward(tail, |t| - d);
      } else {
        var e := d - |t|;
        assert Before(tail', d) == Before(tail, e);
        assert Before(tail, e) == Forward(tail, if e == 0 then 0 else LEN - e);
        HoldsAt(m, tail, s, e);
      }
    }
  }

  lemma HoldsAt(buf: seq<byte>, tail: nat, s: bytes, d: nat)
    requires Holds(buf, tail, s) && d < LEN
    ensures buf[Before(tail, d)] == Back(s, d)
  {
  }

  /** The walk from d places back towards the tail does not come round. */
  lemma NotAround(tail: nat, d: nat, k: nat)
    requires tail < LEN && k <= d < LEN - 1
    ensures Before(tail, d - k) != (Before(tail, d) - 1) % LEN
  {
  }

  lemma FreshRing(buf: seq<byte>)
    requires |buf| == LEN && buf[0] == 0 && forall i | 0 < i < LEN :: buf[i] == FILL
    ensures Holds(buf, 0, Stream([]))
  {
  }
}
