/** muldiv64 (core/stdlib.c) and the conversion between clock ticks and nanoseconds
    (include/minos/time.h). */
module MulDiv {
  import opened Prelude

  const SECOND: nat := 1_000_000_000

  /** The two partial products: low half and high half of a times b, with the carry. */
  function Rl(a: nat, b: nat): nat {
    a % TWO32 * b
  }

  function Rh(a: nat, b: nat): nat {
    a / TWO32 * b + Rl(a, b) / TWO32
  }

  /** The dividend of the low word. */
  function Rest(a: nat, b: nat, c: nat): nat
    requires c > 0
  {
    Rh(a, b) % c * TWO32 + Rl(a, b) % TWO32
  }

  /** The two 64-bit quotients. */
  function QuotHigh(a: nat, b: nat, c: nat): nat
    requires c > 0
  {
    Rh(a, b) / c
  }

  function QuotLow(a: nat, b: nat, c: nat): nat
    requires c > 0
  {
    Rest(a, b, c) / c
  }

  /** The result of the source: two 32-bit words, each stored from a 64-bit quotient. */
  function MulDiv64(a: nat, b: nat, c: nat): nat
    requires c > 0
  {
    QuotHigh(a, b, c) % TWO32 * TWO32 + QuotLow(a, b, c) % TWO32
  }

  lemma DivUnique(n: nat, c: nat, q: nat, r: nat)
    requires r < c && n == q * c + r
    ensures n / c == q && n % c == r
  {
    var d := n / c;
    assert n == d * c + n % c;
    MulMono(d + 1, q, c);
    MulMono(q + 1, d, c);
    assert (d + 1) * c == d * c + c && (q + 1) * c == q * c + c;
  }

  lemma ProductBound(x: nat, b: nat)
    requires x < TWO32 && b < TWO32
    ensures x * b <= (TWO32 - 1) * (TWO32 - 1)
  {
    MulMono(x, TWO32 - 1, b);
    MulMono(b, TWO32 - 1, TWO32 - 1);
  }

  lemma DivBound(x: nat, c: nat, k: nat)
    requires c > 0 && x < k * c
    ensures x / c < k
  {
    assert x == x / c * c + x % c;
    MulMono(k, x / c, c);
  }

  lemma DivMod(x: nat, c: nat)
    requires c > 0
    ensures x == x / c * c + x % c && x % c < c
  {
  }

  lemma ProductsFit(a: nat, b: nat)
    requires a < TWO64 && b < TWO32
    ensures Rl(a, b) < TWO64 && Rh(a, b) < TWO64
  {
    ProductBound(a % TWO32, b);
    ProductBound(a / TWO32, b);
  }

  lemma RestFits(a: nat, b: nat, c: nat)
    requires c > 0
    ensures Rest(a, b, c) < c * TWO32 && QuotLow(a, b, c) < TWO32
  {
    DivMod(Rh(a, b), c);
    DivBound(Rest(a, b, c), c, TWO32);
  }

  /** No intermediate value needs more than 64 bits, and the low quotient fits in its word. */
  lemma NoOverflow(a: nat, b: nat, c: nat)
    requires a < TWO64 && b < TWO32 && 0 < c < TWO32
    ensures Rl(a, b) < TWO64 && Rh(a, b) < TWO64 && Rest(a, b, c) < TWO64 && QuotLow(a, b, c) < TWO32
  {
    ProductsFit(a, b);
    RestFits(a, b, c);
  }

  lemma LongDivision(n: nat, c: nat, rh: nat, low: nat, q: nat, m: nat, d: nat, r: nat)
    requires n == rh * TWO32 + low && rh == q * c + m && m * TWO32 + low == d * c + r && r < c
    ensures n / c == q * TWO32 + d
  {
    Regroup(q, c, m, low, d, r);
    DivUnique(n, c, q * TWO32 + d, r);
  }

  /** The quotient, before it is cut to 64 bits. */
  lemma Quotient(a: nat, b: nat, c: nat)
    requires c > 0
    ensures a * b / c == QuotHigh(a, b, c) * TWO32 + QuotLow(a, b, c)
  {
    Halves(a / TWO32, a % TWO32, b);
    MulMono(0, a, b);
    DivMod(Rh(a, b), c);
    DivMod(Rest(a, b, c), c);
    LongDivision(a * b, c, Rh(a, b), Rl(a, b) % TWO32, QuotHigh(a, b, c), Rh(a, b) % c, QuotLow(a, b, c), Rest(a, b, c) % c);
  }

  lemma Halves(h: nat, l: nat, b: nat)
    ensures (h * TWO32 + l) * b == (h * b + l * b / TWO32) * TWO32 + l * b % TWO32
  {
    assert (h * TWO32 + l) * b == h * b * TWO32 + l * b;
  }

  lemma Regroup(q: nat, c: nat, m: nat, low: nat, d: nat, r: nat)
    requires m * TWO32 + low == d * c + r
    ensures (q * c + m) * TWO32 + low == (q * TWO32 + d) * c + r
  {
    assert (q * TWO32 + d) * c == q * c * TWO32 + d * c;
  }

  /** muldiv64 is the exact quotient modulo 2^64. */
  lemma MulDivExact(a: nat, b: nat, c: nat)
    requires a < TWO64 && b < TWO32 && 0 < c < TWO32
    ensures MulDiv64(a, b, c) == a * b / c % TWO64
  {
    NoOverflow(a, b, c);
    Quotient(a, b, c);
    Truncate(QuotHigh(a, b, c), QuotLow(a, b, c));
  }

  lemma Truncate(q: nat, low: nat)
    requires low < TWO32
    ensures (q * TWO32 + low) % TWO64 == q % TWO32 * TWO32 + low
  {
  }

  // ---- ticks and nanoseconds

  /** f is the clock frequency, 1000 * cpu_khz. */
  function TicksToNs(t: nat, f: nat): nat
    requires f > 0
  {
    MulDiv64(t, SECOND, f)
  }

  function NsToTicks(ns: nat, f: nat): nat {
    MulDiv64(ns, f, SECOND)
  }

  lemma DivMono(m: nat, n: nat, c: nat)
    requires m <= n && c > 0
    ensures m / c <= n / c
  {
    assert m == m / c * c + m % c && n == n / c * c + n % c;
    MulMono(n / c + 1, m / c, c);
    assert (n / c + 1) * c == n / c * c + c;
  }

  lemma SmallQuotient(n: nat, c: nat)
    requires c > 0 && n / c < TWO64
    ensures n / c % TWO64 == n / c
  {
  }

  lemma MulDivFits(a: nat, b: nat, c: nat)
    requires a < TWO64 && b < TWO32 && 0 < c < TWO32 && a * b / c < TWO64
    ensures MulDiv64(a, b, c) == a * b / c
  {
    MulDivExact(a, b, c);
    MulMono(0, a, b);
    SmallQuotient(a * b, c);
  }

  lemma NsIs(t: nat, f: nat)
    requires t < TWO64 && 0 < f < TWO32 && t * SECOND / f < TWO64
    ensures TicksToNs(t, f) == t * SECOND / f
  {
    MulDivFits(t, SECOND, f);
  }

  lemma TicksAre(ns: nat, f: nat)
    requires ns < TWO64 && f < TWO32 && ns * f / SECOND < TWO64
    ensures NsToTicks(ns, f) == ns * f / SECOND
  {
    MulDivFits(ns, f, SECOND);
  }

  /** Later ticks are later nanoseconds, as long as the result fits. */
  lemma Monotone(s: nat, t: nat, f: nat)
    requires s <= t < TWO64 && 0 < f < TWO32 && t * SECOND / f < TWO64
    ensures TicksToNs(s, f) <= TicksToNs(t, f)
  {
    DivMono(s * SECOND, t * SECOND, f);
    NsIs(s, f);
    NsIs(t, f);
  }

  lemma MonotoneTicks(m: nat, n: nat, f: nat)
    requires m <= n < TWO64 && f < TWO32 && n * f / SECOND < TWO64
    ensures NsToTicks(m, f) <= NsToTicks(n, f)
  {
    MulMono(m, n, f);
    DivMono(m * f, n * f, SECOND);
    TicksAre(m, f);
    TicksAre(n, f);
  }

  lemma ThereAndBack(t: nat, f: nat)
    requires 0 < f <= SECOND
    ensures t - 1 <= t * SECOND / f * f / SECOND <= t
  {
    var n := t * SECOND;
    var p := n / f * f;
    assert n == p + n % f;
    assert n - SECOND < p <= n;
  }

  /** To nanoseconds and back loses at most one tick when the clock is at most 1 GHz. */
  lemma RoundTrip(t: nat, f: nat)
    requires t < TWO64 && 0 < f <= SECOND && t * SECOND / f < TWO64
    ensures t - 1 <= NsToTicks(TicksToNs(t, f), f) <= t
  {
    NsIs(t, f);
    ThereAndBack(t, f);
    TicksAre(t * SECOND / f, f);
  }
}
