/**
 * geohash6: six base-32 characters by thirty bisections, alternating longitude and latitude.
 * The loop is proved equal to quantising both coordinates to fifteen bits and interleaving.
 */
module Geohash {

  const BASE32 := "0123456789bcdefghjkmnpqrstuvwxyz"

  function Symbol(d: nat): char
    requires d < 32
  {
    BASE32[d]
  }

  function Pow2(n: nat): (p: nat)
    ensures p >= 1
  {
    if n == 0 then 1 else 2 * Pow2(n - 1)
  }

  /** The alphabet is the digits and the small letters without a, i, l and o, in order. */
  lemma AlphabetIs(d: nat)
    requires d < 32
    ensures |BASE32| == 32
    ensures d < 10 ==> Symbol(d) == '0' + d as char
    ensures 10 <= d < 17 ==> Symbol(d) == 'b' + (d - 10) as char
    ensures 17 <= d < 19 ==> Symbol(d) == 'j' + (d - 17) as char
    ensures 19 <= d < 21 ==> Symbol(d) == 'm' + (d - 19) as char
    ensures 21 <= d < 32 ==> Symbol(d) == 'p' + (d - 21) as char
  {
  }

  // ------------------------------------------------------------- quantisation

  /** The position of x in [lo, hi), measured in cells when there are 2^n of them. */
  function Scaled(x: real, lo: real, hi: real, n: nat): real
    requires lo < hi
  {
    (x - lo) / (hi - lo) * Pow2(n) as real
  }

  /** The cell of x among 2^n equal cells of [lo, hi); values outside belong to the nearest edge cell. */
  function Quantise(x: real, lo: real, hi: real, n: nat): (q: nat)
    requires lo < hi
    ensures q < Pow2(n)
  {
    var cell := Scaled(x, lo, hi, n).Floor;
    if cell < 0 then 0 else if cell >= Pow2(n) then Pow2(n) - 1 else cell
  }

  /** The lower edge of cell m. */
  function Edge(lo: real, hi: real, n: nat, m: nat): real {
    lo + (hi - lo) / Pow2(n) as real * m as real
  }

  lemma ScaledDoubles(x: real, lo: real, hi: real, n: nat)
    requires lo < hi
    ensures Scaled(x, lo, hi, n + 1) == 2.0 * Scaled(x, lo, hi, n)
  {
    var t := (x - lo) / (hi - lo);
    var p := Pow2(n) as real;
    assert Pow2(n + 1) as real == 2.0 * p;
    assert t * (2.0 * p) == 2.0 * (t * p);
  }

  /** One more bit says whether x lies in the upper half of its cell. */
  lemma QuantiseRefines(x: real, lo: real, hi: real, n: nat)
    requires lo < hi
    ensures var q := Quantise(x, lo, hi, n);
      Quantise(x, lo, hi, n + 1) == 2 * q + if Scaled(x, lo, hi, n + 1) >= (2 * q + 1) as real then 1 else 0
  {
    ScaledDoubles(x, lo, hi, n);
  }

  lemma EdgesHalve(lo: real, hi: real, n: nat, m: nat)
    ensures Edge(lo, hi, n + 1, 2 * m) == Edge(lo, hi, n, m)
    ensures Edge(lo, hi, n + 1, 2 * m + 1) == (Edge(lo, hi, n, m) + Edge(lo, hi, n, m + 1)) / 2.0
  {
    var p := Pow2(n) as real;
    var c := (hi - lo) / p;
    HalfQuotient(hi - lo, p);
    var k := m as real;
    assert c / 2.0 * (2.0 * k) == c * k;
    assert c / 2.0 * (2.0 * k + 1.0) == c * k + c / 2.0;
    assert c * (k + 1.0) == c * k + c;
    assert (2 * m) as real == 2.0 * k && (2 * m + 1) as real == 2.0 * k + 1.0 && (m + 1) as real == k + 1.0;
    assert Pow2(n + 1) as real == 2.0 * p;
  }

  lemma HalfQuotient(w: real, p: real)
    requires p > 0.0
    ensures w / (2.0 * p) == w / p / 2.0
  {
    var c := w / p;
    assert c * p == w;
    assert c / 2.0 * (2.0 * p) == w;
  }

  /** Comparing with an edge is comparing the scaled position with the cell number. */
  lemma AboveEdge(x: real, lo: real, hi: real, n: nat, m: nat)
    requires lo < hi
    ensures x >= Edge(lo, hi, n, m) <==> Scaled(x, lo, hi, n) >= m as real
  {
    var w, p, k := hi - lo, Pow2(n) as real, m as real;
    var c, t := w / p, (x - lo) / w;
    assert c * p == w && t * w == x - lo;
    assert c * (t * p) == t * (c * p) == x - lo;
    assert c > 0.0;
    CompareScaled(c, t * p, k);
  }

  lemma CompareScaled(c: real, a: real, b: real)
    requires c > 0.0
    ensures c * a >= c * b <==> a >= b
  {
    if a >= b {
      assert c * (a - b) >= 0.0;
    } else {
      assert c * (b - a) > 0.0;
    }
  }

  /** A value in range lies in its cell; the upper end of the range belongs to the top cell. */
  lemma CellContains(x: real, lo: real, hi: real, n: nat)
    requires lo < hi && lo <= x <= hi
    ensures var q := Quantise(x, lo, hi, n);
      Edge(lo, hi, n, q) <= x && (x < hi ==> x < Edge(lo, hi, n, q + 1)) && (x == hi ==> q == Pow2(n) - 1)
  {
    var q := Quantise(x, lo, hi, n);
    AboveEdge(x, lo, hi, n, 0);
    AboveEdge(x, lo, hi, n, q);
    AboveEdge(x, lo, hi, n, q + 1);
    AboveEdge(x, lo, hi, n, Pow2(n));
    var w, p := hi - lo, Pow2(n) as real;
    assert w / p * p == w;
    assert Edge(lo, hi, n, 0) == lo && Edge(lo, hi, n, Pow2(n)) == hi;
  }

  // ------------------------------------------------------------- interleaving

  /** The first t bits of the interleaving: x has the longitude bits, y the latitude bits, longitude first. */
  function Weave(x: nat, y: nat, t: nat): nat {
    if t == 0 then 0
    else if t % 2 == 1 then 2 * Weave(x / 2, y, t - 1) + x % 2
    else 2 * Weave(x, y / 2, t - 1) + y % 2
  }

  function Unweave(code: nat, t: nat): (nat, nat) {
    if t == 0 then (0, 0) else
      var (x, y) := Unweave(code / 2, t - 1);
      if t % 2 == 1 then (2 * x + code % 2, y) else (x, 2 * y + code % 2)
  }

  lemma {:induction false} UnweaveInvertsWeave(x: nat, y: nat, t: nat)
    requires x < Pow2((t + 1) / 2) && y < Pow2(t / 2)
    ensures Unweave(Weave(x, y, t), t) == (x, y) && Weave(x, y, t) < Pow2(t)
  {
    if t > 0 {
      WeaveStep(x, y, t);
      SmallerCells(x, y, t);
      hide Unweave, Weave, Pow2;
      if t % 2 == 1 {
        UnweaveInvertsWeave(x / 2, y, t - 1);
        WeaveUnwoven(Weave(x / 2, y, t - 1), x % 2, t);
      } else {
        UnweaveInvertsWeave(x, y / 2, t - 1);
        WeaveUnwoven(Weave(x, y / 2, t - 1), y % 2, t);
      }
    }
  }

  lemma SmallerCells(x: nat, y: nat, t: nat)
    requires t > 0 && x < Pow2((t + 1) / 2) && y < Pow2(t / 2)
    ensures t % 2 == 1 ==> x / 2 < Pow2(t / 2) && y < Pow2((t - 1) / 2)
    ensures t % 2 == 0 ==> x < Pow2(t / 2) && y / 2 < Pow2((t - 1) / 2)
  {
    if t % 2 == 1 {
      HalfOfPow2(x, (t + 1) / 2);
    } else {
      HalfOfPow2(y, t / 2);
    }
  }

  lemma WeaveStep(x: nat, y: nat, t: nat)
    requires t > 0
    ensures t % 2 == 1 ==> Weave(x, y, t) == 2 * Weave(x / 2, y, t - 1) + x % 2
    ensures t % 2 == 0 ==> Weave(x, y, t) == 2 * Weave(x, y / 2, t - 1) + y % 2
  {
  }

  lemma HalfOfPow2(x: nat, n: nat)
    requires n > 0 && x < Pow2(n)
    ensures x / 2 < Pow2(n - 1)
  {
  }

  lemma WeaveUnwoven(code: nat, bit: nat, t: nat)
    requires t > 0 && bit < 2 && code < Pow2(t - 1)
    ensures 2 * code + bit < Pow2(t)
    ensures Unweave(2 * code + bit, t) ==
      var (x, y) := Unweave(code, t - 1);
      if t % 2 == 1 then (2 * x + bit, y) else (x, 2 * y + bit)
  {
  }

  /** Bit k of n, counted from the least significant. */
  function Bit(n: nat, k: nat): nat {
    if k == 0 then n % 2 else Bit(n / 2, k - 1)
  }

  /** Bit by bit from the top, the even places of the interleaving are the longitude's bits and
      the odd ones the latitude's. */
  lemma {:induction false} WeaveAlternates(x: nat, y: nat, t: nat, k: nat)
    requires k < t
    ensures Bit(Weave(x, y, t), t - 1 - k) ==
      if k % 2 == 0 then Bit(x, (t + 1) / 2 - 1 - k / 2) else Bit(y, t / 2 - 1 - k / 2)
  {
    if k < t - 1 {
      if t % 2 == 1 {
        WeaveAlternates(x / 2, y, t - 1, k);
        assert Weave(x, y, t) / 2 == Weave(x / 2, y, t - 1);
      } else {
        WeaveAlternates(x, y / 2, t - 1, k);
        assert Weave(x, y, t) / 2 == Weave(x, y / 2, t - 1);
      }
    }
  }

  // ------------------------------------------------------------- base 32

  function Pow32(n: nat): nat {
    if n == 0 then 1 else 32 * Pow32(n - 1)
  }

  /** The n low base-32 digits of a code, most significant first. */
  function Encode(code: nat, n: nat): (s: string)
    ensures |s| == n
  {
    if n == 0 then "" else Encode(code / 32, n - 1) + [Symbol(code % 32)]
  }

  function Digit(c: char, k: nat): (d: nat)
    requires k <= 32
    decreases 32 - k
  {
    if k == 32 then 32 else if Symbol(k) == c then k else Digit(c, k + 1)
  }

  function Decode(s: string): nat {
    if s == "" then 0 else 32 * Decode(s[..|s| - 1]) + Digit(s[|s| - 1], 0)
  }

  lemma {:induction false} AlphabetDistinct(i: nat, j: nat)
    requires i < j < 32
    ensures Symbol(i) < Symbol(j)
  {
    assert forall k :: 0 <= k < 31 ==> Symbol(k) < Symbol(k + 1);
    if i + 1 < j { AlphabetDistinct(i, j - 1); }
  }

  lemma {:induction false} DigitInverts(d: nat, k: nat)
    requires k <= d < 32
    ensures Digit(Symbol(d), k) == d
    decreases 32 - k
  {
    if k < d {
      AlphabetDistinct(k, d);
      DigitInverts(d, k + 1);
    }
  }

  lemma {:induction false} DecodeInvertsEncode(code: nat, n: nat)
    requires code < Pow32(n)
    ensures Decode(Encode(code, n)) == code
  {
    if n > 0 {
      DecodeInvertsEncode(code / 32, n - 1);
      DigitInverts(code % 32, 0);
      var s := Encode(code, n);
      assert s[..n - 1] == Encode(code / 32, n - 1);
    }
  }

  // ------------------------------------------------------------- geohash6

  /** What the six characters stand for. */
  function HashOf(lat: real, lng: real): string {
    Encode(Weave(Quantise(lng, -180.0, 180.0, 15), Quantise(lat, -90.0, 90.0, 15), 30), 6)
  }

  function CellOf(hash: string): (nat, nat) {
    Unweave(Decode(hash), 30)
  }

  lemma ThirtyBits()
    ensures Pow2(30) == Pow32(6)
  {
    assert Pow2(10) == 1024;
    assert Pow2(20) == 1048576;
    assert Pow32(3) == 32768;
  }

  lemma DecodeRecoversCell(lat: real, lng: real)
    ensures CellOf(HashOf(lat, lng)) == (Quantise(lng, -180.0, 180.0, 15), Quantise(lat, -90.0, 90.0, 15))
  {
    hide Quantise, Weave, Unweave, Encode, Decode, Pow2, Pow32;
    var x, y := Quantise(lng, -180.0, 180.0, 15), Quantise(lat, -90.0, 90.0, 15);
    ThirtyBits();
    RoundTrip(x, y, 30, 6);
  }

  lemma RoundTrip(x: nat, y: nat, t: nat, n: nat)
    requires x < Pow2((t + 1) / 2) && y < Pow2(t / 2) && Pow2(t) == Pow32(n)
    ensures Unweave(Decode(Encode(Weave(x, y, t), n)), t) == (x, y)
  {
    UnweaveInvertsWeave(x, y, t);
    DecodeInvertsEncode(Weave(x, y, t), n);
  }

  /** Two points share a hash exactly when they share a cell. */
  lemma SameHashIffSameCell(lat: real, lng: real, lat': real, lng': real)
    ensures HashOf(lat, lng) == HashOf(lat', lng') <==>
      Quantise(lng, -180.0, 180.0, 15) == Quantise(lng', -180.0, 180.0, 15) &&
      Quantise(lat, -90.0, 90.0, 15) == Quantise(lat', -90.0, 90.0, 15)
  {
    DecodeRecoversCell(lat, lng);
    DecodeRecoversCell(lat', lng');
  }

  /** The cell a hash decodes to contains every point in range that hashes to it. */
  lemma DecodedCellContainsPoint(lat: real, lng: real)
    requires -90.0 <= lat <= 90.0 && -180.0 <= lng <= 180.0
    ensures var (x, y) := CellOf(HashOf(lat, lng));
      && Edge(-180.0, 180.0, 15, x) <= lng && (lng < 180.0 ==> lng < Edge(-180.0, 180.0, 15, x + 1))
      && Edge(-90.0, 90.0, 15, y) <= lat && (lat < 90.0 ==> lat < Edge(-90.0, 90.0, 15, y + 1))
  {
    DecodeRecoversCell(lat, lng);
    CellContains(lng, -180.0, 180.0, 15);
    CellContains(lat, -90.0, 90.0, 15);
  }

  /** One bisection: halves the interval of v and shifts the outcome into the open character. */
  method Bisect(v: real, min: real, max: real, ch: nat, ghost lo: real, ghost hi: real, ghost n: nat, ghost q: nat)
    returns (min': real, max': real, ch': nat, ghost bit: nat)
    requires lo < hi && Bisected(v, lo, hi, n, q, min, max)
    ensures bit < 2 && ch' == 2 * ch + bit && Bisected(v, lo, hi, n + 1, 2 * q + bit, min', max')
  {
    hide Bisected;
    BisectionStep(v, lo, hi, n, q, min, max);
    var mid := (min + max) / 2.0;
    if v >= mid {
      min', max', ch', bit := mid, max, 2 * ch + 1, 1;
    } else {
      min', max', ch', bit := min, mid, 2 * ch, 0;
    }
  }

  /** The bisection loop. It yields the interleaved fifteen-bit cells of the point, for every
      latitude and longitude, in range or not. */
  method Geohash6(lat: real, lng: real) returns (hash: string)
    ensures hash == HashOf(lat, lng)
  {
    hide HashOf, Bisected, Woven, Symbol;
    hash := "";
    var latMin, latMax := -90.0, 90.0;
    var lngMin, lngMax := -180.0, 180.0;
    var isEven := true;
    var bits: nat, ch: nat := 0, 0;
    ghost var n: nat, m: nat, x: nat, y: nat, done: nat := 0, 0, 0, 0, 0;
    BisectionStarts(lng, -180.0, 180.0);
    BisectionStarts(lat, -90.0, 90.0);
    NothingWoven();
    while |hash| < 6
      invariant |hash| <= 6 && 0 <= bits < 5 && (bits == 0 ==> ch == 0) && (|hash| == 6 ==> bits == 0)
      invariant n + m == 5 * |hash| + bits && n == if isEven then m else m + 1
      invariant Bisected(lng, -180.0, 180.0, n, x, lngMin, lngMax)
      invariant Bisected(lat, -90.0, 90.0, m, y, latMin, latMax)
      invariant Woven(x, y, n, m, done, bits, ch, hash)
      decreases 6 - |hash|, 5 - bits
    {
      ghost var bit: nat, open := 0, ch;
      if isEven {
        lngMin, lngMax, ch, bit := Bisect(lng, lngMin, lngMax, ch, -180.0, 180.0, n, x);
        NextBit(x, y, n, m, done, bits, open, bit, hash);
        x, n := 2 * x + bit, n + 1;
      } else {
        latMin, latMax, ch, bit := Bisect(lat, latMin, latMax, ch, -90.0, 90.0, m, y);
        NextBit(x, y, n, m, done, bits, open, bit, hash);
        y, m := 2 * y + bit, m + 1;
      }
      isEven := !isEven;
      bits := bits + 1;
      if bits == 5 {
        GroupCloses(x, y, n, m, done, ch, hash);
        hash := hash + [Symbol(ch)];
        done := 32 * done + ch;
        bits, ch := 0, 0;
      }
    }
    assert n == 15 && m == 15;
    WovenCells(lat, lng, x, y, latMin, latMax, lngMin, lngMax, done, hash);
  }

  /** The interleaved bits so far: the finished groups, which the hash spells, and the open one. */
  ghost predicate Woven(x: nat, y: nat, n: nat, m: nat, done: nat, bits: nat, ch: nat, hash: string) {
    Weave(x, y, n + m) == done * Pow2(bits) + ch && ch < Pow2(bits) && hash == Encode(done, |hash|)
  }

  lemma NothingWoven()
    ensures Woven(0, 0, 0, 0, 0, 0, 0, "")
  {
  }

  lemma WeaveAppends(x: nat, y: nat, n: nat, m: nat, bit: nat)
    requires bit < 2
    ensures n == m ==> Weave(2 * x + bit, y, n + 1 + m) == 2 * Weave(x, y, n + m) + bit
    ensures n == m + 1 ==> Weave(x, 2 * y + bit, n + (m + 1)) == 2 * Weave(x, y, n + m) + bit
  {
  }

  /** Shifting a bit into the open group. */
  lemma NextBit(x: nat, y: nat, n: nat, m: nat, done: nat, bits: nat, ch: nat, bit: nat, hash: string)
    requires Woven(x, y, n, m, done, bits, ch, hash) && bit < 2
    ensures n == m ==> Woven(2 * x + bit, y, n + 1, m, done, bits + 1, 2 * ch + bit, hash)
    ensures n == m + 1 ==> Woven(x, 2 * y + bit, n, m + 1, done, bits + 1, 2 * ch + bit, hash)
  {
    hide Weave, Encode;
    WeaveAppends(x, y, n, m, bit);
    var p := Pow2(bits);
    assert Pow2(bits + 1) == 2 * p;
    assert done * (2 * p) == 2 * (done * p);
  }

  lemma GroupIsDigit()
    ensures Pow2(5) == 32 && Pow2(0) == 1
  {
  }

  /** A group of five bits is one character. */
  lemma GroupCloses(x: nat, y: nat, n: nat, m: nat, done: nat, ch: nat, hash: string)
    requires Woven(x, y, n, m, done, 5, ch, hash)
    ensures ch < 32 && Woven(x, y, n, m, 32 * done + ch, 0, 0, hash + [Symbol(ch)])
  {
    hide Weave, Symbol;
    GroupIsDigit();
    assert (32 * done + ch) / 32 == done && (32 * done + ch) % 32 == ch;
  }

  lemma WovenCells(lat: real, lng: real, x: nat, y: nat, latMin: real, latMax: real, lngMin: real, lngMax: real, done: nat, hash: string)
    requires Bisected(lng, -180.0, 180.0, 15, x, lngMin, lngMax) && Bisected(lat, -90.0, 90.0, 15, y, latMin, latMax)
    requires Woven(x, y, 15, 15, done, 0, 0, hash) && |hash| == 6
    ensures hash == HashOf(lat, lng)
  {
    hide Quantise, Weave, Encode, Edge, Pow2;
    GroupIsDigit();
  }

  /** After n bisections the interval is cell q of 2^n, and q is the quantised value. */
  ghost predicate Bisected(v: real, lo: real, hi: real, n: nat, q: nat, min: real, max: real)
    requires lo < hi
  {
    q == Quantise(v, lo, hi, n) && min == Edge(lo, hi, n, q) && max == Edge(lo, hi, n, q + 1)
  }

  lemma BisectionStarts(v: real, lo: real, hi: real)
    requires lo < hi
    ensures Bisected(v, lo, hi, 0, 0, lo, hi)
  {
  }

  lemma BisectionStep(v: real, lo: real, hi: real, n: nat, q: nat, min: real, max: real)
    requires lo < hi && Bisected(v, lo, hi, n, q, min, max)
    ensures var mid := (min + max) / 2.0;
      if v >= mid then Bisected(v, lo, hi, n + 1, 2 * q + 1, mid, max) else Bisected(v, lo, hi, n + 1, 2 * q, min, mid)
  {
    hide Quantise, Edge, Scaled;
    EdgesHalve(lo, hi, n, q);
    EdgesHalve(lo, hi, n, q + 1);
    AboveEdge(v, lo, hi, n + 1, 2 * q + 1);
    QuantiseRefines(v, lo, hi, n);
  }
}
