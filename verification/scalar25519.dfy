/** Reduction modulo the Ed25519 group order on 24 signed limbs of 21 bits each. */
module Scalar25519 {
  import opened Machine
  import opened Modular
  import opened Limbs

  // 2^252 + 27742317777372353535851937790883648493, section 5.1 of RFC 8032.
  const L := 0x1000_0000_0000_0000_0000_0000_0000_0000_14de_f9de_a2f7_9cd6_5812_631a_5cf5_d3ed
  const W := 0x20_0000
  const HALF := 0x10_0000
  // 2^252
  const TOP := 0x1000_0000_0000_0000_0000_0000_0000_0000_0000_0000_0000_0000_0000_0000_0000_0000

  ghost function V(s: seq<int64>): (r: int) { Val(s, W) }

  ghost predicate Within(s: seq<int64>, lo: nat, hi: nat, m: int)
    requires hi <= |s|
  {
    forall j | lo <= j < hi :: -m <= s[j] as int <= m
  }

  // ---- folding a high limb ------------------------------------------------

  /** Adding s_i times this pattern at limb i - 12 subtracts s_i * L at that place. */
  const D: seq<int64> := [666643, 470296, 654183, -997805, 136657, -683901, 0, 0, 0, 0, 0, 0, -1]

  lemma Horner(s: seq<int64>, k: nat)
    requires k < |s|
    ensures V(s[k..]) == s[k] as int + W * V(s[k + 1..])
  {
    assert s[k..][1..] == s[k + 1..];
  }

  /** The number as the limbs below i - 12, the thirteen from there to i, and the rest. */
  lemma Cut(s: seq<int64>, i: nat)
    requires 12 <= i < |s|
    ensures V(s) == V(s[..i - 12]) + Pow(W, i - 12) * (V(s[i - 12..i + 1]) + Pow(W, 13) * V(s[i + 1..]))
  {
    var lo, x, y := s[..i - 12], s[i - 12..i + 1], s[i + 1..];
    assert s == lo + (x + y);
    ValAppend(lo, x + y, W);
    ValAppend(x, y, W);
  }

  lemma FoldKeeps(s: seq<int64>, s': seq<int64>, i: nat, d: seq<int64>)
    requires |s| == |s'| && 12 <= i < |s| && |d| == 13 && V(d) == -L
    requires forall j | 0 <= j < 13 :: s'[i - 12 + j] as int == s[i - 12 + j] as int + s[i] as int * d[j] as int
    requires s'[..i - 12] == s[..i - 12] && s'[i + 1..] == s[i + 1..]
    ensures V(s') == V(s) - Pow(W, i - 12) * s[i] as int * L
  {
    Cut(s, i);
    Cut(s', i);
    ValSum(s[i - 12..i + 1], d, s'[i - 12..i + 1], s[i] as int, W);
    FoldAlgebra(V(s[..i - 12]), Pow(W, i - 12), V(s[i - 12..i + 1]), s[i] as int, Pow(W, 13) * V(s[i + 1..]));
  }

  lemma FoldAlgebra(lo: int, p: int, x: int, k: int, y: int)
    ensures lo + p * (x + k * -L + y) == lo + p * (x + y) - p * k * L
  {
    assert p * (x + k * -L + y) == p * (x + y) + p * (k * -L);
    assert p * (k * -L) == -(p * k * L);
  }

  ghost predicate Pattern(d: seq<int64>) {
    |d| == 13 && V(d) == -L && d[12] == -1
    && (forall j | 0 <= j < 6 :: -997805 <= d[j] <= 997805) && (forall j | 6 <= j < 12 :: d[j] == 0)
  }

  lemma TableValue()
    ensures V(D) == -L
  {
    assert D[13..] == [] && D[0..] == D;
    Horner(D, 12); Horner(D, 11); Horner(D, 10); Horner(D, 9); Horner(D, 8); Horner(D, 7); Horner(D, 6);
    Horner(D, 5); Horner(D, 4); Horner(D, 3); Horner(D, 2); Horner(D, 1); Horner(D, 0);
  }

  lemma TableShape(d: seq<int64>)
    requires d == D
    ensures |d| == 13 && d[12] == -1
    ensures (forall j | 0 <= j < 6 :: -997805 <= d[j] <= 997805) && (forall j | 6 <= j < 12 :: d[j] == 0)
  {
  }

  lemma TableFits(d: seq<int64>)
    requires d == D
    ensures Pattern(d)
  {
    TableValue();
    TableShape(d);
  }

  lemma CoefficientBound(x: int, c: int, m: int)
    requires -997805 <= c <= 997805 && -m <= x <= m
    ensures -997805 * m <= x * c <= 997805 * m
  {
    MulNonneg(m - x, 997805 + c);
    MulNonneg(m + x, 997805 - c);
    MulNonneg(m - x, 997805 - c);
    MulNonneg(m + x, 997805 + c);
  }

  /** One line of the folding blocks: s[i-12..i-6] += s[i] * d[..6] and s[i] := 0. */
  method Fold(s: array<int64>, i: nat, d: seq<int64>, ghost m: int)
    requires s.Length == 24 && 12 <= i < 24 && Pattern(d)
    requires 0 <= m <= 0x100_0000_0000 && -m <= s[i] as int <= m
    requires Within(s[..], i - 12, i - 6, 0x3fff_ffff_ffff_ffff)
    modifies s
    ensures V(s[..]) == V(old(s[..])) - Pow(W, i - 12) * old(s[i]) as int * L
    ensures forall j | 0 <= j < 24 && !(i - 12 <= j < i - 6) && j != i :: s[j] == old(s[j])
    ensures forall j | i - 12 <= j < i - 6 ::
              old(s[j]) as int - 997805 * m <= s[j] as int <= old(s[j]) as int + 997805 * m
    ensures s[i] == 0
  {
    ghost var t := s[..];
    var x := s[i];
    for j := 0 to 6
      invariant forall k | 0 <= k < 24 && !(i - 12 <= k < i - 12 + j) :: s[k] == t[k]
      invariant forall k | i - 12 <= k < i - 12 + j :: s[k] as int == t[k] as int + x as int * d[k - (i - 12)] as int
      invariant forall k | i - 12 <= k < i - 12 + j ::
              t[k] as int - 997805 * m <= s[k] as int <= t[k] as int + 997805 * m
    {
      CoefficientBound(x as int, d[j] as int, m);
      assert s[i - 12 + j] == t[i - 12 + j];
      s[i - 12 + j] := s[i - 12 + j] + x * d[j];
    }
    s[i] := 0;
    FoldKeeps(t, s[..], i, d);
  }

  // ---- carries ------------------------------------------------------------

  lemma CarryKeeps(s: seq<int64>, s': seq<int64>, i: nat, c: int)
    requires i + 1 < |s| == |s'|
    requires s'[i] as int == s[i] as int - c * W && s'[i + 1] as int == s[i + 1] as int + c
    requires s' == s[i := s'[i]][i + 1 := s'[i + 1]]
    ensures V(s') == V(s)
  {
    var m := s[i := s'[i]];
    ValUpdate(s, i, s'[i], W);
    ValUpdate(m, i + 1, s'[i + 1], W);
    assert (-c * W) * Pow(W, i) + c * (W * Pow(W, i)) == 0;
  }

  /** A carry that rounds to nearest and leaves a signed limb. */
  method Carry(s: array<int64>, i: nat)
    requires s.Length == 24 && i < 23
    requires Within(s[..], i, i + 2, 0x6fff_ffff_ffff_ffff)
    modifies s
    ensures V(s[..]) == V(old(s[..]))
    ensures forall j | 0 <= j < 24 && j != i && j != i + 1 :: s[j] == old(s[j])
    ensures -HALF <= s[i] as int < HALF
    ensures s[i + 1] as int == old(s[i + 1]) as int + (old(s[i]) as int + HALF) / W
  {
    ghost var t := s[..];
    assert s[i] == t[i] && s[i + 1] == t[i + 1];
    var c := (s[i] + 0x10_0000) / 0x20_0000;
    s[i + 1] := s[i + 1] + c;
    s[i] := s[i] - c * 0x20_0000;
    assert s[..] == t[i := s[i]][i + 1 := s[i + 1]];
    CarryKeeps(t, s[..], i, c as int);
  }

  /** A carry that rounds down and leaves a limb below the base. */
  method CarryDown(s: array<int64>, i: nat)
    requires s.Length == 24 && i < 23
    requires Within(s[..], i, i + 2, 0x6fff_ffff_ffff_ffff)
    modifies s
    ensures V(s[..]) == V(old(s[..]))
    ensures forall j | 0 <= j < 24 && j != i && j != i + 1 :: s[j] == old(s[j])
    ensures 0 <= s[i] as int < W
    ensures s[i + 1] as int == old(s[i + 1]) as int + old(s[i]) as int / W
  {
    ghost var t := s[..];
    assert s[i] == t[i] && s[i + 1] == t[i + 1];
    var c := s[i] / 0x20_0000;
    s[i + 1] := s[i + 1] + c;
    s[i] := s[i] - c * 0x20_0000;
    assert s[..] == t[i := s[i]][i + 1 := s[i + 1]];
    CarryKeeps(t, s[..], i, c as int);
  }


  // ---- the schedule -------------------------------------------------------

  /** The rounding carries out of limbs from, from + 2, ..., n of them. */
  method CarryAlternate(s: array<int64>, from: nat, n: nat, ghost m: int)
    requires s.Length == 24 && from + 2 * n <= 24
    requires 0 <= m <= 0x6000_0000_0000_0000 && Within(s[..], from, from + 2 * n, m)
    modifies s
    ensures V(s[..]) == V(old(s[..]))
    ensures forall j | 0 <= j < 24 && !(from <= j < from + 2 * n) :: s[j] == old(s[j])
    ensures forall k | 0 <= k < n :: -HALF <= s[from + 2 * k] as int <= HALF
    ensures forall k | 0 <= k < n ::
              old(s[from + 2 * k + 1]) as int - m / W - 1 <= s[from + 2 * k + 1] as int
              <= old(s[from + 2 * k + 1]) as int + m / W + 1
  {
    ghost var t := s[..];
    for k := 0 to n
      invariant V(s[..]) == V(t)
      invariant forall j | 0 <= j < 24 && !(from <= j < from + 2 * k) :: s[j] == t[j]
      invariant forall i | 0 <= i < k :: -HALF <= s[from + 2 * i] as int <= HALF
      invariant forall i | 0 <= i < k ::
              t[from + 2 * i + 1] as int - m / W - 1 <= s[from + 2 * i + 1] as int
              <= t[from + 2 * i + 1] as int + m / W + 1
    {
      assert s[from + 2 * k] == t[from + 2 * k] && s[from + 2 * k + 1] == t[from + 2 * k + 1];
      Carry(s, from + 2 * k);
    }
  }

  method FoldStep(s: array<int64>, top: nat, i: nat, d: seq<int64>, ghost m: int, ghost b: int)
    requires s.Length == 24 && 18 <= top <= 24 && top - 6 <= i < top && Pattern(d)
    requires 0 <= m <= 0x100_0000_0000 && -m <= s[i] as int <= m
    requires Within(s[..], top - 18, top, b) && 0 <= b <= 0x3fff_ffff_ffff_ffff
    modifies s
    ensures Cong(V(s[..]), V(old(s[..])), L)
    ensures forall j | 0 <= j < 24 && !(top - 18 <= j < top - 7) && j != i :: s[j] == old(s[j])
    ensures s[i] == 0 && Within(s[..], top - 18, top, b + 997805 * m)
  {
    ghost var t := s[..];
    assert forall j | 0 <= j < 24 :: s[j] == t[j];
    Fold(s, i, d, m);
    CongIntro(V(s[..]), V(t), -(Pow(W, i - 12) * t[i] as int), L);
  }

  /** Six folds, out of limbs top - 1 down to top - 6. */
  method FoldSix(s: array<int64>, top: nat, d: seq<int64>, ghost m: int)
    requires s.Length == 24 && 18 <= top <= 24 && Pattern(d)
    requires 0 <= m <= 0x10_0000_0000 && Within(s[..], top - 18, top, m)
    modifies s
    ensures Cong(V(s[..]), V(old(s[..])), L)
    ensures forall j | 0 <= j < 24 && !(top - 18 <= j < top - 7) && j < top - 6 :: s[j] == old(s[j])
    ensures forall j | top <= j < 24 :: s[j] == old(s[j])
    ensures forall j | top - 6 <= j < top :: s[j] == 0
    ensures Within(s[..], top - 18, top, 5986831 * m)
  {
    assert forall j | top - 6 <= j < top :: s[..][j] == s[j];
    FoldStep(s, top, top - 1, d, m, m);
    FoldStep(s, top, top - 2, d, m, 997806 * m);
    FoldStep(s, top, top - 3, d, m, 1995611 * m);
    FoldStep(s, top, top - 4, d, m, 2993416 * m);
    FoldStep(s, top, top - 5, d, m, 3991221 * m);
    FoldStep(s, top, top - 6, d, m, 4989026 * m);
  }

  const M31 := 0x8000_0000
  const M34 := 0x4_0000_0000
  const M37 := 0x20_0000_0000
  const M57 := 0x200_0000_0000_0000

  ghost predicate Zero(s: seq<int64>, lo: nat, hi: nat)
    requires hi <= |s|
  {
    forall j | lo <= j < hi :: s[j] == 0
  }

  /** Limbs 23 to 18 folded, limbs 6 to 16 carried: everything sits in limbs 0 to 17. */
  method Upper(s: array<int64>, d: seq<int64>)
    requires s.Length == 24 && Pattern(d) && Within(s[..], 0, 24, M31)
    modifies s
    ensures Cong(V(s[..]), V(old(s[..])), L)
    ensures Within(s[..], 0, 18, M34) && Zero(s[..], 18, 24)
  {
    ghost var t := s[..];
    assert forall j | 0 <= j < 24 :: s[j] == t[j];
    FoldSix(s, 24, d, M31);
    ghost var m1 := 5986831 * M31;
    ghost var u := s[..];
    assert u[17] == t[17];
    CarryAlternate(s, 6, 6, m1);
    ghost var w := s[..];
    UpperEvens(t, u, w, m1);
    CarryAlternate(s, 7, 5, m1 + m1 / W + 1);
    UpperOdds(w, s[..], m1 + m1 / W + 1);
  }

  lemma UpperEvens(t: seq<int64>, u: seq<int64>, w: seq<int64>, m1: int)
    requires |t| == |u| == |w| == 24 && m1 == 5986831 * M31
    requires Within(t, 0, 24, M31) && u[17] == t[17]
    requires forall j | 0 <= j < 6 :: u[j] == t[j]
    requires Within(u, 6, 24, m1) && Zero(u, 18, 24)
    requires forall j | 0 <= j < 24 && !(6 <= j < 18) :: w[j] == u[j]
    requires forall k | 0 <= k < 6 :: -HALF <= w[6 + 2 * k] as int <= HALF
    requires forall k | 0 <= k < 6 ::
              u[6 + 2 * k + 1] as int - m1 / W - 1 <= w[6 + 2 * k + 1] as int <= u[6 + 2 * k + 1] as int + m1 / W + 1
    ensures Within(w, 7, 17, m1 + m1 / W + 1) && Within(w, 0, 7, M34) && Within(w, 17, 18, M34) && Zero(w, 18, 24)
    ensures forall k | 0 <= k < 6 :: -HALF <= w[6 + 2 * k] as int <= HALF
  {
    forall j | 7 <= j < 18
      ensures -(m1 + m1 / W + 1) <= w[j] as int <= m1 + m1 / W + 1
    {
      var k := (j - 6) / 2;
      assert j == 6 + 2 * k || j == 6 + 2 * k + 1;
    }
    assert w[6 + 2 * 5 + 1] == w[17] && w[6 + 2 * 0] == w[6];
  }

  lemma UpperOdds(w: seq<int64>, z: seq<int64>, m: int)
    requires |w| == |z| == 24 && 0 <= m <= 0x3_0000_0000 * W
    requires Within(w, 0, 7, M34) && Within(w, 17, 18, M34) && Zero(w, 18, 24)
    requires forall k | 0 <= k < 6 :: -HALF <= w[6 + 2 * k] as int <= HALF
    requires forall j | 0 <= j < 24 && !(7 <= j < 17) :: z[j] == w[j]
    requires forall k | 0 <= k < 5 :: -HALF <= z[7 + 2 * k] as int <= HALF
    requires forall k | 0 <= k < 5 ::
              w[7 + 2 * k + 1] as int - m / W - 1 <= z[7 + 2 * k + 1] as int <= w[7 + 2 * k + 1] as int + m / W + 1
    ensures Within(z, 0, 18, M34) && Zero(z, 18, 24)
  {
    forall j | 7 <= j < 17
      ensures -M34 <= z[j] as int <= M34
    {
      var k := (j - 7) / 2;
      assert j == 7 + 2 * k || j == 7 + 2 * k + 1;
      assert w[7 + 2 * k + 1] == w[6 + 2 * (k + 1)];
    }
  }

  lemma LowerCarried(u: seq<int64>, w: seq<int64>, z: seq<int64>, m: int)
    requires |u| == |w| == |z| == 24 && m == 5986831 * M34
    requires Within(u, 0, 18, m) && Zero(u, 12, 24)
    requires forall j | 12 <= j < 24 :: w[j] == u[j]
    requires forall k | 0 <= k < 6 :: -HALF <= w[0 + 2 * k] as int <= HALF
    requires forall j | 0 <= j < 24 && !(1 <= j < 13) :: z[j] == w[j]
    requires forall k | 0 <= k < 6 :: -HALF <= z[1 + 2 * k] as int <= HALF
    requires forall k | 0 <= k < 6 ::
              w[1 + 2 * k + 1] as int - (m + m / W + 1) / W - 1 <= z[1 + 2 * k + 1] as int
              <= w[1 + 2 * k + 1] as int + (m + m / W + 1) / W + 1
    ensures Within(z, 0, 13, M37) && -HALF <= z[11] as int <= HALF && Zero(z, 13, 24)
  {
    forall j | 0 <= j < 13
      ensures -M37 <= z[j] as int <= M37
    {
      if j == 0 {
        assert z[0] == w[0 + 2 * 0];
      } else {
        var k := (j - 1) / 2;
        assert j == 1 + 2 * k || j == 1 + 2 * k + 1;
        assert k < 5 ==> w[1 + 2 * k + 1] == w[0 + 2 * (k + 1)];
      }
    }
    assert z[11] == z[1 + 2 * 5];
  }

  lemma LowerEvens(u: seq<int64>, w: seq<int64>, m: int)
    requires |u| == |w| == 24 && 0 <= m && Within(u, 0, 18, m) && Zero(u, 12, 24)
    requires forall j | 0 <= j < 24 && !(0 <= j < 12) :: w[j] == u[j]
    requires HALF <= m && forall k | 0 <= k < 6 :: -HALF <= w[0 + 2 * k] as int <= HALF
    requires forall k | 0 <= k < 6 ::
              u[0 + 2 * k + 1] as int - m / W - 1 <= w[0 + 2 * k + 1] as int <= u[0 + 2 * k + 1] as int + m / W + 1
    ensures Within(w, 0, 13, m + m / W + 1)
  {
    forall j | 0 <= j < 13
      ensures -(m + m / W + 1) <= w[j] as int <= m + m / W + 1
    {
      if j < 12 {
        var k := j / 2;
        assert j == 0 + 2 * k || j == 0 + 2 * k + 1;
      }
    }
  }

  /** Limbs 17 to 12 folded and carried: limb 11 is a signed 21-bit limb again. */
  method Lower(s: array<int64>, d: seq<int64>)
    requires s.Length == 24 && Pattern(d) && Within(s[..], 0, 18, M34) && Zero(s[..], 18, 24)
    modifies s
    ensures Cong(V(s[..]), V(old(s[..])), L)
    ensures Within(s[..], 0, 13, M37) && -HALF <= s[11] as int <= HALF && Zero(s[..], 13, 24)
  {
    ghost var t := s[..];
    assert forall j | 0 <= j < 24 :: s[j] == t[j];
    FoldSix(s, 18, d, M34);
    ghost var m := 5986831 * M34;
    ghost var u := s[..];
    CarryAlternate(s, 0, 6, m);
    ghost var w := s[..];
    LowerEvens(u, w, m);
    CarryAlternate(s, 1, 6, m + m / W + 1);
    LowerCarried(u, w, s[..], m);
  }

  // ---- the last two folds and the canonical result ------------------------

  /** Rounding-down carries out of limbs 0 to n - 1. */
  method Chain(s: array<int64>, n: nat)
    requires s.Length == 24 && n < 24 && Within(s[..], 0, n + 1, M57)
    modifies s
    ensures V(s[..]) == V(old(s[..]))
    ensures forall j | 0 <= j < n :: 0 <= s[j] as int < W
    ensures forall j | n < j < 24 :: s[j] == old(s[j])
    ensures Within(s[..], n, n + 1, 2 * M57)
  {
    ghost var t := s[..];
    for i := 0 to n
      invariant V(s[..]) == V(t)
      invariant forall j | 0 <= j < i :: 0 <= s[j] as int < W
      invariant -2 * M57 <= s[i] as int <= 2 * M57
      invariant forall j | i < j < 24 :: s[j] == t[j]
    {
      assert s[i + 1] == t[i + 1];
      CarryDown(s, i);
    }
  }

  lemma {:induction false} ValBound(s: seq<int64>, m: int)
    requires 0 <= m && forall j | 0 <= j < |s| :: -m <= s[j] as int <= m
    ensures -m * (Pow(W, |s|) - 1) <= (W - 1) * V(s) <= m * (Pow(W, |s|) - 1)
    decreases |s|
  {
    if s != [] {
      ValBound(s[1..], m);
      var p := Pow(W, |s| - 1);
      assert m * (W * p - 1) == W * (m * (p - 1)) + (W - 1) * m;
      assert -m * (W * p - 1) == W * (-m * (p - 1)) - (W - 1) * m;
    }
  }

  lemma {:induction false} LimbRange(s: seq<int64>)
    requires forall j | 0 <= j < |s| :: 0 <= s[j] as int < W
    ensures 0 <= V(s) < Pow(W, |s|)
    decreases |s|
  {
    if s != [] {
      LimbRange(s[1..]);
    }
  }

  lemma PowW()
    ensures Pow(W, 5) == 0x200_0000_0000_0000_0000_0000_0000
    ensures Pow(W, 6) == 0x4000_0000_0000_0000_0000_0000_0000_0000
    ensures Pow(W, 12) == TOP && W * Pow(W, 11) == TOP
  {
    assert Pow(0x20_0000, 5) == 0x200_0000_0000_0000_0000_0000_0000;
    assert Pow(0x20_0000, 6) == 0x4000_0000_0000_0000_0000_0000_0000_0000;
    assert Pow(0x20_0000, 12) == TOP;
  }

  lemma Split12(s: seq<int64>)
    requires |s| == 24 && Zero(s, 13, 24)
    ensures V(s) == V(s[..12]) + s[12] as int * TOP
  {
    assert s == s[..12] + s[12..] && s[12..][1..] == s[13..];
    ValAppend(s[..12], s[12..], W);
    ValZero(s[13..], W);
    PowW();
  }

  lemma SmallTotal(s: seq<int64>)
    requires |s| == 24 && Within(s, 0, 6, M57) && Within(s, 6, 11, M37) && -HALF <= s[11] as int <= HALF
    requires Zero(s, 12, 24)
    ensures -TOP <= V(s) < TOP
  {
    Split12(s);
    var x, y := s[..6], s[6..11];
    assert s[..12] == x + (y + [s[11]]);
    ValAppend(x, y + [s[11]], W);
    ValAppend(y, [s[11]], W);
    assert V([s[11]]) == s[11] as int;
    ValBound(x, M57);
    ValBound(y, M37);
    PowW();
  }

  /** What the final carry chain leaves: the canonical residue in twelve limbs. */
  ghost predicate Canonical(s: seq<int64>) {
    |s| == 24 && (forall j | 0 <= j < 11 :: 0 <= s[j] as int < W) && 0 <= s[11] as int < 2 * W
    && Zero(s, 12, 24) && 0 <= V(s) < L
  }

  lemma TopLimb(s: seq<int64>)
    requires |s| == 24 && (forall j | 0 <= j < 11 :: 0 <= s[j] as int < W) && Zero(s, 12, 24) && 0 <= V(s) < L
    ensures 0 <= s[11] as int < 2 * W
  {
    Split12(s);
    ValPrefix(s, 11, W);
    LimbRange(s[..11]);
    PowW();
  }

  method FirstFold(s: array<int64>, d: seq<int64>)
    requires s.Length == 24 && Pattern(d)
    requires Within(s[..], 0, 13, M37) && -HALF <= s[11] as int <= HALF && Zero(s[..], 13, 24)
    modifies s
    ensures Cong(V(s[..]), V(old(s[..])), L)
    ensures (forall j | 0 <= j < 12 :: 0 <= s[j] as int < W) && -1 <= s[12] <= 0 && Zero(s[..], 13, 24)
  {
    ghost var t := s[..];
    assert forall j | 0 <= j < 24 :: s[j] == t[j];
    Fold(s, 12, d, M37);
    CongIntro(V(s[..]), V(t), -(Pow(W, 0) * t[12] as int), L);
    SmallTotal(s[..]);
    Chain(s, 12);
    Split12(s[..]);
    LimbRange(s[..12]);
    PowW();
  }

  method SecondFold(s: array<int64>, d: seq<int64>)
    requires s.Length == 24 && Pattern(d)
    requires (forall j | 0 <= j < 12 :: 0 <= s[j] as int < W) && -1 <= s[12] <= 0 && Zero(s[..], 13, 24)
    modifies s
    ensures Cong(V(s[..]), V(old(s[..])), L) && Canonical(s[..])
  {
    ghost var t := s[..];
    assert forall j | 0 <= j < 24 :: s[j] == t[j];
    Split12(t);
    LimbRange(s[..12]);
    PowW();
    Fold(s, 12, d, 1);
    assert Pow(W, 0) == 1;
    CongIntro(V(s[..]), V(t), -t[12] as int, L);
    Chain(s, 11);
    TopLimb(s[..]);
  }

  /** The reduction both entry points share, from limbs of any sign below 2^31. */
  method Reduce(s: array<int64>, d: seq<int64>)
    requires s.Length == 24 && Pattern(d) && Within(s[..], 0, 24, M31)
    modifies s
    ensures Canonical(s[..]) && V(s[..]) == V(old(s[..])) % L
  {
    Upper(s, d);
    Lower(s, d);
    FirstFold(s, d);
    SecondFold(s, d);
    DivModUnique(V(s[..]), 0, V(s[..]), L);
  }

  // ---- bytes to limbs -----------------------------------------------------

  lemma Powers(i: nat, j: nat, sh: nat)
    requires 21 * i == 8 * j + sh
    ensures Pow(W, i) == Pow(256, j) * Pow(2, sh) && Pow(256, j) > 0 && Pow(2, sh) > 0
  {
    assert Pow(2, 21) == W && Pow(2, 8) == 256;
    PowPow(2, 21, i);
    PowPow(2, 8, j);
    PowAdd(2, 8 * j, sh);
    PowPositive(256, j);
    PowPositive(2, sh);
  }

  function Acc(p: seq<uint8>, at: nat): (r: int)
    requires at + 4 <= |p|
  {
    p[at] as int + p[at + 1] as int * 0x100 + p[at + 2] as int * 0x1_0000 + p[at + 3] as int * 0x100_0000
  }

  lemma AccValue(p: seq<uint8>, at: nat)
    requires at + 4 <= |p|
    ensures LE(p[at..]) == Acc(p, at) + 0x1_0000_0000 * LE(p[at + 4..])
  {
    FirstByte(p, at);
    FirstByte(p, at + 1);
    FirstByte(p, at + 2);
    FirstByte(p, at + 3);
  }

  /** Dividing by 256^j drops the first j bytes. */
  lemma DropBytes(p: seq<uint8>, j: nat)
    requires j <= |p|
    ensures Pow(256, j) > 0 && LE(p) / Pow(256, j) == LE(p[j..])
  {
    assert p == p[..j] + p[j..];
    LEAppend(p[..j], p[j..]);
    LEBound(p[..j]);
    PowPositive(256, j);
    LowPart(LE(p), LE(p[..j]), Pow(256, j), LE(p[j..]));
  }

  /** A multiple of the divisor above a window moves out of the quotient. */
  lemma ShiftOut(x: int, y: int, q: int, g: int)
    requires q > 0
    ensures (x + (q * g) * y) / q == x / q + g * y
  {
    assert (q * g) * y == (g * y) * q;
    DivShift(x, g * y, q);
  }

  lemma PowersOfTwo()
    ensures Pow(2, 0) == 1 && Pow(2, 1) == 2 && Pow(2, 2) == 4 && Pow(2, 3) == 8
    ensures Pow(2, 4) == 16 && Pow(2, 5) == 32 && Pow(2, 6) == 64 && Pow(2, 7) == 128
  {
  }

  /** A digit of y that lies inside its low 32 bits. */
  lemma WindowDigit(y: int, acc: int, r: int, q: int, h: int)
    requires q > 0 && q * (h * W) == 0x1_0000_0000 && y == acc + 0x1_0000_0000 * r
    ensures (y / q) % W == (acc / q) % W && (r == 0 ==> y / q == acc / q)
  {
    ShiftOut(acc, r, q, h * W);
    assert (h * W) * r == (h * r) * W;
    CongIntro(y / q, acc / q, h * r, W);
  }

  lemma Gap(sh: nat) returns (h: int)
    requires sh < 8
    ensures Pow(2, sh) > 0 && Pow(2, sh) * (h * W) == 0x1_0000_0000
  {
    PowersOfTwo();
    h := [2048, 1024, 512, 256, 128, 64, 32, 16][sh];
  }

  lemma QuotientBound(x: int, q: int, k: int, r: int)
    requires x >= 0 && q > 0 && x == q * k + r && 0 <= r < q
    ensures 0 <= k <= x
  {
    assert k < 0 ==> q * k <= -q;
    assert k >= 0 ==> q * k >= k;
  }

  lemma DivSmaller(x: int, q: int)
    requires x >= 0 && q > 0
    ensures 0 <= x / q <= x
  {
    QuotientBound(x, q, x / q, x % q);
  }

  /** The bytes around bit 21 i, shifted down to that bit. */
  function Window(p: seq<uint8>, i: nat): (r: int)
    requires 21 * i / 8 + 4 <= |p|
    ensures 0 <= r < 0x1_0000_0000
  {
    PowPositive(2, 21 * i % 8);
    DivSmaller(Acc(p, 21 * i / 8), Pow(2, 21 * i % 8));
    Acc(p, 21 * i / 8) / Pow(2, 21 * i % 8)
  }

  /** The window at bit 21 i holds 21-bit digit i of the number. */
  lemma LimbOfBytes(p: seq<uint8>, i: nat)
    requires 21 * i / 8 + 4 <= |p|
    ensures Pow(W, i) > 0 && (LE(p) / Pow(W, i)) % W == Window(p, i) % W
    ensures 21 * i / 8 + 4 == |p| ==> LE(p) / Pow(W, i) == Window(p, i)
  {
    var j, sh := 21 * i / 8, 21 * i % 8;
    Powers(i, j, sh);
    DropBytes(p, j);
    DivDiv(LE(p), Pow(256, j), Pow(2, sh));
    AccValue(p, j);
    var h := Gap(sh);
    WindowDigit(LE(p[j..]), Acc(p, j), LE(p[j + 4..]), Pow(2, sh), h);
  }

  lemma DigitAlgebra(p: int, x: int, b: int, w: int)
    ensures p * (x + b * w) == x * p + (b * p) * w
  {
  }

  /** Reading one more digit x of n in base b. */
  lemma DigitStep(b: int, n: int, i: nat, v: int, x: int)
    requires b > 0 && Pow(b, i) > 0 && v + Pow(b, i) * (n / Pow(b, i)) == n && x == (n / Pow(b, i)) % b
    ensures Pow(b, i + 1) > 0 && v + x * Pow(b, i) + Pow(b, i + 1) * (n / Pow(b, i + 1)) == n
  {
    var p := Pow(b, i);
    DivDiv(n, p, b);
    assert n / p == x + b * (n / p / b);
    DigitAlgebra(p, x, b, n / p / b);
  }

  /** Limbs below i hold the digits of n below i. */
  ghost predicate Loaded(s: seq<int64>, i: nat, n: int)
    requires i <= |s|
  {
    Pow(W, i) > 0 && V(s[..i]) + Pow(W, i) * (n / Pow(W, i)) == n
  }

  lemma LoadStep(s: seq<int64>, s': seq<int64>, p: seq<uint8>, i: nat)
    requires i < |s| == |s'| && 21 * i / 8 + 4 <= |p| && Loaded(s, i, LE(p))
    requires s'[..i] == s[..i] && s'[i] as int == Window(p, i) % W
    ensures Loaded(s', i + 1, LE(p))
  {
    LimbOfBytes(p, i);
    ValPrefix(s', i, W);
    DigitStep(W, LE(p), i, V(s'[..i]), s'[i] as int);
  }

  lemma LoadTop(s: seq<int64>, s': seq<int64>, p: seq<uint8>, i: nat)
    requires i + 1 == |s| == |s'| && 21 * i / 8 + 4 == |p| && Loaded(s, i, LE(p))
    requires s'[..i] == s[..i] && s'[i] as int == Window(p, i)
    ensures V(s') == LE(p)
  {
    LimbOfBytes(p, i);
    ValPrefix(s', i, W);
    assert s'[..i + 1] == s';
    hide LE, Pow, Window, Val;
    TopDigit(LE(p), V(s'[..i]), Pow(W, i), LE(p) / Pow(W, i), s'[i] as int);
  }

  lemma TopDigit(n: int, v: int, p: int, q: int, x: int)
    requires v + p * q == n && x == q
    ensures v + x * p == n
  {
  }

  method LoadLimbs(p: seq<uint8>, n: nat) returns (s: array<int64>)
    requires (|p| == 64 && n == 24) || (|p| == 32 && n == 12)
    ensures fresh(s) && s.Length == n && V(s[..]) == LE(p)
    ensures forall i | 0 <= i < n - 1 :: 0 <= s[i] as int < W
    ensures 0 <= s[n - 1] as int < 0x2000_0000 && (n == 12 ==> s[11] as int < 0x200_0000)
  {
    s := new int64[n](_ => 0);
    assert Loaded(s[..], 0, LE(p)) by { assert Pow(W, 0) == 1; }
    for i := 0 to n - 1
      invariant forall j | 0 <= j < i :: 0 <= s[j] as int < W
      invariant Loaded(s[..], i, LE(p))
    {
      ghost var t := s[..];
      s[i] := (Window(p, i) % W) as int64;
      LoadStep(t, s[..], p, i);
    }
    TopWindow(p, n - 1);
    ghost var t := s[..];
    s[n - 1] := Window(p, n - 1) as int64;
    LoadTop(t, s[..], p, n - 1);
  }

  lemma TopWindow(p: seq<uint8>, i: nat)
    requires (i == 23 && |p| == 64) || (i == 11 && |p| == 32)
    ensures Window(p, i) < 0x2000_0000 && (i == 11 ==> Window(p, i) < 0x200_0000)
  {
    PowersOfTwo();
    assert 21 * 23 % 8 == 3 && 21 * 11 % 8 == 7;
  }

  // ---- limbs to bytes -----------------------------------------------------

  /** Byte k of the output: bits 8 k to 8 k + 7, from one limb or from two. */
  function Byte(s: seq<int64>, k: nat): (r: int)
    requires 8 * k / 21 + 1 < |s|
    ensures 0 <= r < 256
  {
    var i, sh := 8 * k / 21, 8 * k % 21;
    PowPositive(2, sh);
    ByteFrom(s[i] as int, s[i + 1] as int, Pow(2, sh), Pow(2, 21 - sh), sh > 13)
  }

  /** x shifted down by p, with y shifted up by g above it when the byte spans two limbs. */
  function ByteFrom(x: int, y: int, p: int, g: int, two: bool): (r: int)
    requires p > 0
    ensures 0 <= r < 256
  {
    (x / p + (if two then y * g else 0)) % 256
  }

  /** Dividing by W^i drops the first i limbs. */
  lemma DropLimbs(s: seq<int64>, i: nat)
    requires i <= |s| && forall j | 0 <= j < i :: 0 <= s[j] as int < W
    ensures Pow(W, i) > 0 && V(s) / Pow(W, i) == V(s[i..])
  {
    assert s == s[..i] + s[i..];
    ValAppend(s[..i], s[i..], W);
    LimbRange(s[..i]);
    PowPositive(W, i);
    LowPart(V(s), V(s[..i]), Pow(W, i), V(s[i..]));
  }

  /** A byte that starts at bit sh of a number made of 21-bit digits x, y, t. */
  lemma ByteDigit(x: int, y: int, t: int, p: int, g: int)
    requires p > 0 && p * g == W
    ensures ((x + W * (y + W * t)) / p) % 256 == ByteFrom(x, y, p, g, true)
    ensures g % 256 == 0 ==> ((x + W * (y + W * t)) / p) % 256 == ByteFrom(x, y, p, g, false)
  {
    ShiftOut(x, y + W * t, p, g);
    assert g * (y + W * t) == y * g + (8192 * g * t) * 256;
    CongIntro(x / p + g * (y + W * t), x / p + y * g, 8192 * g * t, 256);
    if g % 256 == 0 {
      var h := g / 256;
      assert g * (y + W * t) == (h * (y + W * t)) * 256;
      CongIntro(x / p + g * (y + W * t), x / p, h * (y + W * t), 256);
    }
  }

  lemma {:induction false} ComplementPower(sh: nat)
    requires sh <= 21
    ensures Pow(2, sh) > 0 && Pow(2, sh) * Pow(2, 21 - sh) == W
    ensures sh <= 13 ==> Pow(2, 21 - sh) % 256 == 0
  {
    PowAdd(2, sh, 21 - sh);
    assert Pow(2, 21) == W && Pow(2, 8) == 256;
    PowPositive(2, sh);
    if sh <= 13 {
      PowAdd(2, 13 - sh, 8);
    }
  }

  lemma PowersOfByte(k: nat, i: nat, sh: nat)
    requires 8 * k == 21 * i + sh
    ensures Pow(256, k) == Pow(W, i) * Pow(2, sh)
  {
    assert Pow(2, 21) == W && Pow(2, 8) == 256;
    PowPow(2, 21, i);
    PowPow(2, 8, k);
    PowAdd(2, 21 * i, sh);
  }

  lemma QuotientOfLimbs(s: seq<int64>, k: nat, i: nat, sh: nat)
    requires |s| == 24 && i < 12 && 8 * k == 21 * i + sh && sh < 21
    requires forall j | 0 <= j < 11 :: 0 <= s[j] as int < W
    ensures Pow(256, k) > 0 && Pow(2, sh) > 0
    ensures V(s) / Pow(256, k) == (s[i] as int + W * (s[i + 1] as int + W * V(s[i + 2..]))) / Pow(2, sh)
  {
    hide Pow, V;
    PowersOfByte(k, i, sh);
    PowPositive(2, sh);
    DropLimbs(s, i);
    DivDiv(V(s), Pow(W, i), Pow(2, sh));
    Horner(s, i);
    Horner(s, i + 1);
  }

  lemma ByteOfLimbs(s: seq<int64>, k: nat)
    requires |s| == 24 && k < 32 && forall j | 0 <= j < 11 :: 0 <= s[j] as int < W
    ensures Pow(256, k) > 0 && (V(s) / Pow(256, k)) % 256 == Byte(s, k)
  {
    var i, sh := 8 * k / 21, 8 * k % 21;
    hide Pow, V, ByteFrom;
    QuotientOfLimbs(s, k, i, sh);
    ComplementPower(sh);
    ByteDigit(s[i] as int, s[i + 1] as int, V(s[i + 2..]), Pow(2, sh), Pow(2, 21 - sh));
  }

  ghost predicate Stored(o: seq<uint8>, k: nat, n: int)
    requires k <= |o|
  {
    Pow(256, k) > 0 && LE(o[..k]) + Pow(256, k) * (n / Pow(256, k)) == n
  }

  lemma StoreStep(o: seq<uint8>, o': seq<uint8>, s: seq<int64>, k: nat)
    requires |s| == 24 && k < 32 == |o| == |o'| && Stored(o, k, V(s))
    requires forall j | 0 <= j < 11 :: 0 <= s[j] as int < W
    requires o'[..k] == o[..k] && o'[k] as int == Byte(s, k)
    ensures Stored(o', k + 1, V(s))
  {
    hide LE, Pow, V, Byte;
    ByteOfLimbs(s, k);
    DigitStep(256, V(s), k, LE(o[..k]), o'[k] as int);
    LEPrefix(o', k);
  }

  lemma StoreDone(o: seq<uint8>, n: int)
    requires |o| == 32 && Stored(o, 32, n) && 0 <= n < L
    ensures LE(o) == n
  {
    hide LE, Pow;
    assert o[..32] == o;
    StoreSize(32);
    var m := Pow(256, 32);
    DivModUnique(n, 0, n, m);
    assert m * (n / m) == 0;
  }

  lemma StoreSize(k: nat)
    requires k == 32
    ensures Pow(256, k) == 16 * TOP
  {
    hide Pow;
    PowersOfByte(k, 12, 4);
    PowW();
    PowersOfTwo();
  }

  method StoreLimbs(s: array<int64>) returns (o: array<uint8>)
    requires s.Length == 24 && Canonical(s[..])
    ensures fresh(o) && o.Length == 32 && LE(o[..]) == V(s[..])
  {
    o := new uint8[32](_ => 0);
    assert Stored(o[..], 0, V(s[..])) by { assert Pow(256, 0) == 1; }
    for k := 0 to 32
      invariant Stored(o[..], k, V(s[..]))
    {
      ghost var before := o[..];
      o[k] := Byte(s[..], k) as uint8;
      StoreStep(before, o[..], s[..], k);
    }
    StoreDone(o[..], V(s[..]));
  }

  method ReduceWithTable(s: array<int64>)
    requires s.Length == 24 && Within(s[..], 0, 24, M31)
    modifies s
    ensures Canonical(s[..]) && V(s[..]) == V(old(s[..])) % L
  {
    TableFits(D);
    Reduce(s, D);
  }

  // ---- the entry points ---------------------------------------------------

  /** sc_reduce: for every 64-byte input the low 32 bytes become the input modulo
      L, canonical, and the high 32 bytes become zero. */
  method ScReduce(r: array<uint8>)
    requires r.Length == 64
    modifies r
    ensures LE(r[..32]) == LE(old(r[..])) % L
    ensures forall i | 32 <= i < 64 :: r[i] == 0
  {
    var s := LoadLimbs(r[..], 24);
    ReduceWithTable(s);
    var o := StoreLimbs(s);
    ghost var b := o[..];
    for i := 0 to 64
      invariant o[..] == b
      invariant forall j | 0 <= j < i :: r[j] == if j < 32 then b[j] else 0
    {
      r[i] := if i < 32 then o[i] else 0;
    }
    assert r[..32] == o[..];
  }


  ghost predicate Loadable(x: seq<int64>) {
    |x| == 12 && (forall i | 0 <= i < 11 :: 0 <= x[i] as int < W) && 0 <= x[11] as int < 0x200_0000
  }

  ghost predicate UpTo(s: seq<int64>, m: int) {
    |s| == 24 && s[23] == 0 && forall k | 0 <= k < 24 :: 0 <= s[k] as int <= m
  }

  lemma ProductRange(x: int, y: int, e: int)
    requires 0 <= x < e && 0 <= y < 0x200_0000
    ensures 0 <= x * y <= e * 0x200_0000
  {
    MulLe(x, e, y, 0x200_0000);
  }

  /** One row of products: limb x of one factor times every limb of the other. */
  method Row(s: array<int64>, i: nat, x: int64, b: array<int64>, ghost e: int, ghost m: int)
    requires s.Length == 24 && b.Length == 12 && s != b && i < 12 && Loadable(b[..])
    requires 0 <= x as int < e <= 0x200_0000 && 0 <= m <= 0x10_0000_0000_0000 && UpTo(s[..], m)
    modifies s
    ensures V(s[..]) == V(old(s[..])) + x as int * Pow(W, i) * V(b[..])
    ensures UpTo(s[..], m + e * 0x200_0000)
  {
    ghost var w, t := V(s[..]), s[..];
    assert x as int * Pow(W, i) * V(b[..][..0]) == 0;
    for j := 0 to 12
      invariant V(s[..]) == w + x as int * Pow(W, i) * V(b[..][..j])
      invariant forall k | i + j <= k < 24 :: s[k] == t[k]
      invariant forall k | 0 <= k < 24 :: 0 <= s[k] as int <= m + e * 0x200_0000
    {
      ghost var u := s[..];
      assert b[j] == b[..][j] && s[i + j] == t[i + j];
      ProductRange(x as int, b[j] as int, e);
      s[i + j] := s[i + j] + x * b[j];
      ConvolveStep(u, s[..], b[..], i, j, x as int, w, W);
    }
    assert b[..][..12] == b[..];
  }

  /** The sums of products written out in the source, added to the limbs of c. */
  method Products(a: array<int64>, b: array<int64>, c: array<int64>) returns (s: array<int64>)
    requires a.Length == b.Length == c.Length == 12
    requires Loadable(a[..]) && Loadable(b[..]) && Loadable(c[..])
    ensures fresh(s) && UpTo(s[..], 0x8_0000_0000_0000)
    ensures V(s[..]) == V(a[..]) * V(b[..]) + V(c[..])
  {
    s := Widen(c);
    ghost var v := V(c[..]);
    for i := 0 to 11
      invariant V(s[..]) - v == V(a[..][..i]) * V(b[..])
      invariant UpTo(s[..], 0x200_0000 + i * 0x4000_0000_0000)
    {
      assert a[i] == a[..][i];
      Row(s, i, a[i], b, W, 0x200_0000 + i * 0x4000_0000_0000);
      ConvolveRow(a[..], V(b[..]), i, V(s[..]) - v, W);
    }
    assert a[11] == a[..][11];
    Row(s, 11, a[11], b, 0x200_0000, 0x200_0000 + 11 * 0x4000_0000_0000);
    ConvolveRow(a[..], V(b[..]), 11, V(s[..]) - v, W);
    assert a[..][..12] == a[..];
  }

  method Widen(c: array<int64>) returns (s: array<int64>)
    requires c.Length == 12 && Loadable(c[..])
    ensures fresh(s) && s.Length == 24 && V(s[..]) == V(c[..]) && UpTo(s[..], 0x200_0000)
  {
    s := new int64[24](_ => 0);
    for i := 0 to 12
      invariant forall j | 0 <= j < i :: s[j] == c[j]
      invariant forall j | i <= j < 24 :: s[j] == 0
    {
      s[i] := c[i];
    }
    assert s[..] == c[..] + s[12..] && forall j | 0 <= j < 12 :: s[j] == c[..][j];
    ValAppend(c[..], s[12..], W);
    ValZero(s[12..], W);
  }

  lemma ProductCarried(u: seq<int64>, w: seq<int64>, z: seq<int64>, m: int)
    requires |w| == |z| == 24 && m == 0x8_0000_0000_0000 && UpTo(u, m)
    requires forall k | 0 <= k < 12 :: -HALF <= w[0 + 2 * k] as int <= HALF
    requires forall k | 0 <= k < 12 ::
              u[0 + 2 * k + 1] as int - m / W - 1 <= w[0 + 2 * k + 1] as int <= u[0 + 2 * k + 1] as int + m / W + 1
    requires z[0] == w[0] && z[23] == w[23]
    requires forall k | 0 <= k < 11 :: -HALF <= z[1 + 2 * k] as int <= HALF
    requires forall k | 0 <= k < 11 ::
              w[1 + 2 * k + 1] as int - (m + m / W + 1) / W - 1 <= z[1 + 2 * k + 1] as int
              <= w[1 + 2 * k + 1] as int + (m + m / W + 1) / W + 1
    ensures Within(z, 0, 24, M31)
  {
    forall j | 0 <= j < 24
      ensures -M31 <= z[j] as int <= M31
    {
      if j == 0 {
        assert w[0] == w[0 + 2 * 0];
      } else if j == 23 {
        assert w[23] == w[0 + 2 * 11 + 1];
      } else {
        var k := (j - 1) / 2;
        assert j == 1 + 2 * k || j == 1 + 2 * k + 1;
        assert w[1 + 2 * k + 1] == w[0 + 2 * (k + 1)];
      }
    }
  }

  lemma ProductEvens(u: seq<int64>, w: seq<int64>, m: int)
    requires |w| == 24 && HALF <= m && UpTo(u, m)
    requires forall k | 0 <= k < 12 :: -HALF <= w[0 + 2 * k] as int <= HALF
    requires forall k | 0 <= k < 12 ::
              u[0 + 2 * k + 1] as int - m / W - 1 <= w[0 + 2 * k + 1] as int <= u[0 + 2 * k + 1] as int + m / W + 1
    ensures Within(w, 0, 24, m + m / W + 1)
  {
    forall j | 0 <= j < 24
      ensures -(m + m / W + 1) <= w[j] as int <= m + m / W + 1
    {
      var k := j / 2;
      assert j == 0 + 2 * k || j == 0 + 2 * k + 1;
    }
  }

  /** The carry round of sc_muladd, from limb sums to limbs the reduction takes. */
  method CarryProduct(s: array<int64>)
    requires s.Length == 24 && UpTo(s[..], 0x8_0000_0000_0000)
    modifies s
    ensures V(s[..]) == V(old(s[..])) && Within(s[..], 0, 24, M31)
  {
    ghost var m, u := 0x8_0000_0000_0000, s[..];
    CarryAlternate(s, 0, 12, m);
    ghost var w := s[..];
    ProductEvens(u, w, m);
    CarryAlternate(s, 1, 11, m + m / W + 1);
    ProductCarried(u, w, s[..], m);
  }

  /** sc_muladd: for all 32-byte a, b, c the result is (a b + c) modulo L, canonical. */
  method ScMuladd(a: seq<uint8>, b: seq<uint8>, c: seq<uint8>) returns (o: array<uint8>)
    requires |a| == |b| == |c| == 32
    ensures fresh(o) && o.Length == 32
    ensures LE(o[..]) == (LE(a) * LE(b) + LE(c)) % L
  {
    var al := LoadLimbs(a, 12);
    var bl := LoadLimbs(b, 12);
    var cl := LoadLimbs(c, 12);
    var s := Products(al, bl, cl);
    CarryProduct(s);
    ReduceWithTable(s);
    o := StoreLimbs(s);
  }
}
