/** Arithmetic in GF(2^255 - 19) on sixteen signed 64-bit limbs of 16 bits each. */
module Field25519 {
  import opened Machine
  import opened Modular
  import opened Limbs

  const P := 0x7fff_ffff_ffff_ffff_ffff_ffff_ffff_ffff_ffff_ffff_ffff_ffff_ffff_ffff_ffff_ffed
  const R := 0x1_0000_0000_0000_0000_0000_0000_0000_0000_0000_0000_0000_0000_0000_0000_0000_0000
  const B := 65536

  // Largest limb `Mul` accepts: the sum of two limbs that `Mul` delivers.
  const M := 131146
  // Largest limb `Car` accepts; 39 * 16 * M * M fits below it.
  const CAR_MAX := 0x1000_0000_0000

  ghost function V(s: seq<int64>): (r: int) { Val(s, B) }

  ghost predicate Small(s: seq<int64>) {
    |s| == 16 && forall i | 0 <= i < 16 :: -M <= s[i] as int <= M
  }

  /** What `Mul` delivers: 16-bit limbs, except that limb 0 may be off by 38. */
  ghost predicate Reduced(s: seq<int64>) {
    |s| == 16 && -38 <= s[0] <= 65573 && forall i | 1 <= i < 16 :: 0 <= s[i] < 65536
  }

  ghost predicate Normal(s: seq<int64>) {
    forall i | 0 <= i < |s| :: 0 <= s[i] < 65536
  }

  lemma PowB16()
    ensures Pow(B, 16) == R == 2 * P + 38 && Pow(B, 15) * B == R
  {
    assert Pow(65536, 16) == R;
    assert Pow(65536, 15) * 65536 == R;
  }

  lemma {:induction false} NormalRange(s: seq<int64>)
    requires Normal(s)
    ensures 0 <= V(s) < Pow(B, |s|)
    decreases |s|
  {
    if s != [] {
      NormalRange(s[1..]);
    }
  }

  // ---- carry propagation -------------------------------------------------

  /** Moving a multiple of the base from one limb to the next keeps the number. */
  lemma CarryKeeps(s: seq<int64>, s': seq<int64>, i: nat, q: int)
    requires i + 1 < |s| == |s'|
    requires s'[i] as int == s[i] as int - q * B && s'[i + 1] as int == s[i + 1] as int + q
    requires s' == s[i := s'[i]][i + 1 := s'[i + 1]]
    ensures V(s') == V(s)
  {
    var m := s[i := s'[i]];
    ValUpdate(s, i, s'[i], B);
    ValUpdate(m, i + 1, s'[i + 1], B);
    assert V(s') == V(s) + (-q * B) * Pow(B, i) + q * (B * Pow(B, i));
  }

  /** Out of the top limb a carry re-enters at the bottom times 38. */
  lemma WrapKeeps(s: seq<int64>, s': seq<int64>, q: int)
    requires |s| == |s'| == 16
    requires s'[15] as int == s[15] as int - q * B && s'[0] as int == s[0] as int + 38 * q
    requires s' == s[15 := s'[15]][0 := s'[0]]
    ensures V(s') == V(s) - q * (2 * P)
  {
    var m := s[15 := s'[15]];
    ValUpdate(s, 15, s'[15], B);
    ValUpdate(m, 0, s'[0], B);
    PowB16();
    assert Pow(B, 0) == 1;
    assert V(s') == V(s) + (-q * B) * Pow(B, 15) + 38 * q;
    assert (-q * B) * Pow(B, 15) == -q * R;
  }

  method Car(o: array<int64>) returns (ghost q: int)
    requires o.Length == 16
    requires forall i | 0 <= i < 16 :: -CAR_MAX <= o[i] as int <= CAR_MAX
    modifies o
    ensures V(o[..]) == V(old(o[..])) - q * (2 * P)
    ensures 0 <= o[0] as int - 38 * q < B
    ensures forall i | 1 <= i < 16 :: 0 <= o[i] < 65536
    ensures -0x4000_0000 <= q <= 0x4000_0000
  {
    q := 0;
    for i := 0 to 16
      invariant i < 16 ==> V(o[..]) == V(old(o[..])) && q == 0
      invariant i == 16 ==> V(o[..]) == V(old(o[..])) - q * (2 * P)
      invariant -0x4000_0000 <= q <= 0x4000_0000
      invariant i > 0 ==> 0 <= o[0] as int - 38 * q < B
      invariant forall j | 1 <= j < i :: 0 <= o[j] < 65536
      invariant i < 16 ==> -2 * CAR_MAX <= o[i] as int <= 2 * CAR_MAX
      invariant forall j | i < j < 16 :: -CAR_MAX <= o[j] as int <= CAR_MAX
    {
      ghost var s := o[..];
      o[i] := o[i] + 65536;
      var c := o[i] / 65536;
      var k := if i < 15 then i + 1 else 0;
      o[k] := o[k] + (c - 1 + (if i == 15 then 37 * (c - 1) else 0));
      o[i] := o[i] - c * 65536;
      ghost var d := c as int - 1;
      assert o[..] == s[i := o[i]][k := o[k]];
      if i < 15 {
        CarryKeeps(s, o[..], i, d);
      } else {
        q := d;
        WrapKeeps(s, o[..], d);
      }
    }
  }

  lemma FirstLimb(s: seq<int64>, w: int64)
    requires s != []
    ensures V(s[0 := w]) == V(s) + w as int - s[0] as int == w as int + B * V(s[0 := w][1..])
  {
    ValUpdate(s, 0, w, B);
    assert Pow(B, 0) == 1;
  }

  /** With 16-bit limbs on both sides of the carry, the quotient is the number
      divided by 2^256, rounded down. */
  lemma CarQuotient(s: seq<int64>, v: int, q: int)
    requires |s| == 16 && V(s) == v - q * (2 * P)
    requires 0 <= s[0] as int - 38 * q < B
    requires forall i | 1 <= i < 16 :: 0 <= s[i] < 65536
    ensures v - q * R == V(s) - 38 * q
    ensures 0 <= V(s) - 38 * q < R
  {
    hide Val, Pow;
    var w := (s[0] as int - 38 * q) as int64;
    var u := s[0 := w];
    FirstLimb(s, w);
    NormalRange(u);
    PowB16();
  }

  // ---- ring operations ---------------------------------------------------

  method Copy(o: array<int64>, a: array<int64>)
    requires o.Length == a.Length == 16
    modifies o
    ensures o[..] == old(a[..])
  {
    for i := 0 to 16
      invariant a[..] == old(a[..])
      invariant forall j | 0 <= j < i :: o[j] == old(a[j])
    {
      o[i] := a[i];
    }
  }

  method Add(o: array<int64>, a: array<int64>, b: array<int64>)
    requires o.Length == a.Length == b.Length == 16
    requires Reduced(a[..]) && Reduced(b[..])
    modifies o
    ensures Small(o[..]) && V(o[..]) == V(old(a[..])) + V(old(b[..]))
  {
    for i := 0 to 16
      invariant forall j | i <= j < 16 :: a[j] == old(a[j]) && b[j] == old(b[j])
      invariant forall j | 0 <= j < i :: o[j] as int == old(a[j]) as int + old(b[j]) as int
    {
      assert a[i] == old(a[..])[i] && b[i] == old(b[..])[i];
      o[i] := a[i] + b[i];
    }
    ValSum(old(a[..]), old(b[..]), o[..], 1, B);
  }

  method Sub(o: array<int64>, a: array<int64>, b: array<int64>)
    requires o.Length == a.Length == b.Length == 16
    requires Reduced(a[..]) && Reduced(b[..])
    modifies o
    ensures Small(o[..]) && V(o[..]) == V(old(a[..])) - V(old(b[..]))
  {
    for i := 0 to 16
      invariant forall j | i <= j < 16 :: a[j] == old(a[j]) && b[j] == old(b[j])
      invariant forall j | 0 <= j < i :: o[j] as int == old(a[j]) as int - old(b[j]) as int
    {
      assert a[i] == old(a[..])[i] && b[i] == old(b[..])[i];
      o[i] := a[i] - b[i];
    }
    ValSum(old(a[..]), old(b[..]), o[..], -1, B);
  }

  method Convolve(a: array<int64>, b: array<int64>) returns (t: array<int64>)
    requires a.Length == b.Length == 16
    requires Small(a[..]) && Small(b[..])
    ensures fresh(t) && t.Length == 31
    ensures V(t[..]) == V(a[..]) * V(b[..])
    ensures forall k | 0 <= k < 31 :: -16 * (M * M) <= t[k] as int <= 16 * (M * M)
  {
    t := new int64[31](_ => 0);
    ValZero(t[..], B);
    for i := 0 to 16
      invariant V(t[..]) == V(a[..][..i]) * V(b[..])
      invariant forall k | 0 <= k < 31 :: -i * (M * M) <= t[k] as int <= i * (M * M)
    {
      ghost var w := V(t[..]);
      ghost var x := a[i] as int;
      assert x == a[..][i] as int;
      assert x * Pow(B, i) * V(b[..][..0]) == 0;
      for j := 0 to 16
        invariant V(t[..]) == w + x * Pow(B, i) * V(b[..][..j])
        invariant forall k | 0 <= k < 31 :: -(i + 1) * (M * M) <= t[k] as int <= (i + 1) * (M * M)
        invariant forall k | i + j <= k < 31 :: -i * (M * M) <= t[k] as int <= i * (M * M)
      {
        ghost var s := t[..];
        assert b[j] == b[..][j];
        ProductBound(a[i] as int, b[j] as int, M);
        t[i + j] := t[i + j] + a[i] * b[j];
        ConvolveStep(s, t[..], b[..], i, j, x, w, B);
      }
      assert b[..][..16] == b[..];
      ConvolveRow(a[..], V(b[..]), i, V(t[..]), B);
    }
    assert a[..][..16] == a[..];
  }

  /** Folding the high half of a product back, times 38, keeps the residue. */
  lemma FoldKeeps(u: seq<int64>, r: seq<int64>)
    requires |u| == 31 && |r| == 16
    requires forall i | 0 <= i < 15 :: r[i] as int == u[i] as int + 38 * u[i + 16] as int
    requires r[15] == u[15]
    ensures Cong(V(r), V(u), P)
  {
    var lo, hi := u[..16], u[16..];
    ValSum(lo, hi, r, 38, B);
    assert u == lo + hi;
    ValAppend(lo, hi, B);
    PowB16();
    assert V(r) == V(u) + (-2 * V(hi)) * P;
    CongIntro(V(r), V(u), -2 * V(hi), P);
  }

  /** The two carry passes that close a multiplication. */
  method CarTwice(o: array<int64>)
    requires o.Length == 16
    requires forall i | 0 <= i < 16 :: -CAR_MAX <= o[i] as int <= CAR_MAX
    modifies o
    ensures Reduced(o[..])
    ensures Cong(V(o[..]), V(old(o[..])), P)
  {
    ghost var v0 := V(o[..]);
    ghost var q1 := Car(o);
    ghost var v1 := V(o[..]);
    CarQuotient(o[..], v0, q1);
    ghost var q2 := Car(o);
    CarQuotient(o[..], v1, q2);
    CongIntro(V(o[..]), v0, -2 * (q1 + q2), P);
  }

  method FoldHigh(t: array<int64>)
    requires t.Length == 31
    requires forall k | 0 <= k < 31 :: -16 * (M * M) <= t[k] as int <= 16 * (M * M)
    modifies t
    ensures Cong(V(t[..16]), V(old(t[..])), P)
    ensures forall k | 0 <= k < 16 :: -CAR_MAX <= t[k] as int <= CAR_MAX
  {
    ghost var u := t[..];
    assert forall k | 0 <= k < 31 :: -16 * (M * M) <= u[k] as int <= 16 * (M * M);
    for i := 0 to 15
      invariant forall j | 0 <= j < i :: t[j] as int == u[j] as int + 38 * u[j + 16] as int
      invariant forall j | i <= j < 31 :: t[j] == u[j]
    {
      t[i] := t[i] + 38 * t[i + 16];
    }
    FoldKeeps(u, t[..16]);
    forall k | 0 <= k < 16
      ensures -CAR_MAX <= t[k] as int <= CAR_MAX
    {
      if k < 15 {
        assert t[k] as int == u[k] as int + 38 * u[k + 16] as int;
      } else {
        assert t[k] == u[k];
      }
    }
  }

  method Mul(o: array<int64>, a: array<int64>, b: array<int64>)
    requires o.Length == a.Length == b.Length == 16
    requires Small(a[..]) && Small(b[..])
    modifies o
    ensures Reduced(o[..])
    ensures Cong(V(o[..]), V(old(a[..])) * V(old(b[..])), P)
  {
    var t := Convolve(a, b);
    FoldHigh(t);
    ghost var f := t[..16];
    for i := 0 to 16
      invariant t[..16] == f && o[..i] == f[..i]
    {
      o[i] := t[i];
    }
    assert o[..] == f;
    CarTwice(o);
  }

  method Sq(o: array<int64>, a: array<int64>)
    requires o.Length == a.Length == 16 && Small(a[..])
    modifies o
    ensures Reduced(o[..])
    ensures Cong(V(o[..]), V(old(a[..])) * V(old(a[..])), P)
  {
    Mul(o, a, a);
  }

  /** Exchange of two elements when `b` is 1.  The source selects with an
      all-ones or all-zeros mask; the exchange below is what the mask selects. */
  method Sel(p: array<int64>, q: array<int64>, b: int)
    requires p != q && p.Length == q.Length == 16 && 0 <= b <= 1
    modifies p, q
    ensures b == 0 ==> p[..] == old(p[..]) && q[..] == old(q[..])
    ensures b == 1 ==> p[..] == old(q[..]) && q[..] == old(p[..])
  {
    for i := 0 to 16
      invariant forall j | 0 <= j < 16 :: p[j] == if j < i && b == 1 then old(q[j]) else old(p[j])
      invariant forall j | 0 <= j < 16 :: q[j] == if j < i && b == 1 then old(p[j]) else old(q[j])
    {
      if b == 1 {
        p[i], q[i] := q[i], p[i];
      }
    }
  }

  // ---- packing -----------------------------------------------------------

  /** Three carry passes bring any `Small` element to sixteen 16-bit limbs. */
  method CarThrice(t: array<int64>)
    requires t.Length == 16 && Small(t[..])
    modifies t
    ensures Normal(t[..])
    ensures Cong(V(t[..]), V(old(t[..])), P)
  {
    assert forall i | 0 <= i < 16 :: t[i] == t[..][i];
    CarTwice(t);
    ghost var v, s := V(t[..]), t[..];
    ghost var q := Car(t);
    CarQuotient(t[..], v, q);
    CongIntro(V(t[..]), v, -2 * q, P);
    ThirdCarry(s, t[..], q);
  }

  lemma ThirdCarry(s: seq<int64>, t: seq<int64>, q: int)
    requires Reduced(s) && |t| == 16 && V(t) == V(s) - q * (2 * P)
    requires 0 <= t[0] as int - 38 * q < B && forall i | 1 <= i < 16 :: 0 <= t[i] < 65536
    ensures Normal(t)
  {
    hide Val, Pow;
    CarQuotient(t, V(s), q);
    var w := if s[0] < 0 then 0 else if s[0] > 65535 then 65535 else s[0];
    var u := s[0 := w];
    FirstLimb(s, w);
    NormalRange(u);
    PowB16();
    assert -38 <= V(s) < R + 38;
    var low := (t[0] as int - 38 * q) as int64;
    var n := t[0 := low];
    FirstLimb(t, low);
    NormalRange(n[1..]);
    assert V(n) == V(s) - q * R;
  }

  // The limbs of P.
  const PL: seq<int64> := [0xffed, 0xffff, 0xffff, 0xffff, 0xffff, 0xffff, 0xffff, 0xffff,
                           0xffff, 0xffff, 0xffff, 0xffff, 0xffff, 0xffff, 0xffff, 0x7fff]

  lemma PLValue()
    ensures |PL| == 16 && V(PL[..16]) == P
  {
    assert PL[..0] == [];
    ValPrefix(PL, 0, B); ValPrefix(PL, 1, B); ValPrefix(PL, 2, B); ValPrefix(PL, 3, B);
    ValPrefix(PL, 4, B); ValPrefix(PL, 5, B); ValPrefix(PL, 6, B); ValPrefix(PL, 7, B);
    ValPrefix(PL, 8, B); ValPrefix(PL, 9, B); ValPrefix(PL, 10, B); ValPrefix(PL, 11, B);
    ValPrefix(PL, 12, B); ValPrefix(PL, 13, B); ValPrefix(PL, 14, B); ValPrefix(PL, 15, B);
  }

  /** The difference t - P of the first i limbs, the last of them still signed. */
  ghost predicate Diff(t: seq<int64>, m: seq<int64>, i: nat)
    requires 1 <= i <= 16 == |t| && |m| == 16
  {
    V(m[..i - 1]) + m[i - 1] as int * Pow(B, i - 1) == V(t[..i]) - V(PL[..i])
  }

  lemma DiffStep(t: seq<int64>, m: seq<int64>, m': seq<int64>, i: nat, borrow: int)
    requires 1 <= i < 16 == |t| == |m| == |m'| && Diff(t, m, i)
    requires m'[..i - 1] == m[..i - 1]
    requires m'[i - 1] as int == m[i - 1] as int + B * borrow
    requires m'[i] as int == t[i] as int - PL[i] as int - borrow
    ensures Diff(t, m', i + 1)
  {
    ValPrefix(t, i, B);
    ValPrefix(PL, i, B);
    ValPrefix(m', i - 1, B);
    assert m'[..i][..i - 1] == m'[..i - 1];
    DiffAlgebra(m[i - 1] as int, t[i] as int, PL[i] as int, borrow, Pow(B, i - 1));
  }

  lemma DiffAlgebra(m: int, t: int, c: int, borrow: int, p: int)
    ensures (m + B * borrow) * p + (t - c - borrow) * (B * p) == m * p + t * (B * p) - c * (B * p)
  {
    assert (B * borrow) * p == borrow * (B * p);
  }

  /** One limb of the subtraction: limb i takes the borrow of limb i - 1. */
  method BorrowLimb(t: array<int64>, m: array<int64>, i: nat)
    requires t.Length == m.Length == 16 && t != m && Normal(t[..])
    requires 1 <= i < 16 && Diff(t[..], m[..], i) && -65536 <= m[i - 1] < 65536
    modifies m
    ensures Diff(t[..], m[..], i + 1)
    ensures -65536 <= m[i] < 65536 && 0 <= m[i - 1] < 65536
    ensures forall j | 0 <= j < i - 1 :: m[j] == old(m[j])
  {
    ghost var m0 := m[..];
    var borrow := (m[i - 1] / 65536) % 2;
    assert 0 <= t[..][i] < 65536;
    m[i] := t[i] - PL[i] - borrow;
    m[i - 1] := m[i - 1] % 65536;
    DiffStep(t[..], m0, m[..], i, borrow as int);
  }

  method BorrowFirst(t: array<int64>, m: array<int64>)
    requires t.Length == m.Length == 16 && t != m && Normal(t[..])
    modifies m
    ensures Diff(t[..], m[..], 1) && -65536 <= m[0] < 65536
  {
    assert 0 <= t[..][0] < 65536;
    m[0] := t[0] - PL[0];
    ValPrefix(t[..], 0, B);
    ValPrefix(PL, 0, B);
    assert m[..][..0] == t[..][..0] == PL[..0] == [] && Pow(B, 0) == 1;
  }

  /** Subtracts P from t into m; the result is 1 when t is below P. */
  method Borrow(t: array<int64>, m: array<int64>) returns (b: int)
    requires t.Length == m.Length == 16 && t != m && Normal(t[..])
    modifies m
    ensures b == if V(t[..]) < P then 1 else 0
    ensures b == 0 ==> Normal(m[..]) && V(m[..]) == V(t[..]) - P
  {
    hide Diff;
    BorrowFirst(t, m);
    for i := 1 to 16
      invariant Diff(t[..], m[..], i)
      invariant -65536 <= m[i - 1] < 65536
      invariant forall j | 0 <= j < i - 1 :: 0 <= m[j] < 65536
    {
      BorrowLimb(t, m, i);
    }
    b := (m[15] as int / 65536) % 2;
    DiffSign(t[..], m[..]);
  }

  lemma DiffSign(t: seq<int64>, m: seq<int64>)
    requires Normal(t) && |t| == |m| == 16 && Diff(t, m, 16)
    requires -65536 <= m[15] < 65536 && forall j | 0 <= j < 15 :: 0 <= m[j] < 65536
    ensures m[15] < 0 <==> V(t) < P
    ensures m[15] >= 0 ==> Normal(m) && V(m) == V(t) - P
  {
    PLValue();
    assert t[..16] == t && m[..16] == m;
    NormalRange(m[..15]);
    ValPrefix(m, 15, B);
    var p := Pow(B, 15);
    assert m[15] < 0 ==> m[15] as int * p <= -p;
    assert m[15] >= 0 ==> m[15] as int * p >= 0;
  }

  lemma {:induction false} BytePairs(i: nat)
    ensures Pow(256, 2 * i) == Pow(B, i)
  {
    if i > 0 {
      BytePairs(i - 1);
      assert Pow(256, 2 * i) == 256 * Pow(256, 2 * i - 1);
    }
  }

  lemma PairAlgebra(v: int, x: int, y: int, t: int, p: int)
    requires t == x + 256 * y
    ensures v + x * p + y * (256 * p) == v + t * p
  {
    assert y * (256 * p) == (256 * y) * p;
    assert (x + 256 * y) * p == x * p + (256 * y) * p;
  }

  /** Two bytes are one limb. */
  lemma BytesOfLimb(o: seq<uint8>, t: seq<int64>, i: nat)
    requires |o| == 2 * |t| && i < |t| && LE(o[..2 * i]) == V(t[..i])
    requires t[i] as int == o[2 * i] as int + 256 * o[2 * i + 1] as int
    ensures LE(o[..2 * (i + 1)]) == V(t[..i + 1])
  {
    BytePairs(i);
    assert Pow(256, 2 * i + 1) == 256 * Pow(256, 2 * i);
    hide LE, Pow, Val;
    LEPrefix(o, 2 * i);
    LEPrefix(o, 2 * i + 1);
    ValPrefix(t, i, B);
    PairAlgebra(V(t[..i]), o[2 * i] as int, o[2 * i + 1] as int, t[i] as int, Pow(B, i));
  }

  /** Two conditional subtractions of P, enough for any 256-bit number. */
  method SubtractTwice(t: array<int64>)
    requires t.Length == 16 && Normal(t[..])
    modifies t
    ensures Normal(t[..]) && V(t[..]) == V(old(t[..])) % P
  {
    ghost var v := V(t[..]);
    assert 0 <= v < 2 * P + 38 by { NormalRange(t[..]); PowB16(); }
    var m := new int64[16];
    for j := 0 to 2
      invariant Normal(t[..])
      invariant V(t[..]) == v || V(t[..]) == v - P || V(t[..]) == v - 2 * P
      invariant 0 <= V(t[..]) < (2 - j) * P + 38 || 0 <= V(t[..]) < P
    {
      var b := Borrow(t, m);
      Sel(t, m, 1 - b);
    }
    CongMod(v, P);
    PackResidue(v, v, V(t[..]));
  }

  method StoreLimbs(t: array<int64>) returns (o: array<uint8>)
    requires t.Length == 16 && Normal(t[..])
    ensures fresh(o) && o.Length == 32 && LE(o[..]) == V(t[..])
  {
    o := new uint8[32](_ => 0);
    for i := 0 to 16
      invariant LE(o[..][..2 * i]) == V(t[..][..i])
    {
      ghost var before := o[..][..2 * i];
      assert 0 <= t[..][i] < 65536;
      o[2 * i] := (t[i] % 256) as uint8;
      o[2 * i + 1] := ((t[i] / 256) % 256) as uint8;
      assert o[..][..2 * i] == before;
      BytesOfLimb(o[..], t[..], i);
    }
    assert o[..][..32] == o[..] && t[..][..16] == t[..];
  }

  /** Packing is canonical: the bytes are those of the residue below P. */
  method Pack(n: array<int64>) returns (o: array<uint8>)
    requires n.Length == 16 && Small(n[..])
    ensures fresh(o) && o.Length == 32
    ensures LE(o[..]) == V(n[..]) % P
  {
    var t := new int64[16];
    Copy(t, n);
    CarThrice(t);
    SubtractTwice(t);
    o := StoreLimbs(t);
  }

  lemma PackResidue(n: int, v: int, r: int)
    requires Cong(v, n, P) && 0 <= r < P && (r == v || r == v - P || r == v - 2 * P)
    ensures r == n % P
  {
    CongIntro(r, v, if r == v then 0 else if r == v - P then -1 else -2, P);
    DivModUnique(r, 0, r, P);
  }

  method Unpack(n: seq<uint8>) returns (o: array<int64>)
    requires |n| == 32
    ensures fresh(o) && o.Length == 16 && Normal(o[..])
    ensures V(o[..]) == LE(n) % (R / 2)
  {
    o := new int64[16](_ => 0);
    assert LE(n[..0]) == V(o[..][..0]);
    hide LE, Val;
    for i := 0 to 16
      invariant forall j | 0 <= j < i :: 0 <= o[j] < 65536
      invariant LE(n[..2 * i]) == V(o[..][..i])
    {
      ghost var before := o[..][..i];
      o[i] := n[2 * i] as int64 + n[2 * i + 1] as int64 * 256;
      assert o[..][..i] == before;
      BytesOfLimb(n, o[..], i);
    }
    assert n[..32] == n && o[..][..16] == o[..];
    ghost var s := o[..];
    o[15] := o[15] % 32768;
    assert o[..] == s[15 := o[15]];
    TopBitCleared(s, o[..]);
  }

  lemma TopBitCleared(s: seq<int64>, o: seq<int64>)
    requires |s| == 16 && Normal(s) && 0 <= s[15] && o == s[15 := s[15] % 32768]
    ensures V(o) == V(s) % (R / 2)
  {
    hide Val, Pow;
    var k := s[15] as int / 32768;
    ValUpdate(s, 15, o[15], B);
    PowB16();
    assert V(o) == V(s) - k * (R / 2);
    NormalRange(o[..15]);
    ValPrefix(o, 15, B);
    assert o[..16] == o;
    assert V(o) < R / 2;
    NormalRange(o);
    DivModUnique(V(s), k, V(o), R / 2);
  }

  // ---- inversion ---------------------------------------------------------

  ghost predicate IsPow(s: seq<int64>, z: int, e: nat) {
    Reduced(s) && Cong(V(s), Pow(z, e), P)
  }

  method MulPow(o: array<int64>, a: array<int64>, b: array<int64>, ghost z: int, ghost x: nat, ghost y: nat)
    requires o.Length == a.Length == b.Length == 16
    requires Small(a[..]) && Cong(V(a[..]), Pow(z, x), P)
    requires Small(b[..]) && Cong(V(b[..]), Pow(z, y), P)
    modifies o
    ensures IsPow(o[..], z, x + y)
  {
    CongMul(V(a[..]), Pow(z, x), V(b[..]), Pow(z, y), P);
    PowAdd(z, x, y);
    Mul(o, a, b);
  }

  ghost function Twice(e: nat, n: nat): nat {
    if n == 0 then e else 2 * Twice(e, n - 1)
  }

  /** `n` squarings in place, as each inner loop of the inversion does. */
  method SqTimes(t: array<int64>, n: nat, ghost z: int, ghost e: nat)
    requires t.Length == 16 && IsPow(t[..], z, e)
    modifies t
    ensures IsPow(t[..], z, Twice(e, n))
  {
    for i := 0 to n
      invariant IsPow(t[..], z, Twice(e, i))
    {
      MulPow(t, t, t, z, Twice(e, i), Twice(e, i));
    }
  }

  /** The repeated block of the inversion: square `a` n times into `t`, then
      multiply by `b`. */
  method Stretch(o: array<int64>, t: array<int64>, a: array<int64>, b: array<int64>, n: nat,
                 ghost z: int, ghost x: nat, ghost y: nat)
    requires o.Length == t.Length == a.Length == b.Length == 16 && t != b
    requires IsPow(a[..], z, x) && IsPow(b[..], z, y) && n > 0
    modifies o, t
    ensures IsPow(o[..], z, Twice(x, n) + y)
  {
    MulPow(t, a, a, z, x, x);
    SqTimes(t, n - 1, z, 2 * x);
    TwiceShift(x, n - 1);
    MulPow(o, t, b, z, Twice(x, n), y);
  }

  lemma {:induction false} TwiceShift(e: nat, n: nat)
    ensures Twice(2 * e, n) == Twice(e, n + 1)
  {
    if n > 0 {
      TwiceShift(e, n - 1);
    }
  }

  /** z^11 and z^31, the two small powers the chain is built from. */
  method InvertStart(z11: array<int64>, z5: array<int64>, zz: array<int64>)
    requires z11.Length == z5.Length == zz.Length == 16
    requires z11 != z5 && z11 != zz && z5 != zz && Small(zz[..])
    modifies z11, z5
    ensures IsPow(z11[..], V(zz[..]), 11) && IsPow(z5[..], V(zz[..]), Ones(5))
  {
    ghost var z := V(zz[..]);
    var z2, z9, t := new int64[16], new int64[16], new int64[16];
    assert Pow(z, 1) == z * Pow(z, 0);
    MulPow(z2, zz, zz, z, 1, 1);
    MulPow(t, z2, z2, z, 2, 2);
    MulPow(t, t, t, z, 4, 4);
    MulPow(z9, t, zz, z, 8, 1);
    MulPow(z11, z9, z2, z, 9, 2);
    MulPow(t, z11, z11, z, 11, 11);
    MulPow(z5, t, z9, z, 22, 9);
    assert Ones(5) == 31;
  }

  /** 2^k - 1. */
  ghost function Ones(k: nat): nat {
    if k == 0 then 0 else 2 * Ones(k - 1) + 1
  }

  lemma {:induction false} OnesAdd(a: nat, n: nat)
    ensures Twice(Ones(a), n) + Ones(n) == Ones(a + n)
    decreases n
  {
    if n > 0 {
      OnesAdd(a, n - 1);
    }
  }

  /** From z^(2^x - 1) and z^(2^n - 1) to z^(2^(x + n) - 1). */
  method StretchOnes(o: array<int64>, t: array<int64>, a: array<int64>, b: array<int64>, n: nat,
                     ghost z: int, ghost x: nat)
    requires o.Length == t.Length == a.Length == b.Length == 16 && t != b && n > 0
    requires IsPow(a[..], z, Ones(x)) && IsPow(b[..], z, Ones(n))
    modifies o, t
    ensures IsPow(o[..], z, Ones(x + n))
  {
    OnesAdd(x, n);
    Stretch(o, t, a, b, n, z, Ones(x), Ones(n));
  }

  lemma {:induction false} TwiceMul(e: nat, n: nat)
    ensures Twice(e, n) == e * (Ones(n) + 1)
  {
    if n > 0 {
      TwiceMul(e, n - 1);
      assert 2 * (e * (Ones(n - 1) + 1)) == e * (2 * (Ones(n - 1) + 1));
    }
  }

  lemma OnesDouble(a: nat, n: nat)
    ensures Ones(a + n) == Ones(a) * (Ones(n) + 1) + Ones(n)
  {
    OnesAdd(a, n);
    TwiceMul(Ones(a), n);
  }

  lemma OnesValue(a: nat, n: nat, x: nat, y: nat)
    requires Ones(a) == x && Ones(n) == y
    ensures Ones(a + n) == x * (y + 1) + y
  {
    OnesDouble(a, n);
  }

  lemma ChainEnd(k: nat)
    requires k == 5
    ensures Twice(Ones(50 * k), k) + 11 == P - 2
  {
    OnesLong(k);
    TwiceMul(Ones(50 * k), k);
    assert Ones(5) == 31;
  }

  lemma OnesLong(k: nat)
    requires k == 5
    ensures 32 * Ones(50 * k) + 13 == P
  {
    assert Ones(5) == 31;
    OnesValue(k, k, 31, 31);
    OnesValue(2 * k, 2 * k, 0x3ff, 0x3ff);
    OnesValue(4 * k, 4 * k, 0xfffff, 0xfffff);
    OnesValue(8 * k, 2 * k, 0xff_ffff_ffff, 0x3ff);
    OnesValue(10 * k, 10 * k, 0x3_ffff_ffff_ffff, 0x3_ffff_ffff_ffff);
    OnesValue(20 * k, 20 * k, 0xf_ffff_ffff_ffff_ffff_ffff_ffff, 0xf_ffff_ffff_ffff_ffff_ffff_ffff);
    OnesValue(40 * k, 10 * k, 0xff_ffff_ffff_ffff_ffff_ffff_ffff_ffff_ffff_ffff_ffff_ffff_ffff, 0x3_ffff_ffff_ffff);
  }

  // The squaring counts 5, 10, 20, 50 and 100 of the chain are multiples of k = 5.

  /** From z^(2^5 - 1) to z^(2^50 - 1). */
  method InvertMiddle(z50: array<int64>, z5: array<int64>, ghost z: int, k: nat)
    requires z50.Length == z5.Length == 16 && z50 != z5 && k == 5 && IsPow(z5[..], z, Ones(k))
    modifies z50
    ensures IsPow(z50[..], z, Ones(10 * k))
  {
    var z10, z20, t := new int64[16], new int64[16], new int64[16];
    StretchOnes(z10, t, z5, z5, k, z, k);
    StretchOnes(z20, t, z10, z10, 2 * k, z, 2 * k);
    StretchOnes(t, t, z20, z20, 4 * k, z, 4 * k);
    StretchOnes(z50, t, t, z10, 2 * k, z, 8 * k);
  }

  /** From z^(2^50 - 1) to z^(2^250 - 1). */
  method InvertLong(t: array<int64>, z50: array<int64>, ghost z: int, k: nat)
    requires t.Length == z50.Length == 16 && t != z50 && k == 5 && IsPow(z50[..], z, Ones(10 * k))
    modifies t
    ensures IsPow(t[..], z, Ones(50 * k))
  {
    var z100 := new int64[16];
    StretchOnes(z100, t, z50, z50, 10 * k, z, 10 * k);
    StretchOnes(t, t, z100, z100, 20 * k, z, 20 * k);
    StretchOnes(t, t, t, z50, 10 * k, z, 40 * k);
  }

  /** The addition chain computes z^(P - 2). */
  method Invert(out: array<int64>, zz: array<int64>)
    requires out.Length == zz.Length == 16 && out != zz && Small(zz[..])
    modifies out
    ensures Reduced(out[..])
    ensures Cong(V(out[..]), Pow(V(zz[..]), P - 2), P)
  {
    hide Pow, V, Ones, Twice, Cong, Small;
    var k := 5;
    var z11, z5, z50, t := new int64[16], new int64[16], new int64[16], new int64[16];
    InvertStart(z11, z5, zz);
    InvertMiddle(z50, z5, V(zz[..]), k);
    InvertLong(t, z50, V(zz[..]), k);
    Stretch(out, t, t, z11, k, V(zz[..]), Ones(50 * k), 11);
    ChainEnd(k);
  }

  // ---- the square-root exponent ---------------------------------------------

  lemma PowOne(z: int)
    ensures Pow(z, 1) == z
  {
    assert Pow(z, 1) == z * Pow(z, 0);
  }

  /** a^31 with the two registers of the chain. */
  method RootStart(t0: array<int64>, t1: array<int64>, a: array<int64>)
    requires t0.Length == t1.Length == a.Length == 16 && t0 != t1 && t0 != a && t1 != a && Small(a[..])
    modifies t0, t1
    ensures IsPow(t0[..], V(a[..]), Ones(5))
  {
    ghost var z := V(a[..]);
    assert Pow(z, 1) == z * Pow(z, 0);
    MulPow(t0, a, a, z, 1, 1);
    MulPow(t1, t0, t0, z, 2, 2);
    MulPow(t1, t1, t1, z, 4, 4);
    MulPow(t1, a, t1, z, 1, 8);
    MulPow(t0, t0, t1, z, 2, 9);
    MulPow(t0, t0, t0, z, 11, 11);
    MulPow(t0, t1, t0, z, 9, 22);
    assert Ones(5) == 31;
  }

  /** From a^(2^5 - 1) to a^(2^50 - 1), in place. */
  method RootMiddle(t0: array<int64>, t1: array<int64>, t2: array<int64>, ghost z: int, k: nat)
    requires t0.Length == t1.Length == t2.Length == 16 && t0 != t1 && t0 != t2 && t1 != t2 && k == 5
    requires IsPow(t0[..], z, Ones(k))
    modifies t0, t1, t2
    ensures IsPow(t0[..], z, Ones(10 * k))
  {
    StretchOnes(t0, t1, t0, t0, k, z, k);
    StretchOnes(t1, t1, t0, t0, 2 * k, z, 2 * k);
    StretchOnes(t1, t2, t1, t1, 4 * k, z, 4 * k);
    StretchOnes(t0, t1, t1, t0, 2 * k, z, 8 * k);
  }

  /** From a^(2^50 - 1) to a^(2^250 - 1), in place. */
  method RootLong(t0: array<int64>, t1: array<int64>, t2: array<int64>, ghost z: int, k: nat)
    requires t0.Length == t1.Length == t2.Length == 16 && t0 != t1 && t0 != t2 && t1 != t2 && k == 5
    requires IsPow(t0[..], z, Ones(10 * k))
    modifies t0, t1, t2
    ensures IsPow(t0[..], z, Ones(50 * k))
  {
    StretchOnes(t1, t1, t0, t0, 10 * k, z, 10 * k);
    StretchOnes(t1, t2, t1, t1, 20 * k, z, 20 * k);
    StretchOnes(t0, t1, t1, t0, 10 * k, z, 40 * k);
  }

  lemma RootEnd(k: nat)
    requires k == 5
    ensures Twice(Ones(50 * k), 2) + 1 == (P - 5) / 8
  {
    OnesLong(k);
    TwiceMul(Ones(50 * k), 2);
    assert Ones(2) == 3;
  }

  /** The law the chain is for: eighth power times cube is the inverse. */
  lemma RootLaw(o: int, z: int)
    requires Cong(o, Pow(z, (P - 5) / 8), P)
    ensures Cong(Pow(o, 8) * Pow(z, 3), Pow(z, P - 2), P)
  {
    hide Pow;
    var e := (P - 5) / 8;
    CongPow(o, Pow(z, e), 8, P);
    PowPow(z, e, 8);
    CongMul(Pow(o, 8), Pow(z, 8 * e), Pow(z, 3), Pow(z, 3), P);
    PowAdd(z, 8 * e, 3);
  }

  /** gf_pow2523: a^(2^252 - 3), also when the output is the input. */
  method Pow2523(o: array<int64>, a: array<int64>)
    requires o.Length == a.Length == 16 && Small(a[..])
    modifies o
    ensures Reduced(o[..])
    ensures Cong(V(o[..]), Pow(old(V(a[..])), (P - 5) / 8), P)
    ensures Cong(Pow(V(o[..]), 8) * Pow(old(V(a[..])), 3), Pow(old(V(a[..])), P - 2), P)
  {
    hide Pow, V, Ones, Twice, Cong, Small;
    var k := 5;
    ghost var z := V(a[..]);
    var t0, t1, t2 := new int64[16], new int64[16], new int64[16];
    RootStart(t0, t1, a);
    RootMiddle(t0, t1, t2, z, k);
    RootLong(t0, t1, t2, z, k);
    SqTimes(t0, 2, z, Ones(50 * k));
    PowOne(z);
    MulPow(o, t0, a, z, Twice(Ones(50 * k), 2), 1);
    RootEnd(k);
    RootLaw(V(o[..]), z);
  }
}
