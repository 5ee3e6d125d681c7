/** The X25519 function: limb-level code against the ladder of section 5 of RFC 7748. */
module X25519 {
  import opened Machine
  import opened Modular
  import opened Limbs
  import opened Field25519

  const A24 := 121665

  // ---- the ladder over the integers modulo P ------------------------------

  ghost function Sqr(x: int): int { x * x }
  ghost function DoubleX(x: int, z: int): int { Sqr(x + z) * Sqr(x - z) }
  ghost function DoubleZ(x: int, z: int): int {
    var e := Sqr(x + z) - Sqr(x - z);
    e * (Sqr(x + z) + A24 * e)
  }
  ghost function AddX(x2: int, z2: int, x3: int, z3: int): int {
    Sqr((x3 - z3) * (x2 + z2) + (x3 + z3) * (x2 - z2))
  }
  ghost function AddZ(u: int, x2: int, z2: int, x3: int, z3: int): int {
    Sqr((x3 - z3) * (x2 + z2) - (x3 + z3) * (x2 - z2)) * u
  }

  datatype Ladder = Ladder(x2: int, z2: int, x3: int, z3: int)

  ghost function Step(u: int, s: Ladder): Ladder {
    Ladder(DoubleX(s.x2, s.z2) % P, DoubleZ(s.x2, s.z2) % P,
           AddX(s.x2, s.z2, s.x3, s.z3) % P, AddZ(u, s.x2, s.z2, s.x3, s.z3) % P)
  }

  ghost function CSwap(swap: int, s: Ladder): Ladder {
    if swap == 1 then Ladder(s.x3, s.z3, s.x2, s.z2) else s
  }

  ghost function Bit(k: int, t: nat): (b: int)
    ensures b == 0 || b == 1
  {
    k / Pow2(t) % 2
  }

  ghost function Pow2(t: nat): (r: int)
    ensures r > 0
  {
    if t == 0 then 1 else 2 * Pow2(t - 1)
  }

  /** State and pending swap after bits 254 down to t, as the RFC writes the loop. */
  ghost function Rfc(k: int, u: int, t: nat): (r: (Ladder, int))
    requires t <= 255
    ensures r.1 == 0 || r.1 == 1
    decreases 255 - t
  {
    if t == 255 then (Ladder(1, 0, u, 1), 0)
    else
      var (s, swap) := Rfc(k, u, t + 1);
      var b := Bit(k, t);
      (Step(u, CSwap(if swap == b then 0 else 1, s)), b)
  }

  /** x_2 * z_2^(p - 2) after the final conditional swap. */
  ghost function RfcResult(k: int, u: int): int {
    var (s, swap) := Rfc(k, u, 0);
    var f := CSwap(swap, s);
    f.x2 * Pow(f.z2, P - 2) % P
  }

  /** The textbook Montgomery ladder, which never swaps: the pair (nQ, (n+1)Q)
      goes to (2nQ, (2n+1)Q) or ((2n+1)Q, (2n+2)Q). */
  ghost function Montgomery(k: int, u: int, t: nat): (r: Ladder)
    requires t <= 255
    decreases 255 - t
  {
    if t == 255 then Ladder(1, 0, u, 1)
    else
      var s := Montgomery(k, u, t + 1);
      var ax, az := AddX(s.x2, s.z2, s.x3, s.z3) % P, AddZ(u, s.x2, s.z2, s.x3, s.z3) % P;
      if Bit(k, t) == 0 then
        Ladder(DoubleX(s.x2, s.z2) % P, DoubleZ(s.x2, s.z2) % P, ax, az)
      else
        Ladder(ax, az, DoubleX(s.x3, s.z3) % P, DoubleZ(s.x3, s.z3) % P)
  }

  lemma AddSymmetric(u: int, x2: int, z2: int, x3: int, z3: int)
    ensures AddX(x2, z2, x3, z3) == AddX(x3, z3, x2, z2)
    ensures AddZ(u, x2, z2, x3, z3) == AddZ(u, x3, z3, x2, z2)
  {
    var da, cb := (x3 - z3) * (x2 + z2), (x3 + z3) * (x2 - z2);
    assert (x2 - z2) * (x3 + z3) == cb && (x2 + z2) * (x3 - z3) == da;
    assert Sqr(da - cb) == Sqr(cb - da);
  }

  /** Deferring the swaps changes nothing: undoing the pending swap of the RFC
      state gives the textbook state, after every bit. */
  lemma {:induction false} SwapsAreInvisible(k: int, u: int, t: nat)
    requires t <= 255
    ensures var (s, swap) := Rfc(k, u, t); CSwap(swap, s) == Montgomery(k, u, t)
    decreases 255 - t
  {
    if t < 255 {
      SwapsAreInvisible(k, u, t + 1);
      var m := Montgomery(k, u, t + 1);
      AddSymmetric(u, m.x2, m.z2, m.x3, m.z3);
    }
  }

  // ---- the limb-level code ------------------------------------------------

  ghost predicate Holds(a: array<int64>, x: int)
    reads a
  {
    a.Length == 16 && Reduced(a[..]) && Cong(V(a[..]), x, P)
  }

  lemma ModCong(x: int, y: int)
    requires Cong(x, y, P)
    ensures Cong(x, y % P, P)
  {
    CongMod(y, P);
  }

  method AddOf(o: array<int64>, a: array<int64>, b: array<int64>, ghost x: int, ghost y: int)
    requires o.Length == 16 && Holds(a, x) && Holds(b, y)
    modifies o
    ensures Small(o[..]) && Cong(V(o[..]), x + y, P)
  {
    CongAdd(V(a[..]), x, V(b[..]), y, P);
    Add(o, a, b);
  }

  method SubOf(o: array<int64>, a: array<int64>, b: array<int64>, ghost x: int, ghost y: int)
    requires o.Length == 16 && Holds(a, x) && Holds(b, y)
    modifies o
    ensures Small(o[..]) && Cong(V(o[..]), x - y, P)
  {
    CongAdd(V(a[..]), x, V(b[..]), y, P);
    Sub(o, a, b);
  }

  method MulOf(o: array<int64>, a: array<int64>, b: array<int64>, ghost x: int, ghost y: int)
    requires o.Length == a.Length == b.Length == 16
    requires Small(a[..]) && Cong(V(a[..]), x, P) && Small(b[..]) && Cong(V(b[..]), y, P)
    modifies o
    ensures Holds(o, x * y)
  {
    CongMul(V(a[..]), x, V(b[..]), y, P);
    Mul(o, a, b);
  }

  method Constant(w: int64) returns (a: array<int64>)
    requires 0 <= w as int <= M
    ensures fresh(a) && a.Length == 16 && Small(a[..]) && V(a[..]) == w as int
    ensures w < 65536 ==> Reduced(a[..])
  {
    a := new int64[16](_ => 0);
    a[0] := w;
    ValZero(a[..][1..], B);
  }

  /** Squares of the sum and the difference, and their difference. */
  method Squares(a: array<int64>, aa: array<int64>, b: array<int64>, bb: array<int64>, e: array<int64>,
                 x: array<int64>, z: array<int64>, ghost xx: int, ghost zz: int)
    requires a.Length == aa.Length == b.Length == bb.Length == e.Length == 16
    requires a != aa && a != b && a != bb && a != e && aa != b && aa != bb && aa != e
    requires b != bb && b != e && bb != e
    requires Holds(x, xx) && Holds(z, zz)
    requires x !in {a, aa, b, bb, e} && z !in {a, aa, b, bb, e}
    modifies a, aa, b, bb, e
    ensures Small(a[..]) && Cong(V(a[..]), xx + zz, P)
    ensures Small(b[..]) && Cong(V(b[..]), xx - zz, P)
    ensures Holds(aa, Sqr(xx + zz)) && Holds(bb, Sqr(xx - zz))
    ensures Small(e[..]) && Cong(V(e[..]), Sqr(xx + zz) - Sqr(xx - zz), P)
  {
    AddOf(a, x, z, xx, zz);
    MulOf(aa, a, a, xx + zz, xx + zz);
    SubOf(b, x, z, xx, zz);
    MulOf(bb, b, b, xx - zz, xx - zz);
    SubOf(e, aa, bb, Sqr(xx + zz), Sqr(xx - zz));
  }

  /** x2 := AA * BB and z2 := E * (AA + a24 * E). */
  method Double(x2: array<int64>, z2: array<int64>, aa: array<int64>, bb: array<int64>, e: array<int64>,
                ghost x: int, ghost z: int)
    requires x2.Length == z2.Length == e.Length == 16
    requires x2 != z2 && x2 !in {aa, bb, e} && z2 !in {aa, bb, e}
    requires Holds(aa, Sqr(x + z)) && Holds(bb, Sqr(x - z))
    requires Small(e[..]) && Cong(V(e[..]), Sqr(x + z) - Sqr(x - z), P)
    modifies x2, z2
    ensures Holds(x2, DoubleX(x, z) % P) && Holds(z2, DoubleZ(x, z) % P)
  {
    ghost var d := Sqr(x + z) - Sqr(x - z);
    var tmp0, tmp1 := new int64[16], new int64[16];
    var a24 := Constant(A24 as int64);
    MulOf(x2, aa, bb, Sqr(x + z), Sqr(x - z));
    MulOf(tmp0, a24, e, A24, d);
    AddOf(tmp1, aa, tmp0, Sqr(x + z), A24 * d);
    MulOf(z2, e, tmp1, d, Sqr(x + z) + A24 * d);
    ModCong(V(x2[..]), DoubleX(x, z));
    ModCong(V(z2[..]), DoubleZ(x, z));
  }

  /** x3 := (DA + CB)^2 and z3 := (DA - CB)^2 * x1. */
  method DiffAdd(x3: array<int64>, z3: array<int64>, x1: array<int64>, da: array<int64>, cb: array<int64>,
                 ghost u: int, ghost d: int, ghost c: int)
    requires x3.Length == z3.Length == x1.Length == 16
    requires x3 != z3 && x3 !in {x1, da, cb} && z3 !in {x1, da, cb}
    requires Small(x1[..]) && Cong(V(x1[..]), u, P) && Holds(da, d) && Holds(cb, c)
    modifies x3, z3
    ensures Holds(x3, Sqr(d + c) % P) && Holds(z3, Sqr(d - c) * u % P)
  {
    AddOf(x3, da, cb, d, c);
    MulOf(x3, x3, x3, d + c, d + c);
    SubOf(z3, da, cb, d, c);
    MulOf(z3, z3, z3, d - c, d - c);
    MulOf(z3, z3, x1, Sqr(d - c), u);
    ModCong(V(x3[..]), Sqr(d + c));
    ModCong(V(z3[..]), Sqr(d - c) * u);
  }

  /** DA and CB, the cross products of the two points. */
  method Cross(da: array<int64>, cb: array<int64>, a: array<int64>, b: array<int64>,
               x3: array<int64>, z3: array<int64>, ghost s: Ladder)
    requires da.Length == cb.Length == a.Length == b.Length == 16
    requires da != cb && da !in {a, b, x3, z3} && cb !in {a, b, x3, z3}
    requires Small(a[..]) && Cong(V(a[..]), s.x2 + s.z2, P)
    requires Small(b[..]) && Cong(V(b[..]), s.x2 - s.z2, P)
    requires Holds(x3, s.x3) && Holds(z3, s.z3)
    modifies da, cb
    ensures Holds(da, (s.x3 - s.z3) * (s.x2 + s.z2)) && Holds(cb, (s.x3 + s.z3) * (s.x2 - s.z2))
  {
    var c, d := new int64[16], new int64[16];
    AddOf(c, x3, z3, s.x3, s.z3);
    SubOf(d, x3, z3, s.x3, s.z3);
    MulOf(da, d, a, s.x3 - s.z3, s.x2 + s.z2);
    MulOf(cb, c, b, s.x3 + s.z3, s.x2 - s.z2);
  }

  ghost predicate HoldsAll(x2: array<int64>, z2: array<int64>, x3: array<int64>, z3: array<int64>, s: Ladder)
    reads x2, z2, x3, z3
  {
    Holds(x2, s.x2) && Holds(z2, s.z2) && Holds(x3, s.x3) && Holds(z3, s.z3)
  }

  ghost predicate Distinct(x1: array<int64>, x2: array<int64>, z2: array<int64>, x3: array<int64>, z3: array<int64>) {
    x1 != x2 && x1 != z2 && x1 != x3 && x1 != z3 && x2 != z2 && x2 != x3 && x2 != z3 && z2 != x3 && z2 != z3 && x3 != z3
  }

  /** The first half of a step: everything computed from the four coordinates. */
  method Products(x2: array<int64>, z2: array<int64>, x3: array<int64>, z3: array<int64>, ghost s: Ladder)
    returns (aa: array<int64>, bb: array<int64>, e: array<int64>, da: array<int64>, cb: array<int64>)
    requires HoldsAll(x2, z2, x3, z3, s)
    ensures fresh(aa) && fresh(bb) && fresh(e) && fresh(da) && fresh(cb) && e.Length == 16
    ensures Holds(aa, Sqr(s.x2 + s.z2)) && Holds(bb, Sqr(s.x2 - s.z2))
    ensures Small(e[..]) && Cong(V(e[..]), Sqr(s.x2 + s.z2) - Sqr(s.x2 - s.z2), P)
    ensures Holds(da, (s.x3 - s.z3) * (s.x2 + s.z2)) && Holds(cb, (s.x3 + s.z3) * (s.x2 - s.z2))
  {
    var a, b := new int64[16], new int64[16];
    aa, bb, e := new int64[16], new int64[16], new int64[16];
    Squares(a, aa, b, bb, e, x2, z2, s.x2, s.z2);
    da, cb := new int64[16], new int64[16];
    Cross(da, cb, a, b, x3, z3, s);
  }

  /** One combined differential addition and doubling. */
  method LadderStep(x1: array<int64>, x2: array<int64>, z2: array<int64>, x3: array<int64>, z3: array<int64>,
                    ghost u: int, ghost s: Ladder)
    requires Distinct(x1, x2, z2, x3, z3) && x1.Length == 16
    requires Small(x1[..]) && Cong(V(x1[..]), u, P) && HoldsAll(x2, z2, x3, z3, s)
    modifies x2, z2, x3, z3
    ensures HoldsAll(x2, z2, x3, z3, Step(u, s))
  {
    var aa, bb, e, da, cb := Products(x2, z2, x3, z3, s);
    DiffAdd(x3, z3, x1, da, cb, u, (s.x3 - s.z3) * (s.x2 + s.z2), (s.x3 + s.z3) * (s.x2 - s.z2));
    Double(x2, z2, aa, bb, e, s.x2, s.z2);
  }

  // ---- scalar bits --------------------------------------------------------

  /** e[0] &= 248, e[31] &= 127, e[31] |= 64. */
  function Clamp(k: seq<uint8>): (e: seq<uint8>)
    requires |k| == 32
    ensures |e| == 32
  {
    k[0 := k[0] - k[0] % 8][31 := k[31] % 64 + 64]
  }

  lemma Pow31()
    ensures 256 * Pow(256, 31) == R
  {
    BytePairs(16);
    PowB16();
  }

  lemma LastByte(e: seq<uint8>)
    requires |e| == 32
    ensures LE(e) == LE(e[..31]) + Pow(256, 31) * e[31] as int && LE(e[..31]) < Pow(256, 31)
  {
    assert e == e[..31] + [e[31]];
    LEAppend(e[..31], [e[31]]);
    LEBound(e[..31]);
    assert LE([e[31]]) == e[31] as int;
  }

  /** A clamped scalar is a multiple of 8 between 2^254 and 2^255. */
  lemma ClampRange(k: seq<uint8>)
    requires |k| == 32
    ensures LE(Clamp(k)) % 8 == 0
    ensures R / 4 <= LE(Clamp(k)) < R / 2
  {
    var e := Clamp(k);
    assert LE(e) % 8 == 0 by { assert LE(e) == e[0] as int + 256 * LE(e[1..]); }
    hide LE, Pow;
    LastByte(e);
    Pow31();
    TopByte(LE(e), LE(e[..31]), Pow(256, 31), e[31] as int);
  }

  lemma TopByte(n: int, lo: int, p: int, t: int)
    requires n == lo + p * t && 0 <= lo < p && 256 * p == R && 64 <= t < 128
    ensures R / 4 <= n < R / 2
  {
    assert p * 64 <= p * t <= p * 127;
  }

  /** Bit i of byte i / 8 is bit i of the number. */
  lemma {:induction false} BitOfBytes(e: seq<uint8>, i: nat)
    requires i < 8 * |e|
    ensures (e[i / 8] as int / Pow2(i % 8)) % 2 == Bit(LE(e), i)
    decreases i
  {
    if i >= 8 {
      BitOfBytes(e[1..], i - 8);
      assert e[1..][(i - 8) / 8] == e[i / 8] && (i - 8) % 8 == i % 8;
      Pow2Shift(i - 8);
      DivDiv(LE(e), 256, Pow2(i - 8));
      assert LE(e) / 256 == LE(e[1..]);
    } else {
      LowBit(e[0] as int, LE(e[1..]), i);
    }
  }

  lemma Pow2Shift(i: nat)
    ensures Pow2(i + 8) == 256 * Pow2(i)
  {
    assert Pow2(i + 8) == 2 * Pow2(i + 7) && Pow2(i + 7) == 2 * Pow2(i + 6) && Pow2(i + 6) == 2 * Pow2(i + 5);
    assert Pow2(i + 5) == 2 * Pow2(i + 4) && Pow2(i + 4) == 2 * Pow2(i + 3) && Pow2(i + 3) == 2 * Pow2(i + 2);
    assert Pow2(i + 2) == 2 * Pow2(i + 1);
  }

  lemma LowBit(x: int, y: int, i: nat)
    requires 0 <= x < 256 && i < 8
    ensures (x / Pow2(i)) % 2 == ((x + 256 * y) / Pow2(i)) % 2
  {
    ShiftIsPow2(i);
    var p, w := Shift(i), [128, 64, 32, 16, 8, 4, 2, 1][i] * y;
    assert 256 * y == (2 * w) * p;
    LowBitAt(x, 256 * y, p, w);
  }

  lemma LowBitAt(x: int, y: int, p: int, w: int)
    requires p > 0 && y == (2 * w) * p
    ensures (x / p) % 2 == ((x + y) / p) % 2
  {
    DivShift(x, 2 * w, p);
  }

  // ---- the whole function -------------------------------------------------

  method SwapPair(x2: array<int64>, x3: array<int64>, z2: array<int64>, z3: array<int64>,
                  swap: int, ghost s: Ladder)
    requires x2 != x3 && z2 != z3 && x2 != z2 && x2 != z3 && x3 != z2 && x3 != z3
    requires 0 <= swap <= 1 && HoldsAll(x2, z2, x3, z3, s)
    modifies x2, x3, z2, z3
    ensures HoldsAll(x2, z2, x3, z3, CSwap(swap, s))
  {
    Sel(x2, x3, swap);
    Sel(z2, z3, swap);
  }

  /** The ladder loop over bits 254 down to 0, with its pending swap. */
  method Loop(e: seq<uint8>, x1: array<int64>, x2: array<int64>, z2: array<int64>,
              x3: array<int64>, z3: array<int64>, ghost u: int) returns (swap: int)
    requires |e| == 32 && Distinct(x1, x2, z2, x3, z3) && x1.Length == 16
    requires Small(x1[..]) && Cong(V(x1[..]), u, P)
    requires HoldsAll(x2, z2, x3, z3, Ladder(1, 0, u, 1))
    modifies x2, z2, x3, z3
    ensures swap == Rfc(LE(e), u, 0).1
    ensures HoldsAll(x2, z2, x3, z3, Rfc(LE(e), u, 0).0)
  {
    hide V, LE, Small, Cong, Pow2, Shift, CSwap;
    swap := 0;
    for i := 255 downto 0
      invariant swap == Rfc(LE(e), u, i).1
      invariant HoldsAll(x2, z2, x3, z3, Rfc(LE(e), u, i).0)
      invariant Small(x1[..]) && Cong(V(x1[..]), u, P)
    {
      ghost var s := Rfc(LE(e), u, i + 1).0;
      var bit := (e[i / 8] as int / Shift(i % 8)) % 2;
      ShiftIsPow2(i % 8);
      BitOfBytes(e, i);
      swap := if swap == bit then 0 else 1;
      SwapPair(x2, x3, z2, z3, swap, s);
      LadderStep(x1, x2, z2, x3, z3, u, CSwap(swap, s));
      swap := bit;
    }
  }

  function Shift(i: nat): (s: int)
    requires i < 8
    ensures s > 0
  {
    [1, 2, 4, 8, 16, 32, 64, 128][i]
  }

  lemma ShiftIsPow2(i: nat)
    requires i < 8
    ensures Shift(i) == Pow2(i)
  {
    assert Pow2(0) == 1 && Pow2(1) == 2 && Pow2(2) == 4 && Pow2(3) == 8;
    assert Pow2(4) == 16 && Pow2(5) == 32 && Pow2(6) == 64 && Pow2(7) == 128;
  }

  lemma ResultCong(r: int, x: int, zi: int, z: int, x': int, z': int)
    requires Cong(r, x * zi, P) && Cong(zi, Pow(z, P - 2), P) && Cong(x, x', P) && Cong(z, z', P)
    ensures r % P == x' * Pow(z', P - 2) % P
  {
    CongPow(z, z', P - 2, P);
    CongMul(x, x', zi, Pow(z', P - 2), P);
  }

  /** crypto_x25519: for every secret and every peer key the 32 output bytes are
      the canonical encoding of the RFC 7748 result. */
  method CryptoX25519(secret: seq<uint8>, peer: seq<uint8>) returns (shared: array<uint8>)
    requires |secret| == |peer| == 32
    ensures shared.Length == 32
    ensures LE(shared[..]) == RfcResult(LE(Clamp(secret)), LE(peer) % (R / 2))
  {
    var e := Clamp(secret);
    var x1 := Unpack(peer);
    ghost var u := LE(peer) % (R / 2);
    var x2 := Constant(1);
    var z2 := Constant(0);
    var x3 := new int64[16];
    Copy(x3, x1);
    var z3 := Constant(1);
    var swap := Loop(e, x1, x2, z2, x3, z3, u);
    ghost var s := CSwap(swap, Rfc(LE(e), u, 0).0);
    SwapPair(x2, x3, z2, z3, swap, Rfc(LE(e), u, 0).0);
    shared := Affine(x2, z2, s.x2, s.z2);
  }

  method Affine(x2: array<int64>, z2: array<int64>, ghost x: int, ghost z: int) returns (o: array<uint8>)
    requires Holds(x2, x) && Holds(z2, z)
    ensures o.Length == 32 && LE(o[..]) == x * Pow(z, P - 2) % P
  {
    var z2inv, result := new int64[16], new int64[16];
    Invert(z2inv, z2);
    Mul(result, x2, z2inv);
    ResultCong(V(result[..]), V(x2[..]), V(z2inv[..]), V(z2[..]), x, z);
    o := Pack(result);
  }
}
