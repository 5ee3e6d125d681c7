/** Poly1305 on five 26-bit limbs, against section 2.5 of RFC 8439. */
module Poly1305 {
  import opened Machine
  import opened Modular
  import opened Limbs

  // 2^130 - 5
  const P := 0x3_ffff_ffff_ffff_ffff_ffff_ffff_ffff_fffb
  const B1 := 0x400_0000
  const B2 := 0x10_0000_0000_0000
  const B3 := 0x4000_0000_0000_0000_0000
  const B4 := 0x100_0000_0000_0000_0000_0000_0000
  const TWO128 := 0x1_0000_0000_0000_0000_0000_0000_0000_0000

  // ---- the RFC ------------------------------------------------------------

  /** Start of the last block of a nonempty message. */
  function LastBlock(n: nat): (k: nat)
    requires n > 0
    ensures k < n && k % 16 == 0 && n - k <= 16
  {
    var q := (n - 1) / 16;
    DivModUnique(q * 16, q, 0, 16);
    q * 16
  }

  ghost function BlockNumber(b: seq<uint8>): (n: int) { LE(b) + Pow(256, |b|) }

  /** The accumulator after a message: each block gets a one bit above its last
      byte, is added, and the sum is multiplied by r. */
  ghost function RfcAcc(r: int, m: seq<uint8>): (a: int)
    ensures 0 <= a < P
    decreases |m|
  {
    if m == [] then 0
    else
      var k := LastBlock(|m|);
      (RfcAcc(r, m[..k]) + BlockNumber(m[k..])) * r % P
  }

  ghost function RfcTag(r: int, s: int, m: seq<uint8>): int {
    (RfcAcc(r, m) + s) % TWO128
  }

  lemma RfcAccAppend(r: int, m: seq<uint8>, b: seq<uint8>)
    requires |m| % 16 == 0 && 0 < |b| <= 16
    ensures RfcAcc(r, m + b) == (RfcAcc(r, m) + BlockNumber(b)) * r % P
  {
    assert LastBlock(|m + b|) == |m|;
    assert (m + b)[..|m|] == m && (m + b)[|m|..] == b;
  }

  // ---- limbs --------------------------------------------------------------

  ghost function Num(h0: int, h1: int, h2: int, h3: int, h4: int): int {
    h0 + B1 * h1 + B2 * h2 + B3 * h3 + B4 * h4
  }

  function Load32(p: seq<uint8>, at: nat): (r: int)
    requires at + 4 <= |p|
    ensures 0 <= r < 0x1_0000_0000
  {
    p[at] as int + p[at + 1] as int * 0x100 + p[at + 2] as int * 0x1_0000 + p[at + 3] as int * 0x100_0000
  }

  lemma Sixteen(p: seq<uint8>)
    requires |p| == 16
    ensures LE(p) == Load32(p, 0) + 0x1_0000_0000 * Load32(p, 4)
                     + 0x1_0000_0000_0000_0000 * Load32(p, 8) + 0x1_0000_0000_0000_0000_0000_0000 * Load32(p, 12)
  {
    Four(p, 0); Four(p, 4); Four(p, 8); Four(p, 12);
    assert p[16..] == [] && p[0..] == p;
  }

  lemma Four(p: seq<uint8>, at: nat)
    requires at + 4 <= |p|
    ensures LE(p[at..]) == Load32(p, at) + 0x1_0000_0000 * LE(p[at + 4..])
  {
    FirstByte(p, at); FirstByte(p, at + 1); FirstByte(p, at + 2); FirstByte(p, at + 3);
  }

  // The 26-bit digits of a 32-bit window that starts 0, 2, 4 or 6 bits above the digit.

  lemma Window0(a: int, b: int, c: int, d: int)
    requires 0 <= a < 0x100 && 0 <= b < 0x100 && 0 <= c < 0x100 && 0 <= d < 0x100
    ensures (a + b * 0x100 + c * 0x1_0000 + d * 0x100_0000) / 1 % B1
         == a / 1 + b * 0x100 + c * 0x10000 + d % 4 * 0x1000000
  {
    var w := a / 1 + b * 0x100 + c * 0x10000 + d * 0x1000000;
    DivModUnique(a + b * 0x100 + c * 0x1_0000 + d * 0x100_0000, w, a % 1, 1);
    DivModUnique(w, d / 4, a / 1 + b * 0x100 + c * 0x10000 + d % 4 * 0x1000000, B1);
  }

  lemma Window2(a: int, b: int, c: int, d: int)
    requires 0 <= a < 0x100 && 0 <= b < 0x100 && 0 <= c < 0x100 && 0 <= d < 0x100
    ensures (a + b * 0x100 + c * 0x1_0000 + d * 0x100_0000) / 4 % B1
         == a / 4 + b * 0x40 + c * 0x4000 + d % 16 * 0x400000
  {
    var w := a / 4 + b * 0x40 + c * 0x4000 + d * 0x400000;
    DivModUnique(a + b * 0x100 + c * 0x1_0000 + d * 0x100_0000, w, a % 4, 4);
    DivModUnique(w, d / 16, a / 4 + b * 0x40 + c * 0x4000 + d % 16 * 0x400000, B1);
  }

  lemma Window4(a: int, b: int, c: int, d: int)
    requires 0 <= a < 0x100 && 0 <= b < 0x100 && 0 <= c < 0x100 && 0 <= d < 0x100
    ensures (a + b * 0x100 + c * 0x1_0000 + d * 0x100_0000) / 16 % B1
         == a / 16 + b * 0x10 + c * 0x1000 + d % 64 * 0x100000
  {
    var w := a / 16 + b * 0x10 + c * 0x1000 + d * 0x100000;
    DivModUnique(a + b * 0x100 + c * 0x1_0000 + d * 0x100_0000, w, a % 16, 16);
    DivModUnique(w, d / 64, a / 16 + b * 0x10 + c * 0x1000 + d % 64 * 0x100000, B1);
  }

  lemma Window6(a: int, b: int, c: int, d: int)
    requires 0 <= a < 0x100 && 0 <= b < 0x100 && 0 <= c < 0x100 && 0 <= d < 0x100
    ensures (a + b * 0x100 + c * 0x1_0000 + d * 0x100_0000) / 64 % B1
         == a / 64 + b * 0x4 + c * 0x400 + d % 256 * 0x40000
  {
    var w := a / 64 + b * 0x4 + c * 0x400 + d * 0x40000;
    DivModUnique(a + b * 0x100 + c * 0x1_0000 + d * 0x100_0000, w, a % 64, 64);
    DivModUnique(w, d / 256, a / 64 + b * 0x4 + c * 0x400 + d % 256 * 0x40000, B1);
  }

  // The 26-bit digits of a 16-byte block.
  ghost function D0(p: seq<uint8>): int requires |p| == 16 {
    p[0] as int + p[1] as int * 0x100 + p[2] as int * 0x1_0000 + p[3] as int % 4 * 0x100_0000
  }
  ghost function D1(p: seq<uint8>): int requires |p| == 16 {
    p[3] as int / 4 + p[4] as int * 0x40 + p[5] as int * 0x4000 + p[6] as int % 16 * 0x40_0000
  }
  ghost function D2(p: seq<uint8>): int requires |p| == 16 {
    p[6] as int / 16 + p[7] as int * 0x10 + p[8] as int * 0x1000 + p[9] as int % 64 * 0x10_0000
  }
  ghost function D3(p: seq<uint8>): int requires |p| == 16 {
    p[9] as int / 64 + p[10] as int * 4 + p[11] as int * 0x400 + p[12] as int * 0x4_0000
  }
  ghost function D4(p: seq<uint8>): int requires |p| == 16 {
    p[13] as int + p[14] as int * 0x100 + p[15] as int * 0x1_0000
  }

  lemma DigitSum(p: seq<uint8>)
    requires |p| == 16
    ensures LE(p) == Num(D0(p), D1(p), D2(p), D3(p), D4(p))
  {
    Sixteen(p);
  }

  lemma Load0(p: seq<uint8>)
    requires |p| == 16
    ensures Load32(p, 0) % B1 == D0(p) && Load32(p, 3) / 4 % B1 == D1(p)
  {
    Window0(p[0] as int, p[1] as int, p[2] as int, p[3] as int);
    Window2(p[3] as int, p[4] as int, p[5] as int, p[6] as int);
  }

  lemma Load2(p: seq<uint8>)
    requires |p| == 16
    ensures Load32(p, 6) / 16 % B1 == D2(p) && Load32(p, 9) / 64 % B1 == D3(p)
  {
    Window4(p[6] as int, p[7] as int, p[8] as int, p[9] as int);
    Window6(p[9] as int, p[10] as int, p[11] as int, p[12] as int);
  }

  lemma Load4(p: seq<uint8>)
    requires |p| == 16
    ensures Load32(p, 12) / 256 == D4(p)
  {
    DivModUnique(Load32(p, 12), D4(p), p[12] as int, 256);
  }

  /** The five overlapping loads of a block are its digits. */
  lemma LoadsAreDigits(p: seq<uint8>)
    requires |p| == 16
    ensures Load32(p, 0) % B1 == D0(p) && Load32(p, 3) / 4 % B1 == D1(p) && Load32(p, 6) / 16 % B1 == D2(p)
    ensures Load32(p, 9) / 64 % B1 == D3(p) && Load32(p, 12) / 256 == D4(p)
  {
    hide Load32, D0, D1, D2, D3, D4;
    Load0(p);
    Load2(p);
    Load4(p);
  }

  // ---- multiplication modulo 2^130 - 5 ------------------------------------

  const HMAX := 0x800_0100
  const RMAX := 0x400_0000

  lemma TermBound(x: int, y: int, a: int, b: int)
    requires 0 <= x <= a && 0 <= y <= b
    ensures 0 <= x * y <= a * b
  {
    MulLe(x, a, y, b);
  }

  /** One 64-bit column sum. */
  method Dot(h0: uint32, h1: uint32, h2: uint32, h3: uint32, h4: uint32,
             a0: uint32, a1: uint32, a2: uint32, a3: uint32, a4: uint32, ghost y: int) returns (d: uint64)
    requires h0 as int <= HMAX && h1 as int <= HMAX && h2 as int <= HMAX && h3 as int <= HMAX && h4 as int <= HMAX
    requires a0 as int <= y && a1 as int <= y && a2 as int <= y && a3 as int <= y && a4 as int <= y <= 5 * RMAX
    ensures d as int == h0 as int * a0 as int + h1 as int * a1 as int + h2 as int * a2 as int
                        + h3 as int * a3 as int + h4 as int * a4 as int
    ensures d as int <= 5 * (HMAX * y)
  {
    TermBound(h0 as int, a0 as int, HMAX, y);
    TermBound(h1 as int, a1 as int, HMAX, y);
    TermBound(h2 as int, a2 as int, HMAX, y);
    TermBound(h3 as int, a3 as int, HMAX, y);
    TermBound(h4 as int, a4 as int, HMAX, y);
    d := h0 as uint64 * a0 as uint64 + h1 as uint64 * a1 as uint64 + h2 as uint64 * a2 as uint64
       + h3 as uint64 * a3 as uint64 + h4 as uint64 * a4 as uint64;
  }

  lemma Scale(x: int, r0: int, r1: int, r2: int, r3: int, r4: int)
    ensures x * Num(r0, r1, r2, r3, r4) == Num(x * r0, x * r1, x * r2, x * r3, x * r4)
  {
    assert x * (B1 * r1) == B1 * (x * r1) && x * (B2 * r2) == B2 * (x * r2);
    assert x * (B3 * r3) == B3 * (x * r3) && x * (B4 * r4) == B4 * (x * r4);
  }

  lemma Expand(h0: int, h1: int, h2: int, h3: int, h4: int, r: int)
    ensures Num(h0, h1, h2, h3, h4) * r == Num(h0 * r, h1 * r, h2 * r, h3 * r, h4 * r)
  {
    Scale(r, h0, h1, h2, h3, h4);
  }

  /** The 25 products regrouped: columns 5 to 8 come back five times, 130 bits lower. */
  lemma Regroup(p00: int, p01: int, p02: int, p03: int, p04: int, p10: int, p11: int, p12: int, p13: int, p14: int,
                p20: int, p21: int, p22: int, p23: int, p24: int, p30: int, p31: int, p32: int, p33: int, p34: int,
                p40: int, p41: int, p42: int, p43: int, p44: int)
    ensures Num(Num(p00, p01, p02, p03, p04), Num(p10, p11, p12, p13, p14), Num(p20, p21, p22, p23, p24),
                Num(p30, p31, p32, p33, p34), Num(p40, p41, p42, p43, p44))
         == Num(p00 + 5 * p14 + 5 * p23 + 5 * p32 + 5 * p41, p01 + p10 + 5 * p24 + 5 * p33 + 5 * p42,
                p02 + p11 + p20 + 5 * p34 + 5 * p43, p03 + p12 + p21 + p30 + 5 * p44,
                p04 + p13 + p22 + p31 + p40)
            + P * Num(p14 + p23 + p32 + p41, p24 + p33 + p42, p34 + p43, p44, 0)
  {
  }

  lemma Five(x: int, y: int)
    ensures x * (5 * y) == 5 * (x * y)
  {
  }

  lemma ColumnsCong(h0: int, h1: int, h2: int, h3: int, h4: int, r0: int, r1: int, r2: int, r3: int, r4: int,
                    d0: int, d1: int, d2: int, d3: int, d4: int)
    requires d0 == h0 * r0 + h1 * (5 * r4) + h2 * (5 * r3) + h3 * (5 * r2) + h4 * (5 * r1)
    requires d1 == h0 * r1 + h1 * r0 + h2 * (5 * r4) + h3 * (5 * r3) + h4 * (5 * r2)
    requires d2 == h0 * r2 + h1 * r1 + h2 * r0 + h3 * (5 * r4) + h4 * (5 * r3)
    requires d3 == h0 * r3 + h1 * r2 + h2 * r1 + h3 * r0 + h4 * (5 * r4)
    requires d4 == h0 * r4 + h1 * r3 + h2 * r2 + h3 * r1 + h4 * r0
    ensures Cong(Num(d0, d1, d2, d3, d4), Num(h0, h1, h2, h3, h4) * Num(r0, r1, r2, r3, r4), P)
  {
    var r := Num(r0, r1, r2, r3, r4);
    Expand(h0, h1, h2, h3, h4, r);
    Scale(h0, r0, r1, r2, r3, r4); Scale(h1, r0, r1, r2, r3, r4); Scale(h2, r0, r1, r2, r3, r4);
    Scale(h3, r0, r1, r2, r3, r4); Scale(h4, r0, r1, r2, r3, r4);
    Five(h1, r4); Five(h2, r3); Five(h3, r2); Five(h4, r1); Five(h2, r4);
    Five(h3, r3); Five(h4, r2); Five(h3, r4); Five(h4, r3); Five(h4, r4);
    Regroup(h0 * r0, h0 * r1, h0 * r2, h0 * r3, h0 * r4, h1 * r0, h1 * r1, h1 * r2, h1 * r3, h1 * r4,
            h2 * r0, h2 * r1, h2 * r2, h2 * r3, h2 * r4, h3 * r0, h3 * r1, h3 * r2, h3 * r3, h3 * r4,
            h4 * r0, h4 * r1, h4 * r2, h4 * r3, h4 * r4);
    var k := Num(h1 * r4 + h2 * r3 + h3 * r2 + h4 * r1, h2 * r4 + h3 * r3 + h4 * r2, h3 * r4 + h4 * r3, h4 * r4, 0);
    CongIntro(Num(d0, d1, d2, d3, d4), Num(h0, h1, h2, h3, h4) * r, -k, P);
  }

  /** Carries up the columns, the top carry returning times five. */
  method CarryUp(e0: uint64, e1: uint64, e2: uint64, e3: uint64, e4: uint64)
    returns (h0: uint32, h1: uint32, h2: uint32, h3: uint32, h4: uint32)
    requires e0 as int <= 25 * (HMAX * RMAX) && e1 as int <= 25 * (HMAX * RMAX) && e2 as int <= 25 * (HMAX * RMAX)
    requires e3 as int <= 25 * (HMAX * RMAX) && e4 as int <= 5 * (HMAX * RMAX)
    ensures Cong(Num(h0 as int, h1 as int, h2 as int, h3 as int, h4 as int),
                 Num(e0 as int, e1 as int, e2 as int, e3 as int, e4 as int), P)
    ensures h0 as int < B1 && h1 as int <= B1 + 64 && h2 as int < B1 && h3 as int < B1 && h4 as int < B1
  {
    var c := (e0 / 0x400_0000) as uint32;
    h0 := (e0 % 0x400_0000) as uint32;
    var d1 := e1 + c as uint64;
    c := (d1 / 0x400_0000) as uint32;
    h1 := (d1 % 0x400_0000) as uint32;
    var d2 := e2 + c as uint64;
    c := (d2 / 0x400_0000) as uint32;
    h2 := (d2 % 0x400_0000) as uint32;
    var d3 := e3 + c as uint64;
    c := (d3 / 0x400_0000) as uint32;
    h3 := (d3 % 0x400_0000) as uint32;
    var d4 := e4 + c as uint64;
    c := (d4 / 0x400_0000) as uint32;
    h4 := (d4 % 0x400_0000) as uint32;
    ghost var top := c as int;
    assert Num(h0 as int, h1 as int, h2 as int, h3 as int, h4 as int) + (P + 5) * top
        == Num(e0 as int, e1 as int, e2 as int, e3 as int, e4 as int);
    h0 := h0 + c * 5;
    c := h0 / 0x400_0000;
    h0 := h0 % 0x400_0000;
    h1 := h1 + c;
    CongIntro(Num(h0 as int, h1 as int, h2 as int, h3 as int, h4 as int),
              Num(e0 as int, e1 as int, e2 as int, e3 as int, e4 as int), -top, P);
  }

  method MulReduce(h0: uint32, h1: uint32, h2: uint32, h3: uint32, h4: uint32,
                   r0: uint32, r1: uint32, r2: uint32, r3: uint32, r4: uint32)
    returns (g0: uint32, g1: uint32, g2: uint32, g3: uint32, g4: uint32)
    requires h0 as int <= HMAX && h1 as int <= HMAX && h2 as int <= HMAX && h3 as int <= HMAX && h4 as int <= HMAX
    requires r0 as int <= RMAX && r1 as int <= RMAX && r2 as int <= RMAX && r3 as int <= RMAX && r4 as int <= RMAX
    ensures Cong(Num(g0 as int, g1 as int, g2 as int, g3 as int, g4 as int),
                 Num(h0 as int, h1 as int, h2 as int, h3 as int, h4 as int)
                 * Num(r0 as int, r1 as int, r2 as int, r3 as int, r4 as int), P)
    ensures g0 as int < B1 && g1 as int <= B1 + 64 && g2 as int < B1 && g3 as int < B1 && g4 as int < B1
  {
    var s1, s2, s3, s4 := r1 * 5, r2 * 5, r3 * 5, r4 * 5;
    var d0 := Dot(h0, h1, h2, h3, h4, r0, s4, s3, s2, s1, 5 * RMAX);
    var d1 := Dot(h0, h1, h2, h3, h4, r1, r0, s4, s3, s2, 5 * RMAX);
    var d2 := Dot(h0, h1, h2, h3, h4, r2, r1, r0, s4, s3, 5 * RMAX);
    var d3 := Dot(h0, h1, h2, h3, h4, r3, r2, r1, r0, s4, 5 * RMAX);
    var d4 := Dot(h0, h1, h2, h3, h4, r4, r3, r2, r1, r0, RMAX);
    ColumnsCong(h0 as int, h1 as int, h2 as int, h3 as int, h4 as int,
                r0 as int, r1 as int, r2 as int, r3 as int, r4 as int,
                d0 as int, d1 as int, d2 as int, d3 as int, d4 as int);
    g0, g1, g2, g3, g4 := CarryUp(d0, d1, d2, d3, d4);
  }

  // ---- the key ------------------------------------------------------------

  /** r with the bits section 2.5 of RFC 8439 clears: the top four of bytes 3, 7,
      11 and 15 and the bottom two of bytes 4, 8 and 12. */
  function ClampKey(k: seq<uint8>): (c: seq<uint8>)
    requires |k| == 16
    ensures |c| == 16
  {
    [k[0], k[1], k[2], k[3] % 16, k[4] - k[4] % 4, k[5], k[6], k[7] % 16,
     k[8] - k[8] % 4, k[9], k[10], k[11] % 16, k[12] - k[12] % 4, k[13], k[14], k[15] % 16]
  }

  // The masks 0x3ffff03, 0x3ffc0ff, 0x3f03fff and 0x00fffff of the source.
  function Mask1(x: int): int { x % 4 + x / 0x100 * 0x100 }
  function Mask2(x: int): int { x % 0x100 + x / 0x4000 * 0x4000 }
  function Mask3(x: int): int { x % 0x4000 + x / 0x10_0000 * 0x10_0000 }
  function Mask4(x: int): int { x % 0x10_0000 }

  lemma MaskDigit1(a: int, b: int, c: int, d: int)
    requires 0 <= a < 0x100 && 0 <= b < 0x100 && 0 <= c < 0x100 && 0 <= d < 0x100
    ensures Mask1(a / 4 + b * 0x40 + c * 0x4000 + d % 16 * 0x40_0000)
         == a % 16 / 4 + (b - b % 4) * 0x40 + c * 0x4000 + d % 16 * 0x40_0000
  {
    var x := a / 4 + b * 0x40 + c * 0x4000 + d % 16 * 0x40_0000;
    DivModUnique(x, a / 16 + b * 0x10 + c * 0x1000 + d % 16 * 0x10_0000, a % 16 / 4, 4);
    DivModUnique(x, b / 4 + c * 0x40 + d % 16 * 0x4000, a / 4 + b % 4 * 0x40, 0x100);
  }

  lemma MaskDigit2(a: int, b: int, c: int, d: int)
    requires 0 <= a < 0x100 && 0 <= b < 0x100 && 0 <= c < 0x100 && 0 <= d < 0x100
    ensures Mask2(a / 16 + b * 0x10 + c * 0x1000 + d % 64 * 0x10_0000)
         == a / 16 + b % 16 * 0x10 + (c - c % 4) * 0x1000 + d % 64 * 0x10_0000
  {
    var x := a / 16 + b * 0x10 + c * 0x1000 + d % 64 * 0x10_0000;
    DivModUnique(x, b / 16 + c * 0x10 + d % 64 * 0x1000, a / 16 + b % 16 * 0x10, 0x100);
    DivModUnique(x, c / 4 + d % 64 * 0x40, a / 16 + b * 0x10 + c % 4 * 0x1000, 0x4000);
  }

  lemma MaskDigit3(a: int, b: int, c: int, d: int)
    requires 0 <= a < 0x100 && 0 <= b < 0x100 && 0 <= c < 0x100 && 0 <= d < 0x100
    ensures Mask3(a / 64 + b * 4 + c * 0x400 + d * 0x4_0000)
         == a / 64 + b * 4 + c % 16 * 0x400 + (d - d % 4) * 0x4_0000
  {
    var x := a / 64 + b * 4 + c * 0x400 + d * 0x4_0000;
    DivModUnique(x, c / 16 + d * 0x10, a / 64 + b * 4 + c % 16 * 0x400, 0x4000);
    DivModUnique(x, d / 4, a / 64 + b * 4 + c * 0x400 + d % 4 * 0x4_0000, 0x10_0000);
  }

  lemma MaskDigit4(a: int, b: int, c: int)
    requires 0 <= a < 0x100 && 0 <= b < 0x100 && 0 <= c < 0x100
    ensures Mask4(a + b * 0x100 + c * 0x1_0000) == a + b * 0x100 + c % 16 * 0x1_0000
  {
    DivModUnique(a + b * 0x100 + c * 0x1_0000, c / 16, a + b * 0x100 + c % 16 * 0x1_0000, 0x10_0000);
  }

  /** Masking the digits of the key clamps it. */
  lemma MaskedDigits(k: seq<uint8>, c: seq<uint8>)
    requires |k| == 16 && c == ClampKey(k)
    ensures D0(k) == D0(c) && Mask1(D1(k)) == D1(c) && Mask2(D2(k)) == D2(c)
    ensures Mask3(D3(k)) == D3(c) && Mask4(D4(k)) == D4(c)
  {
    assert D0(k) == D0(c);
    assert Mask1(D1(k)) == D1(c) by { MaskDigit1(k[3] as int, k[4] as int, k[5] as int, k[6] as int); }
    assert Mask2(D2(k)) == D2(c) by { MaskDigit2(k[6] as int, k[7] as int, k[8] as int, k[9] as int); }
    assert Mask3(D3(k)) == D3(c) by { MaskDigit3(k[9] as int, k[10] as int, k[11] as int, k[12] as int); }
    assert Mask4(D4(k)) == D4(c) by { MaskDigit4(k[13] as int, k[14] as int, k[15] as int); }
  }

  lemma DigitRange(p: seq<uint8>)
    requires |p| == 16
    ensures 0 <= D0(p) < B1 && 0 <= D1(p) < B1 && 0 <= D2(p) < B1 && 0 <= D3(p) < B1 && 0 <= D4(p) < 0x100_0000
  {
  }

  // ---- the final reduction ------------------------------------------------

  ghost predicate Canonical(h0: int, h1: int, h2: int, h3: int, h4: int) {
    0 <= h0 < B1 && 0 <= h1 < B1 && 0 <= h2 < B1 && 0 <= h3 < B1 && 0 <= h4 < B1
  }

  /** The carry pass that leaves five 26-bit limbs. */
  method CarryPass(a0: uint32, a1: uint32, a2: uint32, a3: uint32, a4: uint32)
    returns (h0: uint32, h1: uint32, h2: uint32, h3: uint32, h4: uint32)
    requires a0 as int < B1 && a1 as int <= B1 + 64 && a2 as int < B1 && a3 as int < B1 && a4 as int < B1
    ensures Canonical(h0 as int, h1 as int, h2 as int, h3 as int, h4 as int)
    ensures Cong(Num(h0 as int, h1 as int, h2 as int, h3 as int, h4 as int),
                 Num(a0 as int, a1 as int, a2 as int, a3 as int, a4 as int), P)
  {
    hide Cong;
    h0, h1, h2, h3, h4 := a0, a1, a2, a3, a4;
    var c := h1 / 0x400_0000; h1 := h1 % 0x400_0000;
    h2 := h2 + c; c := h2 / 0x400_0000; h2 := h2 % 0x400_0000;
    h3 := h3 + c; c := h3 / 0x400_0000; h3 := h3 % 0x400_0000;
    h4 := h4 + c; c := h4 / 0x400_0000; h4 := h4 % 0x400_0000;
    ghost var top := c as int;
    assert top == 0 || (top == 1 && h1 as int <= 64);
    h0 := h0 + c * 5; c := h0 / 0x400_0000; h0 := h0 % 0x400_0000;
    h1 := h1 + c;
    CongIntro(Num(h0 as int, h1 as int, h2 as int, h3 as int, h4 as int),
              Num(a0 as int, a1 as int, a2 as int, a3 as int, a4 as int), -top, P);
  }

  /** h + 5, carried; the last limb keeps its carry. */
  method AddFive(h0: uint32, h1: uint32, h2: uint32, h3: uint32, h4: uint32)
    returns (g0: uint32, g1: uint32, g2: uint32, g3: uint32, x4: uint32)
    requires Canonical(h0 as int, h1 as int, h2 as int, h3 as int, h4 as int)
    ensures g0 as int < B1 && g1 as int < B1 && g2 as int < B1 && g3 as int < B1 && x4 as int <= B1
    ensures Num(g0 as int, g1 as int, g2 as int, g3 as int, x4 as int)
         == Num(h0 as int, h1 as int, h2 as int, h3 as int, h4 as int) + 5
  {
    g0 := h0 + 5; var c := g0 / 0x400_0000; g0 := g0 % 0x400_0000;
    g1 := h1 + c; c := g1 / 0x400_0000; g1 := g1 % 0x400_0000;
    g2 := h2 + c; c := g2 / 0x400_0000; g2 := g2 % 0x400_0000;
    g3 := h3 + c; c := g3 / 0x400_0000; g3 := g3 % 0x400_0000;
    x4 := h4 + c;
  }

  /** h or h - P, whichever is below P.  The subtraction of 2^26 wraps in 32 bits,
      and its top bit selects. */
  method Select(h0: uint32, h1: uint32, h2: uint32, h3: uint32, h4: uint32)
    returns (k0: uint32, k1: uint32, k2: uint32, k3: uint32, k4: uint32)
    requires Canonical(h0 as int, h1 as int, h2 as int, h3 as int, h4 as int)
    ensures Canonical(k0 as int, k1 as int, k2 as int, k3 as int, k4 as int)
    ensures Num(k0 as int, k1 as int, k2 as int, k3 as int, k4 as int)
         == Num(h0 as int, h1 as int, h2 as int, h3 as int, h4 as int) % P
  {
    ghost var v := Num(h0 as int, h1 as int, h2 as int, h3 as int, h4 as int);
    var g0, g1, g2, g3, x4 := AddFive(h0, h1, h2, h3, h4);
    var g4 := ((x4 as int - 0x400_0000) % 0x1_0000_0000) as uint32;
    if g4 / 0x8000_0000 == 1 {
      assert x4 as int < B1;
      k0, k1, k2, k3, k4 := h0, h1, h2, h3, h4;
      DivModUnique(v, 0, v, P);
    } else {
      assert x4 as int == B1;
      k0, k1, k2, k3, k4 := g0, g1, g2, g3, g4;
      DivModUnique(v, 1, v - P, P);
    }
  }

  // ---- the tag ------------------------------------------------------------

  /** The four output words exactly as the source forms them from the limbs. */
  function TagWords(h0: int, h1: int, h2: int, h3: int, h4: int, p0: int, p1: int, p2: int, p3: int)
    : (f: (int, int, int, int))
  {
    var f0 := h0 + h1 * 0x400_0000 + p0;
    var f1 := h1 / 0x40 + h2 * 0x10_0000 + p1 + f0 / 0x1_0000_0000;
    var f2 := h2 / 0x1000 + h3 * 0x4000 + p2 + f1 / 0x1_0000_0000;
    var f3 := h3 / 0x4_0000 + h4 * 0x100 + p3 + f2 / 0x1_0000_0000;
    (f0, f1, f2, f3)
  }

  ghost function Words(a: int, b: int, c: int, d: int): int {
    a + 0x1_0000_0000 * b + 0x1_0000_0000_0000_0000 * c + 0x1_0000_0000_0000_0000_0000_0000 * d
  }

  /** The number the four stored words stand for. */
  ghost function TagOf(h0: int, h1: int, h2: int, h3: int, h4: int, p0: int, p1: int, p2: int, p3: int): int {
    var f := TagWords(h0, h1, h2, h3, h4, p0, p1, p2, p3);
    Words(f.0 % 0x1_0000_0000, f.1 % 0x1_0000_0000, f.2 % 0x1_0000_0000, f.3 % 0x1_0000_0000)
  }

  /** What lines 1430 to 1433 add beyond h + s: the high parts of limbs 1 to 3,
      already carried in by the 64-bit sums, a second time. */
  ghost function Excess(h1: int, h2: int, h3: int): int {
    Words(0, h1 / 0x40, h2 / 0x1000, h3 / 0x4_0000)
  }

  lemma TagAlgebra(h0: int, h1: int, h2: int, h3: int, h4: int, a1: int, a2: int, a3: int,
                   p0: int, p1: int, p2: int, p3: int, q0: int, q1: int, q2: int, q3: int,
                   r0: int, r1: int, r2: int, r3: int)
    requires h0 + h1 * 0x400_0000 + p0 == q0 * 0x1_0000_0000 + r0
    requires a1 + h2 * 0x10_0000 + p1 + q0 == q1 * 0x1_0000_0000 + r1
    requires a2 + h3 * 0x4000 + p2 + q1 == q2 * 0x1_0000_0000 + r2
    requires a3 + h4 * 0x100 + p3 + q2 == q3 * 0x1_0000_0000 + r3
    ensures Words(r0, r1, r2, r3)
         == Num(h0, h1, h2, h3, h4) + Words(p0, p1, p2, p3) + Words(0, a1, a2, a3) + (-q3) * TWO128
  {
  }

  lemma TagCong(h0: int, h1: int, h2: int, h3: int, h4: int, p0: int, p1: int, p2: int, p3: int)
    ensures Cong(TagOf(h0, h1, h2, h3, h4, p0, p1, p2, p3),
                 Num(h0, h1, h2, h3, h4) + Words(p0, p1, p2, p3) + Excess(h1, h2, h3), TWO128)
  {
    hide Num, Words, Cong;
    var f := TagWords(h0, h1, h2, h3, h4, p0, p1, p2, p3);
    var q0, q1, q2, q3 := f.0 / 0x1_0000_0000, f.1 / 0x1_0000_0000, f.2 / 0x1_0000_0000, f.3 / 0x1_0000_0000;
    TagAlgebra(h0, h1, h2, h3, h4, h1 / 0x40, h2 / 0x1000, h3 / 0x4_0000, p0, p1, p2, p3, q0, q1, q2, q3,
               f.0 % 0x1_0000_0000, f.1 % 0x1_0000_0000, f.2 % 0x1_0000_0000, f.3 % 0x1_0000_0000);
    CongIntro(TagOf(h0, h1, h2, h3, h4, p0, p1, p2, p3),
              Num(h0, h1, h2, h3, h4) + Words(p0, p1, p2, p3) + Excess(h1, h2, h3), -q3, TWO128);
  }

  /** A residue that is off by e in range is right only when e is zero. */
  lemma ShiftedResidue(t: int, x: int, e: int, m: int)
    requires m > 0 && Cong(t, x + e, m) && 0 <= t < m && 0 <= e < m
    ensures t == x % m <==> e == 0
  {
    DivModUnique(t, 0, t, m);
    if (x + e) % m == x % m {
      var k := CongElim(x + e, x, m);
      assert k >= 1 ==> k * m >= m;
      assert k <= -1 ==> k * m <= -m;
    }
  }

  lemma TagRange(h0: int, h1: int, h2: int, h3: int, h4: int, p0: int, p1: int, p2: int, p3: int)
    ensures 0 <= TagOf(h0, h1, h2, h3, h4, p0, p1, p2, p3) < TWO128
  {
  }

  lemma ExcessRange(h1: int, h2: int, h3: int)
    requires 0 <= h1 < B1 && 0 <= h2 < B1 && 0 <= h3 < B1
    ensures 0 <= Excess(h1, h2, h3) < TWO128
    ensures Excess(h1, h2, h3) == 0 <==> h1 < 0x40 && h2 < 0x1000 && h3 < 0x4_0000
  {
  }

  /** The stored tag is (h + s) mod 2^128 exactly when the three doubled parts are zero. */
  lemma TagExact(h0: int, h1: int, h2: int, h3: int, h4: int, p0: int, p1: int, p2: int, p3: int)
    requires Canonical(h0, h1, h2, h3, h4)
    ensures TagOf(h0, h1, h2, h3, h4, p0, p1, p2, p3) == (Num(h0, h1, h2, h3, h4) + Words(p0, p1, p2, p3)) % TWO128
       <==> h1 < 0x40 && h2 < 0x1000 && h3 < 0x4_0000
  {
    TagCong(h0, h1, h2, h3, h4, p0, p1, p2, p3);
    TagRange(h0, h1, h2, h3, h4, p0, p1, p2, p3);
    ExcessRange(h1, h2, h3);
    ShiftedResidue(TagOf(h0, h1, h2, h3, h4, p0, p1, p2, p3),
                   Num(h0, h1, h2, h3, h4) + Words(p0, p1, p2, p3), Excess(h1, h2, h3), TWO128);
  }

  /** The condition of TagExact on the accumulator itself: bits 32 to 51, 64 to 77
      and 96 to 103 are zero. */
  ghost predicate TagBitsClear(a: int) {
    a / 0x1_0000_0000 % 0x10_0000 == 0 && a / 0x1_0000_0000_0000_0000 % 0x4000 == 0
    && a / 0x1_0000_0000_0000_0000_0000_0000 % 0x100 == 0
  }

  lemma TagBits(h0: int, h1: int, h2: int, h3: int, h4: int)
    requires Canonical(h0, h1, h2, h3, h4)
    ensures TagBitsClear(Num(h0, h1, h2, h3, h4)) <==> h1 < 0x40 && h2 < 0x1000 && h3 < 0x4_0000
  {
    var a := Num(h0, h1, h2, h3, h4);
    LowPart(a, h0 + B1 * (h1 % 0x40), 0x1_0000_0000, h1 / 0x40 + 0x10_0000 * (h2 + B1 * h3 + B2 * h4));
    DivModUnique(h1 / 0x40 + 0x10_0000 * (h2 + B1 * h3 + B2 * h4), h2 + B1 * h3 + B2 * h4, h1 / 0x40, 0x10_0000);
    LowPart(a, h0 + B1 * h1 + B2 * (h2 % 0x1000), 0x1_0000_0000_0000_0000, h2 / 0x1000 + 0x4000 * (h3 + B1 * h4));
    DivModUnique(h2 / 0x1000 + 0x4000 * (h3 + B1 * h4), h3 + B1 * h4, h2 / 0x1000, 0x4000);
    LowPart(a, h0 + B1 * h1 + B2 * h2 + B3 * (h3 % 0x4_0000), 0x1_0000_0000_0000_0000_0000_0000,
            h3 / 0x4_0000 + 0x100 * h4);
    DivModUnique(h3 / 0x4_0000 + 0x100 * h4, h4, h3 / 0x4_0000, 0x100);
  }

  // ---- the context --------------------------------------------------------

  ghost function NumOf(s: seq<uint32>): int
    requires |s| == 5
  {
    Num(s[0] as int, s[1] as int, s[2] as int, s[3] as int, s[4] as int)
  }

  ghost predicate Limbs5(h: seq<uint32>) {
    |h| == 5 && h[0] as int < B1 && h[1] as int <= B1 + 64 && h[2] as int < B1 && h[3] as int < B1 && h[4] as int < B1
  }

  ghost predicate Key5(r: seq<uint32>) {
    |r| == 5 && forall i | 0 <= i < 5 :: r[i] as int <= RMAX
  }

  /** h += block, h *= r: the body of poly1305_block on limb values. */
  method BlockLimbs(h: seq<uint32>, r: seq<uint32>, m: seq<uint8>, hibit: uint32,
                    ghost hv: int, ghost rv: int, ghost n: int) returns (g: seq<uint32>)
    requires Limbs5(h) && Key5(r) && |m| == 16 && (hibit == 0 || hibit == 0x100_0000)
    requires hv == NumOf(h) && rv == NumOf(r) && n == LE(m) + B4 * hibit as int
    ensures Limbs5(g) && Cong(NumOf(g), (hv + n) * rv, P)
  {
    LoadsAreDigits(m);
    DigitRange(m);
    DigitSum(m);
    var h0 := h[0] + (Load32(m, 0) % 0x400_0000) as uint32;
    var h1 := h[1] + (Load32(m, 3) / 4 % 0x400_0000) as uint32;
    var h2 := h[2] + (Load32(m, 6) / 16 % 0x400_0000) as uint32;
    var h3 := h[3] + (Load32(m, 9) / 64 % 0x400_0000) as uint32;
    var h4 := h[4] + ((Load32(m, 12) / 256) as uint32 + hibit);
    var g0, g1, g2, g3, g4 := MulReduce(h0, h1, h2, h3, h4, r[0], r[1], r[2], r[3], r[4]);
    g := [g0, g1, g2, g3, g4];
  }

  /** The five masked loads of poly1305_init. */
  method KeyLimbs(k: seq<uint8>) returns (r: seq<uint32>)
    requires |k| == 16
    ensures Key5(r) && NumOf(r) == LE(ClampKey(k))
  {
    ghost var c := ClampKey(k);
    LoadsAreDigits(k);
    MaskedDigits(k, c);
    DigitRange(c);
    DigitSum(c);
    r := [(Load32(k, 0) % 0x400_0000) as uint32, Mask1(Load32(k, 3) / 4 % 0x400_0000) as uint32,
          Mask2(Load32(k, 6) / 16 % 0x400_0000) as uint32, Mask3(Load32(k, 9) / 64 % 0x400_0000) as uint32,
          Mask4(Load32(k, 12) / 256) as uint32];
  }

  /** The full reduction of poly1305_final: the limbs of the residue below P. */
  method FinalLimbs(h: seq<uint32>) returns (k: seq<uint32>)
    requires Limbs5(h)
    ensures |k| == 5 && Canonical(k[0] as int, k[1] as int, k[2] as int, k[3] as int, k[4] as int)
    ensures NumOf(k) == NumOf(h) % P
  {
    var h0, h1, h2, h3, h4 := CarryPass(h[0], h[1], h[2], h[3], h[4]);
    var k0, k1, k2, k3, k4 := Select(h0, h1, h2, h3, h4);
    k := [k0, k1, k2, k3, k4];
  }

  function Store32(x: int): (b: seq<uint8>)
    requires 0 <= x < 0x1_0000_0000
    ensures |b| == 4
  {
    [(x % 0x100) as uint8, (x / 0x100 % 0x100) as uint8, (x / 0x1_0000 % 0x100) as uint8, (x / 0x100_0000) as uint8]
  }

  lemma Store32Value(x: int)
    requires 0 <= x < 0x1_0000_0000
    ensures LE(Store32(x)) == x
  {
    var b := Store32(x);
    Four(b, 0);
    assert b[0..] == b && b[4..] == [];
    assert LE(b) == Load32(b, 0);
    hide LE;
    FourDigits(x);
  }

  lemma FourDigits(x: int)
    ensures x == x % 0x100 + x / 0x100 % 0x100 * 0x100 + x / 0x1_0000 % 0x100 * 0x1_0000 + x / 0x100_0000 * 0x100_0000
  {
    var y := x / 0x100;
    assert x / 0x1_0000 == y / 0x100 && x / 0x100_0000 == y / 0x100 / 0x100;
  }

  lemma StoreWords(a: int, b: int, c: int, d: int)
    requires 0 <= a < 0x1_0000_0000 && 0 <= b < 0x1_0000_0000 && 0 <= c < 0x1_0000_0000 && 0 <= d < 0x1_0000_0000
    ensures LE(Store32(a) + Store32(b) + Store32(c) + Store32(d)) == Words(a, b, c, d)
  {
    Store32Value(a); Store32Value(b); Store32Value(c); Store32Value(d);
    var x := Store32(a) + Store32(b);
    LEAppend(Store32(a), Store32(b));
    LEAppend(x, Store32(c));
    LEAppend(x + Store32(c), Store32(d));
    assert Pow(256, 4) == 0x1_0000_0000 && Pow(256, 8) == 0x1_0000_0000_0000_0000;
    assert Pow(256, 12) == 0x1_0000_0000_0000_0000_0000_0000;
  }

  /** A message block closed by the byte 1 and zeros has the number of the block. */
  lemma PaddedBlock(b: seq<uint8>, p: seq<uint8>)
    requires |b| < 16 == |p| && p[..|b|] == b && p[|b|] == 1 && forall i | |b| < i < 16 :: p[i] == 0
    ensures LE(p) == BlockNumber(b)
  {
    assert p == b + p[|b|..];
    LEAppend(b, p[|b|..]);
    LEZeros(p[|b| + 1..]);
    FirstByte(p, |b|);
  }

  lemma {:induction false} LEZeros(s: seq<uint8>)
    requires forall i | 0 <= i < |s| :: s[i] == 0
    ensures LE(s) == 0
    decreases |s|
  {
    if s != [] {
      LEZeros(s[1..]);
    }
  }

  lemma FullBlock(b: seq<uint8>)
    requires |b| == 16
    ensures BlockNumber(b) == LE(b) + B4 * 0x100_0000
  {
    PowAdd(256, 8, 8);
    assert Pow(256, 8) == 0x1_0000_0000_0000_0000;
  }

  /** A number congruent to the accumulator after the whole blocks x. */
  ghost predicate Absorbs(h: int, r: int, x: seq<uint8>) {
    |x| % 16 == 0 && h % P == RfcAcc(r, x)
  }

  lemma BlockCong(g: int, h: int, a: int, n: int, r: int)
    requires Cong(g, (h + n) * r, P) && h % P == a
    ensures g % P == (a + n) * r % P
  {
    CongMod(h, P);
    CongAdd(h, a, n, n, P);
    CongMul(h + n, a + n, r, r, P);
  }

  lemma AbsorbBlock(g: int, h: int, r: int, x: seq<uint8>, b: seq<uint8>, n: int)
    requires Absorbs(h, r, x) && 0 < |b| <= 16 && n == BlockNumber(b) && Cong(g, (h + n) * r, P)
    ensures g % P == RfcAcc(r, x + b)
  {
    RfcAccAppend(r, x, b);
    BlockCong(g, h, RfcAcc(r, x), n, r);
  }

  lemma TailOf(a: seq<uint8>, m: seq<uint8>, i: nat)
    requires i <= |m| && |m| - i < 16 && |a + m[..i]| % 16 == 0
    ensures |a + m| % 16 == |m| - i
    ensures (a + m)[..|a + m| - (|m| - i)] == a + m[..i] && (a + m)[|a + m| - (|m| - i)..] == m[i..]
  {
  }

  lemma FillParts(a: seq<uint8>, m: seq<uint8>, n: nat, i: nat)
    requires 0 < n == |a| % 16 && i <= |m| && n + i <= 16
    ensures var x := a + m[..i]; var k := |a| - n;
            x[..k] == a[..k] && x[k..] == a[k..] + m[..i] && x == a[..k] + (a[k..] + m[..i])
            && |x| % 16 == (n + i) % 16 && x[..|x|] == x && x[|x|..] == []
  {
  }

  method AbsorbLimbs(h: seq<uint32>, r: seq<uint32>, m: seq<uint8>, hibit: uint32,
                     ghost x: seq<uint8>, ghost b: seq<uint8>) returns (g: seq<uint32>)
    requires Limbs5(h) && Key5(r) && |m| == 16 && (hibit == 0 || hibit == 0x100_0000)
    requires Absorbs(NumOf(h), NumOf(r), x) && 0 < |b| <= 16 && LE(m) + B4 * hibit as int == BlockNumber(b)
    ensures Limbs5(g) && NumOf(g) % P == RfcAcc(NumOf(r), x + b)
  {
    ghost var hv, rv, n := NumOf(h), NumOf(r), BlockNumber(b);
    g := BlockLimbs(h, r, m, hibit, hv, rv, n);
    AbsorbBlock(NumOf(g), hv, rv, x, b, n);
  }

  class Context {
    var r: seq<uint32>
    var h: seq<uint32>
    var pad: seq<int>
    var bufLen: nat
    const buf: array<uint8>
    // The bytes absorbed so far.
    ghost var msg: seq<uint8>

    ghost predicate Valid()
      reads this, buf
    {
      Key5(r) && Limbs5(h) && |pad| == 4 && buf.Length == 16 && Pending(msg)
    }

    /** Whole blocks of x are in the accumulator, the rest of x is buffered. */
    ghost predicate Pending(x: seq<uint8>)
      requires |h| == |r| == 5 && buf.Length == 16
      reads this`h, this`r, this`bufLen, buf
    {
      bufLen == |x| % 16 && buf[..bufLen] == x[|x| - bufLen..] && Absorbed(x[..|x| - bufLen])
    }

    /** The accumulator stands for whole blocks x. */
    ghost predicate Absorbed(x: seq<uint8>)
      requires |h| == |r| == 5
      reads this`h, this`r
    {
      Absorbs(NumOf(h), NumOf(r), x)
    }

    constructor (key: seq<uint8>)
      requires |key| == 32
      ensures Valid() && fresh(buf) && msg == []
      ensures NumOf(r) == LE(ClampKey(key[..16]))
      ensures Words(pad[0], pad[1], pad[2], pad[3]) == LE(key[16..])
    {
      var rr := KeyLimbs(key[..16]);
      r := rr;
      h := [0, 0, 0, 0, 0];
      pad := [Load32(key, 16), Load32(key, 20), Load32(key, 24), Load32(key, 28)];
      bufLen := 0;
      buf := new uint8[16](_ => 0);
      msg := [];
      new;
      Sixteen(key[16..]);
    }

    /** poly1305_block on a full block. */
    method Block(m: seq<uint8>, ghost x: seq<uint8>)
      requires Key5(r) && Limbs5(h) && |m| == 16 && Absorbed(x)
      modifies this`h
      ensures Limbs5(h) && Absorbed(x + m)
    {
      hide RfcAcc;
      FullBlock(m);
      h := AbsorbLimbs(h, r, m, 0x100_0000, x, m);
    }

    method CopyIn(at: nat, m: seq<uint8>, from: nat, n: nat)
      requires buf.Length == 16 && at + n <= 16 && from + n <= |m|
      modifies buf
      ensures buf[..at] == old(buf[..at]) && buf[at..at + n] == m[from..from + n]
    {
      for i := 0 to n
        invariant buf[..at] == old(buf[..at]) && buf[at..at + i] == m[from..from + i]
      {
        buf[at + i] := m[from + i];
      }
    }

    /** Copies as many bytes of m as the buffer takes. */
    method TopUp(m: seq<uint8>) returns (i: nat)
      requires buf.Length == 16 && 0 < bufLen < 16
      modifies this`bufLen, buf
      ensures i <= |m| && bufLen == old(bufLen) + i <= 16 && (i == |m| || bufLen == 16)
      ensures buf[..bufLen] == old(buf[..bufLen]) + m[..i]
    {
      var space := 16 - bufLen;
      i := if |m| < space then |m| else space;
      CopyIn(bufLen, m, 0, i);
      assert buf[..bufLen + i] == buf[..bufLen] + buf[bufLen..bufLen + i];
      bufLen := bufLen + i;
    }

    /** Tops up a partial buffer and absorbs it when it becomes full. */
    method Fill(m: seq<uint8>) returns (i: nat)
      requires Valid() && bufLen != 0
      modifies this`h, this`bufLen, buf
      ensures Limbs5(h) && i <= |m| && Pending(msg + m[..i]) && (i == |m| || bufLen == 0)
    {
      hide RfcAcc, NumOf, Absorbs, Absorbed;
      ghost var n := bufLen;
      i := TopUp(m);
      FillParts(msg, m, n, i);
      if bufLen == 16 {
        assert buf[..] == buf[..16];
        Block(buf[..], msg[..|msg| - n]);
        bufLen := 0;
      }
    }

    /** Absorbs the whole blocks of m from i on. */
    method Whole(m: seq<uint8>, at: nat) returns (i: nat)
      requires Key5(r) && Limbs5(h) && buf.Length == 16 && at <= |m| && bufLen == 0 && Absorbed(msg + m[..at])
      modifies this`h
      ensures Limbs5(h) && at <= i <= |m| && |m| - i < 16 && Absorbed(msg + m[..i])
    {
      hide RfcAcc;
      i := at;
      while |m| - i >= 16
        invariant Limbs5(h) && at <= i <= |m| && Absorbed(msg + m[..i])
      {
        ghost var x := msg + m[..i];
        Block(m[i..i + 16], x);
        assert x + m[i..i + 16] == msg + m[..i + 16];
        i := i + 16;
      }
    }

    /** Buffers what is left of m after its whole blocks. */
    method Rest(m: seq<uint8>, i: nat)
      requires Key5(r) && Limbs5(h) && buf.Length == 16 && i <= |m| && |m| - i < 16
      requires bufLen == 0 && Absorbed(msg + m[..i])
      modifies this`bufLen, buf
      ensures Pending(msg + m)
    {
      hide RfcAcc;
      if i < |m| {
        CopyIn(0, m, i, |m| - i);
        bufLen := |m| - i;
      }
      TailOf(msg, m, i);
    }

    /** poly1305_update: the state afterwards is that of the longer message. */
    method Update(m: seq<uint8>)
      requires Valid()
      modifies this`h, this`bufLen, this`msg, buf
      ensures Valid() && msg == old(msg) + m
    {
      hide RfcAcc, NumOf, Absorbs, Absorbed;
      var i := 0;
      assert msg + m[..0] == msg && m[..|m|] == m;
      if bufLen != 0 {
        i := Fill(m);
      }
      if bufLen == 0 {
        ghost var x := msg + m[..i];
        assert x[..|x|] == x;
        i := Whole(m, i);
        Rest(m, i);
      }
      msg := msg + m;
    }

    /** The bytes 1, 0, 0, ... that close the last, partial block. */
    method PadBuffer()
      requires buf.Length == 16 && bufLen < 16
      modifies buf
      ensures buf[..bufLen] == old(buf[..bufLen]) && buf[bufLen] == 1
      ensures forall j | bufLen < j < 16 :: buf[j] == 0
    {
      buf[bufLen] := 1;
      for i := bufLen + 1 to 16
        invariant buf[..bufLen] == old(buf[..bufLen]) && buf[bufLen] == 1
        invariant forall j | bufLen < j < i :: buf[j] == 0
      {
        buf[i] := 0;
      }
    }

    /** Absorbs the last partial block, if there is one. */
    method CloseMessage()
      requires Valid()
      modifies this`h, buf
      ensures Limbs5(h) && NumOf(h) % P == RfcAcc(NumOf(r), msg)
    {
      hide RfcAcc;
      ghost var done, b := msg[..|msg| - bufLen], msg[|msg| - bufLen..];
      assert msg == done + b;
      if bufLen != 0 {
        PadBuffer();
        PaddedBlock(b, buf[..]);
        h := AbsorbLimbs(h, r, buf[..], 0, done, b);
      } else {
        assert done == msg;
      }
    }

    /** poly1305_final: the limbs are those of the RFC accumulator, the bytes are the
        words the source builds from them, and nothing of the key stays behind. */
    method Final() returns (mac: seq<uint8>, ghost k: seq<uint32>)
      requires Valid()
      modifies this`r, this`h, this`pad, this`bufLen, buf
      ensures |mac| == 16 && |k| == 5
      ensures Canonical(k[0] as int, k[1] as int, k[2] as int, k[3] as int, k[4] as int)
      ensures NumOf(k) == old(RfcAcc(NumOf(r), msg))
      ensures LE(mac) == TagOf(k[0] as int, k[1] as int, k[2] as int, k[3] as int, k[4] as int,
                               old(pad)[0], old(pad)[1], old(pad)[2], old(pad)[3])
      ensures r == h == [0, 0, 0, 0, 0] && pad == [0, 0, 0, 0] && bufLen == 0
      ensures forall j | 0 <= j < buf.Length :: buf[j] == 0
    {
      hide RfcAcc;
      CloseMessage();
      var q := FinalLimbs(h);
      k := q;
      mac := TagBytes(q, pad);
      Wipe();
    }

    method Wipe()
      modifies this`r, this`h, this`pad, this`bufLen, buf
      ensures r == h == [0, 0, 0, 0, 0] && pad == [0, 0, 0, 0] && bufLen == 0
      ensures forall j | 0 <= j < buf.Length :: buf[j] == 0
    {
      for i := 0 to buf.Length
        invariant forall j | 0 <= j < i :: buf[j] == 0
      {
        buf[i] := 0;
      }
      r, h, pad, bufLen := [0, 0, 0, 0, 0], [0, 0, 0, 0, 0], [0, 0, 0, 0], 0;
    }
  }

  method TagBytes(k: seq<uint32>, pad: seq<int>) returns (mac: seq<uint8>)
    requires |k| == 5 && |pad| == 4
    ensures |mac| == 16
    ensures LE(mac) == TagOf(k[0] as int, k[1] as int, k[2] as int, k[3] as int, k[4] as int,
                             pad[0], pad[1], pad[2], pad[3])
  {
    var f := TagWords(k[0] as int, k[1] as int, k[2] as int, k[3] as int, k[4] as int,
                      pad[0], pad[1], pad[2], pad[3]);
    StoreWords(f.0 % 0x1_0000_0000, f.1 % 0x1_0000_0000, f.2 % 0x1_0000_0000, f.3 % 0x1_0000_0000);
    mac := Store32(f.0 % 0x1_0000_0000) + Store32(f.1 % 0x1_0000_0000)
         + Store32(f.2 % 0x1_0000_0000) + Store32(f.3 % 0x1_0000_0000);
  }

  /** For every key and message the stored tag is the RFC tag exactly when bits
      32-51, 64-77 and 96-103 of the accumulator are zero. */
  lemma TagIsRfcIff(r: int, m: seq<uint8>, h0: int, h1: int, h2: int, h3: int, h4: int,
                    p0: int, p1: int, p2: int, p3: int)
    requires Canonical(h0, h1, h2, h3, h4) && Num(h0, h1, h2, h3, h4) == RfcAcc(r, m)
    ensures TagOf(h0, h1, h2, h3, h4, p0, p1, p2, p3) == RfcTag(r, Words(p0, p1, p2, p3), m)
       <==> TagBitsClear(RfcAcc(r, m))
  {
    hide RfcAcc, TagOf;
    TagExact(h0, h1, h2, h3, h4, p0, p1, p2, p3);
    TagBits(h0, h1, h2, h3, h4);
  }

  /** Key and message in, tag out: the tag is that of the RFC exactly when those bits of
      the accumulator are zero. */
  method Mac(key: seq<uint8>, m: seq<uint8>) returns (mac: seq<uint8>)
    requires |key| == 32
    ensures |mac| == 16
    ensures var r := LE(ClampKey(key[..16]));
            LE(mac) == RfcTag(r, LE(key[16..]), m) <==> TagBitsClear(RfcAcc(r, m))
  {
    hide RfcAcc, RfcTag, TagOf, TagBitsClear, ClampKey, LE, Canonical, Words, Context.Pending;
    var c := new Context(key);
    c.Update(m);
    assert [] + m == m;
    ghost var pad, r := c.pad, NumOf(c.r);
    ghost var k;
    mac, k := c.Final();
    TagIsRfcIff(r, m, k[0] as int, k[1] as int, k[2] as int, k[3] as int, k[4] as int, pad[0], pad[1], pad[2], pad[3]);
  }

  const ONE: seq<uint8> := [1, 0, 0, 0, 0, 0, 0, 0, 0, 0, 0, 0, 0, 0, 0, 0]

  lemma OneKey()
    ensures ClampKey(ONE) == ONE && LE(ONE) == 1
  {
    assert ClampKey(ONE) == ONE && ONE[0..] == ONE;
    LEZeros(ONE[1..]);
    hide LE;
    FirstByte(ONE, 0);
  }

  lemma ZeroMessage()
    ensures RfcAcc(1, [0, 0, 0, 0]) == 0x1_0000_0000 && !TagBitsClear(RfcAcc(1, [0, 0, 0, 0]))
  {
    var z: seq<uint8> := [0, 0, 0, 0];
    LEZeros(z);
    assert Pow(256, 4) == 0x1_0000_0000;
    RfcAccAppend(1, [], z);
    assert [] + z == z;
  }

  /** Under a key whose first half is 1, the four-byte zero message gets a wrong tag,
      whatever the second half is. */
  method TagCounterexample(s: seq<uint8>) returns (mac: seq<uint8>)
    requires |s| == 16
    ensures |mac| == 16 && LE(mac) != RfcTag(LE(ClampKey(ONE)), LE(s), [0, 0, 0, 0])
  {
    OneKey();
    ZeroMessage();
    hide RfcAcc, RfcTag, TagBitsClear, ClampKey, LE;
    var key := ONE + s;
    assert key[..16] == ONE && key[16..] == s;
    mac := Mac(key, [0, 0, 0, 0]);
  }
}
