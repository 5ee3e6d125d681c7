/** Fixed-width machine integers.  Arithmetic on these types is checked by the
    verifier operation by operation, so a body written with them cannot leave
    the range of the C type it models.  A right shift is written as a division
    (which rounds down for every sign) and a mask of low bits as a remainder. */
module Machine {
  newtype uint8 = x: int | 0 <= x < 0x100
  newtype uint32 = x: int | 0 <= x < 0x1_0000_0000
  newtype uint64 = x: int | 0 <= x < 0x1_0000_0000_0000_0000
  newtype int64 = x: int | -0x8000_0000_0000_0000 <= x < 0x8000_0000_0000_0000
}

/** Little-endian numbers: a sequence of signed limbs in some base, and byte strings. */
module Limbs {
  import opened Machine
  import opened Modular

  lemma MulIn(b: int, x: int, p: int, v: int)
    ensures b * (x + p * v) == b * x + (b * p) * v == b * x + v * (b * p)
  {
  }

  ghost function Val(s: seq<int64>, b: int): (r: int)
    decreases |s|
  {
    if s == [] then 0 else s[0] as int + b * Val(s[1..], b)
  }

  lemma {:induction false} ValUpdate(s: seq<int64>, i: nat, x: int64, b: int)
    requires i < |s|
    ensures Val(s[i := x], b) == Val(s, b) + (x as int - s[i] as int) * Pow(b, i)
    decreases i
  {
    var u := s[i := x];
    if i == 0 {
      assert u[1..] == s[1..];
    } else {
      assert u[1..] == s[1..][i - 1 := x];
      ValUpdate(s[1..], i - 1, x, b);
      MulIn(b, Val(s[1..], b), Pow(b, i - 1), x as int - s[i] as int);
    }
  }

  lemma {:induction false} ValAppend(s: seq<int64>, t: seq<int64>, b: int)
    ensures Val(s + t, b) == Val(s, b) + Pow(b, |s|) * Val(t, b)
    decreases |s|
  {
    if s == [] {
      assert s + t == t;
    } else {
      assert (s + t)[1..] == s[1..] + t;
      ValAppend(s[1..], t, b);
      MulIn(b, Val(s[1..], b), Pow(b, |s| - 1), Val(t, b));
    }
  }

  lemma ValPrefix(s: seq<int64>, i: nat, b: int)
    requires i < |s|
    ensures Val(s[..i + 1], b) == Val(s[..i], b) + s[i] as int * Pow(b, i)
  {
    assert s[..i + 1] == s[..i] + [s[i]];
    ValAppend(s[..i], [s[i]], b);
    assert Val([s[i]], b) == s[i] as int;
  }

  lemma {:induction false} ValZero(s: seq<int64>, b: int)
    requires forall i | 0 <= i < |s| :: s[i] == 0
    ensures Val(s, b) == 0
    decreases |s|
  {
    if s != [] {
      ValZero(s[1..], b);
    }
  }

  lemma SumStep(x: int, y: int, v: int, w: int, k: int, b: int)
    ensures (x + k * y) + b * (v + k * w) == (x + b * v) + k * (y + b * w)
  {
    assert b * (k * w) == k * (b * w);
  }

  lemma {:induction false} ValSum(x: seq<int64>, y: seq<int64>, z: seq<int64>, k: int, b: int)
    requires |x| == |z| >= |y|
    requires forall i | 0 <= i < |y| :: z[i] as int == x[i] as int + k * y[i] as int
    requires forall i | |y| <= i < |x| :: z[i] == x[i]
    ensures Val(z, b) == Val(x, b) + k * Val(y, b)
    decreases |x|
  {
    if y == [] {
      assert x == z;
    } else {
      ValSum(x[1..], y[1..], z[1..], k, b);
      SumStep(x[0] as int, y[0] as int, Val(x[1..], b), Val(y[1..], b), k, b);
    }
  }

  lemma ProductBound(x: int, y: int, m: int)
    requires -m <= x <= m && -m <= y <= m
    ensures -(m * m) <= x * y <= m * m
  {
    assert (m - x) * (m + y) >= 0 && (m + x) * (m - y) >= 0;
    assert (m - x) * (m - y) >= 0 && (m + x) * (m + y) >= 0;
  }

  lemma Rearrange(x: int, y: int, p: int, r: int, v: int)
    ensures x * p * (v + y * r) == x * p * v + (x * y) * (p * r)
  {
    assert (x * p) * (y * r) == (x * y) * (p * r);
    assert (x * p) * (v + y * r) == (x * p) * v + (x * p) * (y * r);
  }

  /** One inner step of the schoolbook product. */
  lemma ConvolveStep(t: seq<int64>, t': seq<int64>, y: seq<int64>, i: nat, j: nat, x: int, w: int, b: int)
    requires i + j < |t| == |t'| && j < |y|
    requires t' == t[i + j := t'[i + j]] && t'[i + j] as int == t[i + j] as int + x * y[j] as int
    requires Val(t, b) == w + x * Pow(b, i) * Val(y[..j], b)
    ensures Val(t', b) == w + x * Pow(b, i) * Val(y[..j + 1], b)
  {
    ValUpdate(t, i + j, t'[i + j], b);
    PowAdd(b, i, j);
    assert Val(t', b) == Val(t, b) + (x * y[j] as int) * (Pow(b, i) * Pow(b, j));
    ValPrefix(y, j, b);
    Rearrange(x, y[j] as int, Pow(b, i), Pow(b, j), Val(y[..j], b));
  }

  /** Closing one row of the schoolbook product. */
  lemma ConvolveRow(x: seq<int64>, v: int, i: nat, w: int, b: int)
    requires i < |x| && w == Val(x[..i], b) * v + x[i] as int * Pow(b, i) * v
    ensures w == Val(x[..i + 1], b) * v
  {
    ValPrefix(x, i, b);
    assert (Val(x[..i], b) + x[i] as int * Pow(b, i)) * v
        == Val(x[..i], b) * v + x[i] as int * Pow(b, i) * v;
  }

  /** The number a little-endian byte string stands for. */
  function LE(s: seq<uint8>): (r: nat)
    decreases |s|
  {
    if s == [] then 0 else s[0] as int + 256 * LE(s[1..])
  }

  lemma FirstByte(p: seq<uint8>, at: nat)
    requires at < |p|
    ensures LE(p[at..]) == p[at] as int + 0x100 * LE(p[at + 1..])
  {
    assert p[at..][1..] == p[at + 1..];
  }

  lemma {:induction false} LEAppend(s: seq<uint8>, t: seq<uint8>)
    ensures LE(s + t) == LE(s) + Pow(256, |s|) * LE(t)
    decreases |s|
  {
    if s == [] {
      assert s + t == t;
    } else {
      assert (s + t)[1..] == s[1..] + t;
      LEAppend(s[1..], t);
      MulIn(256, LE(s[1..]), Pow(256, |s| - 1), LE(t));
    }
  }

  lemma LEPrefix(s: seq<uint8>, i: nat)
    requires i < |s|
    ensures LE(s[..i + 1]) == LE(s[..i]) + s[i] as int * Pow(256, i)
  {
    assert s[..i + 1] == s[..i] + [s[i]];
    LEAppend(s[..i], [s[i]]);
    assert LE([s[i]]) == s[i] as int;
  }

  lemma {:induction false} LEBound(s: seq<uint8>)
    ensures LE(s) < Pow(256, |s|)
    decreases |s|
  {
    if s != [] {
      LEBound(s[1..]);
    }
  }

  /** A byte string is determined by its length and its number. */
  lemma {:induction false} LEInjective(s: seq<uint8>, t: seq<uint8>)
    requires |s| == |t| && LE(s) == LE(t)
    ensures s == t
    decreases |s|
  {
    if s != [] {
      assert LE(s) % 256 == s[0] as int && LE(t) % 256 == t[0] as int;
      LEInjective(s[1..], t[1..]);
      assert s == [s[0]] + s[1..] && t == [t[0]] + t[1..];
    }
  }
}

/** Byte buffers written in place. */
module Memory {
  import opened Machine

  /** Bytes t written over s at an offset. */
  function Splice(s: seq<uint8>, at: nat, t: seq<uint8>): (r: seq<uint8>)
    requires at + |t| <= |s|
    ensures |r| == |s|
  {
    s[..at] + t + s[at + |t|..]
  }

  lemma SpliceParts(s: seq<uint8>, at: nat, t: seq<uint8>)
    requires at + |t| <= |s|
    ensures Splice(s, at, t)[at..at + |t|] == t
    ensures forall i | 0 <= i < |s| && !(at <= i < at + |t|) :: Splice(s, at, t)[i] == s[i]
  {
  }

  /** memcpy into a buffer; everything else stays. */
  method CopyIn(out: array<uint8>, at: nat, s: seq<uint8>)
    requires at + |s| <= out.Length
    modifies out
    ensures out[..] == old(out[..at]) + s + old(out[at + |s|..])
  {
    for i := 0 to |s|
      invariant out[..] == old(out[..at]) + s[..i] + old(out[at + i..])
    {
      out[at + i] := s[i];
    }
  }
}
