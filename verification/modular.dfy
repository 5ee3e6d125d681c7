/** Congruence modulo a positive integer, with the handful of laws the limb
    arithmetic needs.  Every law is stated for an arbitrary modulus, so that no
    proof has to look at the size of 2^255 - 19 or of the group order. */
module Modular {

  ghost predicate Cong(a: int, b: int, m: int)
    requires m > 0
  {
    a % m == b % m
  }

  function Pow(b: int, e: nat): (r: int)
    decreases e
  {
    if e == 0 then 1 else b * Pow(b, e - 1)
  }

  lemma {:induction false} DivModUnique(a: int, q: int, r: int, m: int)
    requires m > 0 && 0 <= r < m && a == q * m + r
    ensures a / m == q && a % m == r
  {
    var q', r' := a / m, a % m;
    assert a == q' * m + r';
    assert (q - q') * m == r' - r;
    assert q - q' >= 1 ==> (q - q') * m >= m;
    assert q - q' <= -1 ==> (q - q') * m <= -m;
  }

  lemma CongIntro(a: int, b: int, k: int, m: int)
    requires m > 0 && a == b + k * m
    ensures Cong(a, b, m)
  {
    var q, r := b / m, b % m;
    assert b == q * m + r;
    assert a == (q + k) * m + r;
    DivModUnique(a, q + k, r, m);
  }

  lemma CongElim(a: int, b: int, m: int) returns (k: int)
    requires m > 0 && Cong(a, b, m)
    ensures a == b + k * m
  {
    k := a / m - b / m;
    assert a == (a / m) * m + a % m;
    assert b == (b / m) * m + b % m;
    assert (a / m - b / m) * m == (a / m) * m - (b / m) * m;
  }

  lemma CongMod(a: int, m: int)
    requires m > 0
    ensures Cong(a, a % m, m)
  {
    assert a == (a / m) * m + a % m;
    CongIntro(a, a % m, a / m, m);
  }

  lemma CongAdd(a: int, a': int, b: int, b': int, m: int)
    requires m > 0 && Cong(a, a', m) && Cong(b, b', m)
    ensures Cong(a + b, a' + b', m) && Cong(a - b, a' - b', m)
  {
    var k := CongElim(a, a', m);
    var l := CongElim(b, b', m);
    assert (k + l) * m == k * m + l * m && (k - l) * m == k * m - l * m;
    CongIntro(a + b, a' + b', k + l, m);
    CongIntro(a - b, a' - b', k - l, m);
  }

  lemma CongMul(a: int, a': int, b: int, b': int, m: int)
    requires m > 0 && Cong(a, a', m) && Cong(b, b', m)
    ensures Cong(a * b, a' * b', m)
  {
    var k := CongElim(a, a', m);
    var l := CongElim(b, b', m);
    var w := k * b' + a' * l + k * l * m;
    calc {
      a * b;
      (a' + k * m) * (b' + l * m);
      a' * b' + a' * (l * m) + (k * m) * b' + (k * m) * (l * m);
      { assert a' * (l * m) == (a' * l) * m;
        assert (k * m) * b' == (k * b') * m;
        assert (k * m) * (l * m) == (k * l * m) * m; }
      a' * b' + (a' * l) * m + (k * b') * m + (k * l * m) * m;
      a' * b' + w * m;
    }
    CongIntro(a * b, a' * b', w, m);
  }

  lemma {:induction false} CongPow(a: int, a': int, e: nat, m: int)
    requires m > 0 && Cong(a, a', m)
    ensures Cong(Pow(a, e), Pow(a', e), m)
    decreases e
  {
    if e > 0 {
      CongPow(a, a', e - 1, m);
      CongMul(a, a', Pow(a, e - 1), Pow(a', e - 1), m);
    }
  }

  lemma {:induction false} PowAdd(b: int, x: nat, y: nat)
    ensures Pow(b, x + y) == Pow(b, x) * Pow(b, y)
    decreases x
  {
    if x > 0 {
      PowAdd(b, x - 1, y);
      assert b * (Pow(b, x - 1) * Pow(b, y)) == (b * Pow(b, x - 1)) * Pow(b, y);
    }
  }

  lemma NestedRemainder(x: int, a: int, b: int, q: int, r: int, s: int)
    requires a > 0 && b > 0 && 0 <= r < a && 0 <= s < b && x == a * (b * q + s) + r
    ensures a * b > 0 && 0 <= a * s + r < a * b && x == q * (a * b) + (a * s + r)
  {
    assert a * (b * q + s) == a * (b * q) + a * s;
    assert a * (b * q) == q * (a * b);
    assert 0 <= a * s <= a * (b - 1);
    assert a * (b - 1) == a * b - a;
  }

  lemma DivDiv(x: int, a: int, b: int)
    requires a > 0 && b > 0
    ensures a * b > 0 && x / a / b == x / (a * b)
  {
    var y := x / a;
    NestedRemainder(x, a, b, y / b, x % a, y % b);
    DivModUnique(x, y / b, a * (y % b) + x % a, a * b);
  }

  lemma {:induction false} PowPow(b: int, k: nat, i: nat)
    ensures Pow(Pow(b, k), i) == Pow(b, k * i)
    decreases i
  {
    if i > 0 {
      PowPow(b, k, i - 1);
      assert k * i == k + k * (i - 1);
      PowAdd(b, k, k * (i - 1));
    } else {
      assert k * i == 0;
    }
  }

  lemma {:induction false} PowPositive(b: int, i: nat)
    requires b > 0
    ensures Pow(b, i) > 0
  {
    if i > 0 {
      PowPositive(b, i - 1);
    }
  }

  lemma LowPart(v: int, lo: int, p: int, hi: int)
    requires p > 0 && v == lo + p * hi && 0 <= lo < p
    ensures v / p == hi
  {
    assert p * hi == hi * p;
    DivModUnique(v, hi, lo, p);
  }

  lemma DivShift(x: int, k: int, p: int)
    requires p > 0
    ensures (x + k * p) / p == x / p + k
  {
    var q, r := x / p, x % p;
    assert x + k * p == (q + k) * p + r;
    DivModUnique(x + k * p, q + k, r, p);
  }

  lemma {:induction false} MulNonneg(x: nat, y: nat)
    ensures x * y >= 0
    decreases x
  {
    if x > 0 {
      MulNonneg(x - 1, y);
      assert x * y == (x - 1) * y + y;
    }
  }

  /** Products grow with both factors. */
  lemma MulLe(a: int, b: int, c: int, d: int)
    requires 0 <= a <= b && 0 <= c <= d
    ensures 0 <= a * c <= b * d
  {
    MulNonneg(a, c);
    MulNonneg(b - a, d);
    MulNonneg(a, d - c);
    assert b * d == a * c + (b - a) * d + a * (d - c);
  }
}
