/** Powers of two, and remainders by them. */
module Powers {
  function Pow2(k: nat): (r: nat)
    ensures r > 0
  {
    if k == 0 then 1 else 2 * Pow2(k - 1)
  }

  lemma {:induction false} Pow2Sum(h: nat, k: nat)
    ensures Pow2(h + k) == Pow2(h) * Pow2(k)
  {
    if k > 0 {
      Pow2Sum(h, k - 1);
      assert Pow2(h) * Pow2(k) == Pow2(h) * Pow2(k - 1) * 2;
    }
  }

  lemma {:induction false} RemainderIs(q: int, p: nat, r: nat)
    requires r < p
    ensures (q * p + r) % p == r
  {
    var v := q * p + r;
    var d := v / p - q;
    assert v == v / p * p + v % p;
    assert d * p == r - v % p;
    if d >= 1 {
      assert d * p == (d - 1) * p + p;
    } else if d <= -1 {
      assert d * p == (d + 1) * p - p;
    }
  }

  lemma {:induction false} Regroup(q: int, p: nat, c: nat, a: int, b: int)
    ensures q * (p * c) + (a * p + b) == (q * c + a) * p + b
  {}

  lemma {:induction false} RemainderOfMultiple(x: int, p: nat, c: nat)
    requires p > 0 && c > 0
    ensures p * c > 0 && x % (p * c) % p == x % p
  {
    Positive(p, c);
    var q, r := x / (p * c), x % (p * c);
    Regroup(q, p, c, r / p, r % p);
    assert x == q * (p * c) + r && r == r / p * p + r % p;
    RemainderIs(q * c + r / p, p, r % p);
  }

  lemma {:induction false} Positive(p: nat, c: nat)
    requires p > 0 && c > 0
    ensures p * c > 0
  {}

  /** Taking the remainder by a larger power first makes no difference. */
  lemma {:induction false} RemainderTwice(x: int, h: nat, k: nat)
    requires h <= k
    ensures x % Pow2(k) % Pow2(h) == x % Pow2(h)
  {
    hide Pow2;
    Pow2Sum(h, k - h);
    RemainderOfMultiple(x, Pow2(h), Pow2(k - h));
  }

  /** Numbers have the same remainder exactly if their difference is a multiple. */
  lemma {:induction false} SameRemainder(x: int, y: int, p: nat)
    requires p > 0
    ensures x % p == y % p <==> (x - y) % p == 0
  {
    var d := x / p - y / p;
    assert x == x / p * p + x % p && y == y / p * p + y % p;
    assert x - y == d * p + (x % p - y % p);
    if x % p >= y % p {
      RemainderIs(d, p, x % p - y % p);
    } else {
      assert x - y == (d - 1) * p + (p + x % p - y % p);
      RemainderIs(d - 1, p, p + x % p - y % p);
    }
  }

  lemma {:induction false} MultipleOf(q: int, p: nat)
    requires p > 0
    ensures q * p % p == 0
  {
    RemainderIs(q, p, 0);
  }

  /** Half of an even product with an odd factor. */
  lemma {:induction false} HalfProduct(m: nat, d: int, q: int, half: nat)
    requires m % 2 == 1 && m * d == q * (2 * half)
    ensures d % 2 == 0 && m * (d / 2) == q * half
  {
    var n := m / 2;
    assert m * d == 2 * (n * d) + d;
    assert q * (2 * half) == 2 * (q * half);
    assert d == 2 * (q * half - n * d);
    assert m * d == 2 * (m * (d / 2));
  }

  /** If half a number is a multiple of half a power, the number is a multiple of the power. */
  lemma {:induction false} DoubleMultiple(d: int, half: nat)
    requires half > 0 && d % 2 == 0 && d / 2 % half == 0
    ensures d % (2 * half) == 0
  {
    var k := d / 2 / half;
    assert d / 2 == k * half;
    Regroup(k, 2, half, 0, 0);
    MultipleOf(k, 2 * half);
  }

  /** A multiple stays one when it is multiplied. */
  lemma {:induction false} MultipleTimes(m: int, d: int, p: nat)
    requires p > 0 && d % p == 0
    ensures m * d % p == 0
  {
    var k := d / p;
    assert d == k * p;
    assert m * (k * p) == m * k * p;
    MultipleOf(m * k, p);
  }

  /** An odd factor can be cancelled. */
  lemma {:induction false} OddCancels(m: nat, d: int, h: nat)
    requires m % 2 == 1
    ensures m * d % Pow2(h) == 0 <==> d % Pow2(h) == 0
    decreases h
  {
    if d % Pow2(h) == 0 {
      MultipleTimes(m, d, Pow2(h));
    } else if m * d % Pow2(h) == 0 {
      HalfIsMultiple(m, d, Pow2(h - 1));
      OddCancels(m, d / 2, h - 1);
      DoubleMultiple(d, Pow2(h - 1));
    }
  }

  lemma {:induction false} HalfIsMultiple(m: nat, d: int, half: nat)
    requires half > 0 && m % 2 == 1 && m * d % (2 * half) == 0
    ensures d % 2 == 0 && m * (d / 2) % half == 0
  {
    var q := m * d / (2 * half);
    assert m * d == q * (2 * half);
    HalfProduct(m, d, q, half);
    MultipleOf(q, half);
  }
}
