/**
 * Numbers written as digits, most significant first, and how many digits they need.
 */
module Positional {

  function Pow(b: nat, e: nat): (r: nat)
    ensures b > 0 ==> r > 0
  {
    if e == 0 then 1 else b * Pow(b, e - 1)
  }

  ghost predicate Digits(s: seq<nat>, base: nat) {
    forall i | 0 <= i < |s| :: s[i] < base
  }

  /** The value of a sequence of digits. */
  function Val(s: seq<nat>, base: nat): nat {
    if s == [] then 0 else Val(s[..|s| - 1], base) * base + s[|s| - 1]
  }

  /** The digits of a number, without leading zeroes. */
  function Canon(v: nat, base: nat): seq<nat>
    requires base > 1
  {
    if v == 0 then []
    else
      Quotient(v, base);
      Canon(v / base, base) + [v % base]
  }

  lemma {:induction false} Quotient(v: nat, base: nat)
    requires base > 1 && v > 0
    ensures 0 <= v / base < v && 0 <= v % base < base && v / base * base + v % base == v
    ensures v < base ==> v % base == v && v / base == 0
  {
    var q := v / base;
    assert v == q * base + v % base;
    if q > 0 {
      assert q * base >= q * 2;
    }
  }

  // ---------- powers ----------

  lemma {:induction false} PowAdd(b: nat, m: nat, n: nat)
    ensures Pow(b, m + n) == Pow(b, m) * Pow(b, n)
  {
    if m > 0 {
      PowAdd(b, m - 1, n);
      Regroup(b, Pow(b, m - 1), Pow(b, n));
      assert m + n - 1 == m - 1 + n;
    }
  }

  lemma {:induction false} Regroup(a: nat, b: nat, c: nat)
    ensures a * (b * c) == a * b * c
  {}

  lemma {:induction false} PowPow(b: nat, m: nat, n: nat)
    ensures Pow(Pow(b, m), n) == Pow(b, m * n)
  {
    if n > 0 {
      PowPow(b, m, n - 1);
      PowAdd(b, m, m * (n - 1));
      assert m * n == m + m * (n - 1);
    } else {
      assert m * n == 0;
    }
  }

  lemma {:induction false} Times(a: nat, b: nat, c: nat, d: nat)
    requires a <= b && c <= d
    ensures a * c <= b * d
  {
    assert a * c <= b * c <= b * d;
  }

  lemma {:induction false} PowGrows(b: nat, m: nat, n: nat)
    requires b > 0 && m <= n
    ensures Pow(b, m) <= Pow(b, n)
    decreases n
  {
    if m < n {
      PowGrows(b, m, n - 1);
      Times(1, b, Pow(b, n - 1), Pow(b, n - 1));
    }
  }

  lemma {:induction false} PowOfGreater(a: nat, b: nat, e: nat)
    requires a <= b
    ensures Pow(a, e) <= Pow(b, e)
  {
    if e > 0 {
      PowOfGreater(a, b, e - 1);
      Times(a, b, Pow(a, e - 1), Pow(b, e - 1));
    }
  }

  /** Taking powers can be undone in an inequality. */
  lemma {:induction false} RootOfLess(a: nat, b: nat, e: nat)
    requires e > 0 && Pow(a, e) <= Pow(b, e)
    ensures a <= b
  {
    if a > b {
      PowOfGreater(b + 1, a, e);
      PowStrict(b, e);
    }
  }

  lemma {:induction false} PowStrict(b: nat, e: nat)
    requires e > 0
    ensures Pow(b, e) < Pow(b + 1, e)
  {
    if e > 1 {
      PowStrict(b, e - 1);
      Times(b, b + 1, Pow(b, e - 1), Pow(b + 1, e - 1) - 1);
      assert (b + 1) * (Pow(b + 1, e - 1) - 1) == (b + 1) * Pow(b + 1, e - 1) - (b + 1);
    }
  }

  // ---------- values ----------

  lemma {:induction false} ValSplit(a: seq<nat>, b: seq<nat>, base: nat)
    ensures Val(a + b, base) == Val(a, base) * Pow(base, |b|) + Val(b, base)
  {
    if b == [] {
      assert a + b == a;
    } else {
      var c := b[..|b| - 1];
      ValSplit(a, c, base);
      assert (a + b)[..|a + b| - 1] == a + c;
      Shift(Val(a, base), Pow(base, |c|), Val(c, base), base);
    }
  }

  lemma {:induction false} Shift(a: nat, p: nat, c: nat, base: nat)
    ensures (a * p + c) * base == a * (base * p) + c * base
  {
    assert (a * p + c) * base == a * p * base + c * base;
    assert a * p * base == a * (base * p);
  }

  lemma {:induction false} ValBound(s: seq<nat>, base: nat)
    requires Digits(s, base)
    ensures Val(s, base) < Pow(base, |s|)
  {
    if s != [] {
      ValBound(s[..|s| - 1], base);
      Times(Val(s[..|s| - 1], base) + 1, Pow(base, |s| - 1), base, base);
    }
  }

  lemma {:induction false} ValCons(x: nat, s: seq<nat>, base: nat)
    ensures Val([x] + s, base) == x * Pow(base, |s|) + Val(s, base)
  {
    ValSplit([x], s, base);
    assert Val([x], base) == x by {
      assert [x][..0] == [];
    }
  }

  lemma {:induction false} CanonValue(v: nat, base: nat)
    requires base > 1
    ensures Val(Canon(v, base), base) == v && Digits(Canon(v, base), base)
    ensures v > 0 ==> |Canon(v, base)| > 0 && Canon(v, base)[0] != 0
  {
    if v > 0 {
      Quotient(v, base);
      var q, r := v / base, v % base;
      CanonValue(q, base);
      AppendDigit(Canon(q, base), r, base);
    }
  }

  lemma {:induction false} AppendDigit(c: seq<nat>, r: nat, base: nat)
    requires Digits(c, base) && r < base
    ensures Digits(c + [r], base) && Val(c + [r], base) == Val(c, base) * base + r
    ensures c != [] ==> (c + [r])[0] == c[0]
  {
    assert (c + [r])[..|c|] == c;
  }

  /** Digits without leading zeroes are determined by their value. */
  lemma {:induction false} CanonUnique(s: seq<nat>, base: nat)
    requires base > 1 && Digits(s, base) && (s != [] ==> s[0] != 0)
    ensures Canon(Val(s, base), base) == s
  {
    if s != [] {
      var c, x := s[..|s| - 1], s[|s| - 1];
      CanonUnique(c, base);
      DivMod(Val(c, base), x, base);
      assert s == c + [x];
      if c == [] {
        assert s[0] == x;
      } else {
        assert c[0] == s[0];
        NonzeroValue(c, base);
      }
    }
  }

  lemma {:induction false} NonzeroValue(s: seq<nat>, base: nat)
    requires base > 1 && s != [] && s[0] != 0
    ensures Val(s, base) > 0
  {
    ValCons(s[0], s[1..], base);
    assert s == [s[0]] + s[1..];
    Times(1, s[0], 1, Pow(base, |s| - 1));
  }

  lemma {:induction false} DivMod(q: nat, r: nat, b: nat)
    requires r < b
    ensures (q * b + r) / b == q && (q * b + r) % b == r
  {
    var v := q * b + r;
    assert v == v / b * b + v % b;
    if v / b < q {
      Times(v / b + 1, q, b, b);
    } else if v / b > q {
      Times(q + 1, v / b, b, b);
    }
  }

  /** Leading zeroes say nothing. */
  lemma {:induction false} ValDrop(s: seq<nat>, k: nat, base: nat)
    requires k <= |s| && forall i | 0 <= i < k :: s[i] == 0
    ensures Val(s[k..], base) == Val(s, base)
  {
    if k > 0 {
      ValDrop(s, k - 1, base);
      ValCons(0, s[k..], base);
      assert s[k - 1..] == [0] + s[k..];
    } else {
      assert s[0..] == s;
    }
  }
}
