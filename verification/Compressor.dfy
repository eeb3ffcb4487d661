/**
 * The compact form of transaction outputs in the coin database: amounts without their trailing
 * decimal zeroes, and scripts of the standard kinds reduced to a number and a hash or key.
 */
module Compressor {
  import opened Positional

  // ---------- amounts ----------

  /** A compressed amount m * 10^e: the last digit of m, which is not 0 unless e is 9, set apart. */
  function Packed(m: nat, e: nat): (x: nat)
    requires InRange(m, e)
    ensures x > 0
  {
    if e < 9 then 1 + (m / 10 * 9 + m % 10 - 1) * 10 + e else 1 + (m - 1) * 10 + 9
  }

  predicate InRange(m: nat, e: nat) {
    m > 0 && e <= 9 && (e < 9 ==> m % 10 != 0)
  }

  /** n * 10^e with up to nine zeroes moved to the exponent. */
  function Reduced(n: nat, e: nat): (r: (nat, nat))
    requires n > 0 && e <= 9
    ensures InRange(r.0, r.1) && e <= r.1
    decreases 9 - e
  {
    if n % 10 == 0 && e < 9 then Reduced(n / 10, e + 1) else (n, e)
  }

  lemma {:induction false} ReducedValue(n: nat, e: nat)
    requires n > 0 && e <= 9
    ensures var (m, f) := Reduced(n, e); m * Pow(10, f) == n * Pow(10, e) && m <= n
    decreases 9 - e
  {
    if n % 10 == 0 && e < 9 {
      ReducedValue(n / 10, e + 1);
      PowStep(n / 10, e);
    }
  }

  lemma {:induction false} PowStep(n: nat, e: nat)
    ensures n * Pow(10, e + 1) == 10 * n * Pow(10, e)
  {}

  lemma {:induction false} PowZero(n: nat)
    ensures Pow(10, 0) == 1 && n * Pow(10, 0) == n
  {}

  /** A reduced amount reduces to itself. */
  lemma {:induction false} ReducedBack(m: nat, f: nat, e: nat)
    requires InRange(m, f) && e <= f
    ensures m * Pow(10, f - e) > 0 && Reduced(m * Pow(10, f - e), e) == (m, f)
    decreases f - e
  {
    hide Pow;
    if e == f {
      PowZero(m);
    } else {
      ReducedBack(m, f, e + 1);
      PowStep(m, f - e - 1);
      Ten(m, Pow(10, f - e - 1));
    }
  }

  lemma {:induction false} Ten(m: nat, p: nat)
    ensures 10 * m * p % 10 == 0 && 10 * m * p / 10 == m * p
  {
    var n := m * p;
    assert 10 * m * p == 10 * n;
    assert 10 * n % 10 == 0 && 10 * n / 10 == n;
  }

  function Compressed(n: nat): nat {
    if n == 0 then 0 else Packed(Reduced(n, 0).0, Reduced(n, 0).1)
  }

  /** The exponent and the rest of a compressed amount. */
  function Unpacked(x: nat): (r: (nat, nat))
    requires x > 0
    ensures InRange(r.0, r.1)
  {
    var e := (x - 1) % 10;
    var v := (x - 1) / 10;
    (if e < 9 then v / 9 * 10 + v % 9 + 1 else v + 1, e)
  }

  function Decompressed(x: nat): nat {
    if x == 0 then 0 else Unpacked(x).0 * Pow(10, Unpacked(x).1)
  }

  method CompressAmount(nAmount: nat) returns (x: nat)
    ensures x == Compressed(nAmount)
  {
    if nAmount == 0 {
      return 0;
    }
    var n, e: nat := nAmount, 0;
    while n % 10 == 0 && e < 9
      invariant n > 0 && e <= 9 && Reduced(n, e) == Reduced(nAmount, 0)
    {
      n := n / 10;
      e := e + 1;
    }
    if e < 9 {
      var d := n % 10;
      assert 1 <= d <= 9;
      n := n / 10;
      x := 1 + (n * 9 + d - 1) * 10 + e;
    } else {
      x := 1 + (n - 1) * 10 + 9;
    }
  }

  method DecompressAmount(nAmount: nat) returns (n: nat)
    ensures n == Decompressed(nAmount)
  {
    hide Pow;
    if nAmount == 0 {
      return 0;
    }
    var x := nAmount - 1;
    var e := x % 10;
    x := x / 10;
    if e < 9 {
      var d := x % 9 + 1;
      x := x / 9;
      n := x * 10 + d;
    } else {
      n := x + 1;
    }
    ghost var m, e0 := n, e;
    assert (m, e0) == Unpacked(nAmount);
    while e != 0
      invariant 0 <= e <= e0 && n * Pow(10, e) == m * Pow(10, e0)
    {
      PowStep(n, e - 1);
      n := n * 10;
      e := e - 1;
    }
    PowZero(n);
  }

  /** The packed form tells its two parts apart, and every code is one. */
  lemma {:induction false} PackUnpack(m: nat, e: nat, x: nat)
    ensures InRange(m, e) ==> Unpacked(Packed(m, e)) == (m, e)
    ensures x > 0 ==> Packed(Unpacked(x).0, Unpacked(x).1) == x
  {
    if InRange(m, e) {
      PackThenUnpack(m, e);
    }
    if x > 0 {
      UnpackThenPack(x);
    }
  }

  lemma {:induction false} PackThenUnpack(m: nat, e: nat)
    requires InRange(m, e)
    ensures Unpacked(Packed(m, e)) == (m, e)
  {
    if e < 9 {
      var q, d := m / 10, m % 10;
      assert m == q * 10 + d;
      DivMod(q * 9 + d - 1, e, 10);
      DivMod(q, d - 1, 9);
    } else {
      DivMod(m - 1, 9, 10);
    }
  }

  lemma {:induction false} UnpackThenPack(x: nat)
    requires x > 0
    ensures Packed(Unpacked(x).0, Unpacked(x).1) == x
  {
    var v, e := (x - 1) / 10, (x - 1) % 10;
    assert x - 1 == v * 10 + e;
    if e < 9 {
      assert v == v / 9 * 9 + v % 9;
      DivMod(v / 9, v % 9 + 1, 10);
    }
  }

  /**
   * The code of every amount, as the format has it. Digits d * 10^e in front of which q stands, with d
   * not 0 and e less than 9, make 1 + 10 * (9q + d - 1) + e; any m * 10^9 makes 10m.
   */
  lemma {:induction false} CodeOfAmount(q: nat, d: nat, e: nat, m: nat)
    ensures 1 <= d <= 9 && e < 9 ==> Compressed((10 * q + d) * Pow(10, e)) == 1 + 10 * (9 * q + d - 1) + e
    ensures m > 0 ==> Compressed(m * Pow(10, 9)) == 10 * m
    ensures Compressed(0) == 0
  {
    hide Pow, Reduced;
    if 1 <= d <= 9 && e < 9 {
      DivMod(q, d, 10);
      ReducedBack(10 * q + d, e, 0);
    }
    if m > 0 {
      ReducedBack(m, 9, 0);
    }
  }

  /** Some amounts and their codes: a unit, a cent, a coin, 50 coins, 600 coins, 21 million coins. */
  lemma {:induction false} KnownCodes()
    ensures Compressed(0) == 0 && Compressed(1) == 1 && Compressed(1_000_000) == 7 && Compressed(100_000_000) == 9
    ensures Compressed(5_000_000_000) == 50 && Compressed(60_000_000_000) == 600
    ensures Compressed(2_100_000_000_000_000) == 0x1406f40
  {
    hide Compressed;
    assert Pow(10, 3) == 1_000;
    assert Pow(10, 6) == 1_000_000 by {
      PowAdd(10, 3, 3);
    }
    assert Pow(10, 8) == 100_000_000 by {
      PowAdd(10, 2, 6);
    }
    assert Pow(10, 9) == 10 * Pow(10, 8);
    CodeOfAmount(0, 1, 0, 5);
    CodeOfAmount(0, 1, 6, 60);
    CodeOfAmount(0, 1, 8, 2_100_000);
  }

  /** No amount is lost ... */
  lemma {:induction false} AmountRoundTrip(n: nat)
    ensures Decompressed(Compressed(n)) == n
  {
    hide Pow, Packed, Unpacked;
    if n > 0 {
      PackUnpack(Reduced(n, 0).0, Reduced(n, 0).1, 0);
      ReducedValue(n, 0);
      PowZero(n);
    }
  }

  /** ... and no code is wasted: compression is a bijection. */
  lemma {:induction false} CodeRoundTrip(x: nat)
    ensures Compressed(Decompressed(x)) == x
  {
    hide Pow, Packed, Unpacked, Reduced;
    if x > 0 {
      PackUnpack(0, 0, x);
      ReducedBack(Unpacked(x).0, Unpacked(x).1, 0);
    }
  }

  const MAX_MONEY: nat := 1_000_000_000_000_000_000

  /** All amounts of money fit 64 bits when compressed. */
  lemma {:induction false} AmountFits(n: nat)
    requires n <= MAX_MONEY
    ensures Compressed(n) <= 9 * n + 10 < 0x1_0000_0000_0000_0000
  {
    hide Pow, Packed;
    if n > 0 {
      ReducedValue(n, 0);
      PowZero(n);
      Fits(Reduced(n, 0).0, Reduced(n, 0).1);
    }
  }

  lemma {:induction false} Fits(m: nat, e: nat)
    requires InRange(m, e)
    ensures Packed(m, e) <= 9 * (m * Pow(10, e)) + 10
  {
    if e == 9 {
      assert Pow(10, 9) == 1_000_000_000;
    } else {
      Times(m, m, 1, Pow(10, e));
    }
  }
}
