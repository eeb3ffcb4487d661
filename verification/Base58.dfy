/**
 * Base58: byte strings as text in an alphabet of 58 characters, with one leading '1' for each
 * leading zero byte. Digits are computed in place in buffers whose size is an estimate from the
 * length of the input; the estimate is proved to suffice always.
 */
module Base58 {
  import opened Options
  import opened Positional

  /** All alphanumeric characters except 0, I, O and l. */
  const ALPHABET: string := "123456789" + "ABCDEFGH" + "JKLMN" + "PQRSTUVWXYZ" + "abcdefghijk" + "mnopqrstuvwxyz"

  // ---------- room ----------

  lemma {:induction false} Pow2To8(n: nat)
    ensures Pow(256, n) == Pow(2, 8 * n)
  {
    assert Pow(2, 8) == 256;
    PowPow(2, 8, n);
  }

  /** 58^69 >= 256^50 */
  lemma {:induction false} Digits69For50()
    ensures Pow(256, 50) <= Pow(58, 69)
  {
    Seven();
    Six();
    // (58^7)^9 * 58^6 >= (2^41)^9 * 2^35 = 2^404
    PowPow(58, 7, 9);
    PowPow(2, 41, 9);
    PowOfGreater(Pow(2, 41), Pow(58, 7), 9);
    PowAdd(58, 63, 6);
    PowAdd(2, 369, 35);
    Times(Pow(2, 369), Pow(58, 63), Pow(2, 35), Pow(58, 6));
    Pow2To8(50);
    PowGrows(2, 400, 404);
  }

  lemma {:induction false} Seven()
    ensures Pow(2, 41) <= Pow(58, 7)
  {
    PowAdd(2, 20, 21);
    PowAdd(2, 10, 10);
    PowAdd(2, 10, 11);
    assert Pow(2, 10) == 1024 && Pow(2, 11) == 2048;
    assert Pow(58, 7) == 2207984167552;
  }

  lemma {:induction false} Six()
    ensures Pow(2, 35) <= Pow(58, 6)
  {
    PowAdd(2, 17, 18);
    PowAdd(2, 8, 9);
    PowAdd(2, 9, 9);
    assert Pow(2, 8) == 256 && Pow(2, 9) == 512;
    assert Pow(58, 6) == 38068692544;
  }

  /** Doubling an exponent squares the power. */
  lemma {:induction false} Square(b: nat, e: nat, p: nat)
    requires Pow(b, e) == p
    ensures Pow(b, 2 * e) == p * p
  {
    PowAdd(b, e, e);
  }

  /** 58^71 <= 256^52 */
  lemma {:induction false} Bytes52For71()
    ensures Pow(58, 71) <= Pow(256, 52)
  {
    hide Pow;
    Small();
    Square(58, 8, 128063081718016);
    Square(58, 16, 16400152899115243850138976256);
    Square(58, 32, 268965015114358137726910587140455987105619365599731777536);
    PowAdd(58, 64, 7);
    Square(256, 13, 20282409603651670423947251286016);
    Square(256, 26, 411376139330301510538742295639337626245683966408394965837152256);
  }

  lemma {:induction false} Small()
    ensures Pow(58, 8) == 128063081718016 && Pow(58, 7) == 2207984167552
    ensures Pow(256, 13) == 20282409603651670423947251286016
  {
    PowAdd(58, 4, 4);
    assert Pow(58, 4) == 11316496;
    PowAdd(58, 4, 3);
    assert Pow(58, 3) == 195112;
    PowAdd(256, 6, 7);
    assert Pow(256, 6) == 281474976710656;
    assert Pow(256, 7) == 72057594037927936;
  }

  function Size58(n: nat): nat {
    n * 138 / 100 + 1
  }

  function Size256(n: nat): nat {
    n * 733 / 1000 + 1
  }

  /** The buffer of EncodeBase58 holds every number of n bytes. */
  lemma {:induction false} RoomToEncode(n: nat)
    ensures Pow(256, n) <= Pow(58, n * 138 / 100 + 1) && Size58(n) == n * 138 / 100 + 1
  {
    hide Pow;
    var m := Size58(n);
    assert 100 * m >= 138 * n;
    Digits69For50();
    // 256^(100 n) = (256^50)^(2 n) <= (58^69)^(2 n) = 58^(138 n) <= 58^(100 m)
    PowPow(256, 50, 2 * n);
    PowPow(58, 69, 2 * n);
    PowOfGreater(Pow(256, 50), Pow(58, 69), 2 * n);
    PowGrows(58, 138 * n, 100 * m);
    PowPow(256, n, 100);
    PowPow(58, m, 100);
    assert n * 100 == 50 * (2 * n) && 69 * (2 * n) == 138 * n && m * 100 == 100 * m;
    RootOfLess(Pow(256, n), Pow(58, m), 100);
  }

  /** The buffer of DecodeBase58 holds every number of d digits, if the text has n >= d characters. */
  lemma {:induction false} RoomToDecode(n: nat, d: nat)
    requires d <= n
    ensures Pow(58, d) <= Pow(256, n * 733 / 1000 + 1) && Size256(n) == n * 733 / 1000 + 1
  {
    hide Pow;
    var m := Size256(n);
    assert 1000 * m >= 733 * d;
    Bytes52For71();
    // 58^(71000 d) = (58^71)^(1000 d) <= (256^52)^(1000 d) = 256^(52000 d) <= 256^(71000 m)
    PowPow(58, 71, 1000 * d);
    PowPow(256, 52, 1000 * d);
    PowOfGreater(Pow(58, 71), Pow(256, 52), 1000 * d);
    PowGrows(256, 52000 * d, 71000 * m);
    PowPow(58, d, 71000);
    PowPow(256, m, 71000);
    assert d * 71000 == 71 * (1000 * d) && 52 * (1000 * d) == 52000 * d && m * 71000 == 71000 * m;
    RootOfLess(Pow(58, d), Pow(256, m), 71000);
  }

  // ---------- digits in place ----------

  /** a = a * mult + ch, in place, from the last digit to the first; what does not fit is returned. */
  method MultiplyAdd(a: array<nat>, mult: nat, ch: nat, base: nat) returns (carry: nat)
    requires base > 1
    modifies a
    ensures Digits(a[..], base)
    ensures carry * Pow(base, a.Length) + Val(a[..], base) == mult * old(Val(a[..], base)) + ch
  {
    hide Val, Pow, Digits;
    ghost var was := a[..];
    carry := ch;
    NoDigits(base);
    var j := a.Length;
    assert a[j..] == [] && was[j..] == [];
    while j > 0
      invariant 0 <= j <= a.Length && a[..j] == was[..j]
      invariant Digits(a[j..], base)
      invariant carry * Pow(base, a.Length - j) + Val(a[j..], base) == mult * Val(was[j..], base) + ch
    {
      j := j - 1;
      ghost var low := a[j + 1..];
      assert was[j..][1..] == was[j + 1..];
      OneDigit(was[j..], low, mult, ch, base, carry);
      carry := carry + mult * a[j];
      a[j] := carry % base;
      carry := carry / base;
      assert a[j..] == [a[j]] + low;
    }
    assert a[..] == a[0..] && was == was[0..];
  }

  /** Schoolbook arithmetic of one column. */
  lemma {:induction false} Column(sum: nat, q: nat, r: nat, base: nat, p: nat, carry: nat, mult: nat, x: nat, low: nat,
                                  rest: nat, ch: nat)
    requires sum == q * base + r && sum == carry + mult * x && carry * p + low == mult * rest + ch
    ensures q * (base * p) + (r * p + low) == mult * (x * p + rest) + ch
  {
    assert q * (base * p) == q * base * p;
    assert q * base * p + r * p == sum * p;
    assert sum * p == carry * p + mult * x * p;
    assert mult * x * p == mult * (x * p);
    assert mult * (x * p + rest) == mult * (x * p) + mult * rest;
  }

  lemma {:induction false} NoDigits(base: nat)
    ensures Val([], base) == 0 && Pow(base, 0) == 1 && Digits([], base)
  {}

  lemma {:induction false} OneDigit(was: seq<nat>, low: seq<nat>, mult: nat, ch: nat, base: nat, carry: nat)
    requires base > 1 && |was| == |low| + 1 && Digits(low, base)
    requires carry * Pow(base, |low|) + Val(low, base) == mult * Val(was[1..], base) + ch
    ensures var sum := carry + mult * was[0];
            && sum % base < base && Digits([sum % base] + low, base)
            && sum / base * Pow(base, |low| + 1) + Val([sum % base] + low, base) == mult * Val(was, base) + ch
  {
    hide Val;
    var sum, p := carry + mult * was[0], Pow(base, |low|);
    assert was == [was[0]] + was[1..];
    ValCons(was[0], was[1..], base);
    if sum > 0 {
      Quotient(sum, base);
    } else {
      DivMod(0, 0, base);
    }
    ValCons(sum % base, low, base);
    Column(sum, sum / base, sum % base, base, p, carry, mult, was[0], Val(low, base), Val(was[1..], base), ch);
  }

  // ---------- the alphabet ----------

  function Range(c: char, n: nat): string
    requires c as int + n < 0xD800
  {
    seq(n, i requires 0 <= i < n => c + i as char)
  }

  lemma {:induction false} Ranges()
    ensures Range('1', 9) == "123456789" && Range('A', 8) == "ABCDEFGH" && Range('J', 5) == "JKLMN"
    ensures Range('P', 11) == "PQRSTUVWXYZ" && Range('a', 11) == "abcdefghijk" && Range('m', 14) == "mnopqrstuvwxyz"
  {}

  function CharOf(d: nat): char
    requires d < 58
  {
    if d < 9 then '1' + d as char else if d < 17 then 'A' + (d - 9) as char else if d < 22 then 'J' + (d - 17) as char
    else if d < 33 then 'P' + (d - 22) as char else if d < 44 then 'a' + (d - 33) as char else 'm' + (d - 44) as char
  }

  lemma {:induction false} AlphabetParts()
    ensures |ALPHABET| == 58
    ensures ALPHABET == Range('1', 9) + Range('A', 8) + Range('J', 5) + Range('P', 11) + Range('a', 11) + Range('m', 14)
  {
    hide Range;
    Ranges();
  }

  lemma {:induction false} AlphabetAt(d: nat)
    requires d < 58
    ensures |ALPHABET| == 58 && ALPHABET[d] == CharOf(d)
  {
    AlphabetParts();
  }

  /** No character stands for two digits. */
  lemma {:induction false} AlphabetDistinct(d: nat, e: nat)
    requires d < e < 58
    ensures |ALPHABET| == 58 && ALPHABET[d] != ALPHABET[e]
  {
    AlphabetAt(d);
    AlphabetAt(e);
  }

  /** strchr: where the character is in the alphabet. */
  function IndexFrom(c: char, from: nat): (i: Option<nat>)
    requires |ALPHABET| == 58 && from <= 58
    ensures i.Some? ==> from <= i.value < 58 && ALPHABET[i.value] == c
    ensures i.None? ==> forall d | from <= d < 58 :: ALPHABET[d] != c
    decreases 58 - from
  {
    if from == 58 then None else if ALPHABET[from] == c then Some(from) else IndexFrom(c, from + 1)
  }

  function IndexOf(c: char): (i: Option<nat>)
    ensures i.Some? ==> i.value < 58
  {
    AlphabetParts();
    IndexFrom(c, 0)
  }

  lemma {:induction false} IndexOfChar(c: char, d: nat)
    requires d < 58
    ensures |ALPHABET| == 58 && (IndexOf(c) == Some(d) <==> ALPHABET[d] == c)
  {
    AlphabetParts();
    var i := IndexFrom(c, 0);
    if i.Some? && i.value != d && ALPHABET[d] == c {
      AlphabetDistinct(if i.value < d then i.value else d, if i.value < d then d else i.value);
    }
  }

  method Strchr(c: char) returns (i: Option<nat>)
    ensures i == IndexOf(c)
  {
    AlphabetParts();
    var k := 0;
    while k < 58 && ALPHABET[k] != c
      invariant 0 <= k <= 58 && IndexFrom(c, 0) == IndexFrom(c, k)
    {
      k := k + 1;
    }
    i := if k < 58 then Some(k) else None;
  }

  // ---------- what is encoded and decoded ----------

  function LeadingZeroes(s: seq<nat>): (z: nat)
    ensures z <= |s| && (forall i | 0 <= i < z :: s[i] == 0) && (z < |s| ==> s[z] != 0)
  {
    if s == [] || s[0] != 0 then 0 else 1 + LeadingZeroes(s[1..])
  }

  function Text(ds: seq<nat>): (t: string)
    requires Digits(ds, 58)
    ensures |t| == |ds|
  {
    AlphabetParts();
    seq(|ds|, i requires 0 <= i < |ds| => ALPHABET[ds[i]])
  }

  function Zeroes(n: nat): (s: seq<nat>)
    ensures |s| == n && forall i | 0 <= i < n :: s[i] == 0
  {
    seq(n, i => 0)
  }

  function Ones(n: nat): string {
    seq(n, i => '1')
  }

  ghost function Encoded(bytes: seq<nat>): string {
    CanonValue(Val(bytes, 256), 58);
    Ones(LeadingZeroes(bytes)) + Text(Canon(Val(bytes, 256), 58))
  }

  /** Some byte strings and their texts. */
  lemma {:induction false} KnownTexts()
    ensures Encoded([]) == "" && Encoded([0, 0, 0]) == "111"
    ensures Encoded([0x61]) == "2g" && Encoded([0x62, 0x62, 0x62]) == "a3gV"
  {
    hide Text, Val, Canon, LeadingZeroes, Ones;
    TextIs([], "");
    TextIs([1, 39], "2g");
    TextIs([33, 2, 39, 28], "a3gV");
    KnownZeroes();
    KnownValues();
    KnownDigits();
  }

  lemma {:induction false} KnownValues()
    ensures Val([0x61], 256) == 97 && Val([0x62, 0x62, 0x62], 256) == 6447714 && Val([0, 0, 0], 256) == 0
  {
    hide Val;
    KnownZeroes();
    ValueOfMore([], 0x61, 256, 0);
    ValueOfMore([], 0x62, 256, 0);
    assert [] + [0x61] == [0x61] && [] + [0x62] == [0x62] && [] + [0] == [0];
    ValueOfMore([0x62], 0x62, 256, 0x62);
    assert [0x62] + [0x62] == [0x62, 0x62] && [0] + [0] == [0, 0];
    ValueOfMore([0x62, 0x62], 0x62, 256, 0x6262);
    assert [0x62, 0x62] + [0x62] == [0x62, 0x62, 0x62] && [0, 0] + [0] == [0, 0, 0];
    ValueOfMore([], 0, 256, 0);
    ValueOfMore([0], 0, 256, 0);
    ValueOfMore([0, 0], 0, 256, 0);
  }

  lemma {:induction false} KnownDigits()
    ensures Canon(97, 58) == [1, 39] && Canon(6447714, 58) == [33, 2, 39, 28]
  {
    hide Canon;
    KnownZeroes();
    DigitOfMore(0, 1);
    DigitOfMore(1, 39);
    assert Canon(97, 58) == [] + [1] + [39] == [1, 39];
    DigitOfMore(0, 33);
    DigitOfMore(33, 2);
    DigitOfMore(1916, 39);
    DigitOfMore(111167, 28);
    assert Canon(6447714, 58) == [] + [33] + [2] + [39] + [28] == [33, 2, 39, 28];
  }

  lemma {:induction false} KnownZeroes()
    ensures Val([], 256) == 0 && Canon(0, 58) == [] && LeadingZeroes([]) == 0 && LeadingZeroes([0x61]) == 0
    ensures LeadingZeroes([0x62, 0x62, 0x62]) == 0 && LeadingZeroes([0, 0, 0]) == 3 && Ones(3) == "111" && Ones(0) == ""
  {
    assert LeadingZeroes([0]) == 1 && LeadingZeroes([0, 0]) == 2;
  }

  lemma {:induction false} ValueOfMore(front: seq<nat>, d: nat, base: nat, v: nat)
    requires Val(front, base) == v
    ensures Val(front + [d], base) == v * base + d
  {
    assert (front + [d])[..|front|] == front;
  }

  lemma {:induction false} DigitOfMore(q: nat, d: nat)
    requires d < 58 && (q > 0 || d > 0)
    ensures Canon(q * 58 + d, 58) == Canon(q, 58) + [d]
  {
    DivMod(q, d, 58);
  }

  lemma {:induction false} TextIs(ds: seq<nat>, t: string)
    requires Digits(ds, 58) && |t| == |ds| && forall i | 0 <= i < |ds| :: t[i] == CharOf(ds[i])
    ensures Text(ds) == t
  {
    hide CharOf;
    forall i | 0 <= i < |ds|
      ensures Text(ds)[i] == t[i]
    {
      AlphabetAt(ds[i]);
    }
  }

  predicate IsSpace(c: char) {
    c == ' ' || c == '\t' || c == '\n' || c == '\U{000B}' || c == '\U{000C}' || c == '\r'
  }

  /** All characters are digits; which ones. */
  ghost function DigitsOf(t: string): (ds: Option<seq<nat>>)
    ensures ds.Some? ==> |ds.value| == |t| && Digits(ds.value, 58)
  {
    if t == [] then Some([])
    else
      match DigitsOf(t[..|t| - 1])
      case None => None
      case Some(ds) => match IndexOf(t[|t| - 1]) case None => None case Some(d) => Some(ds + [d])
  }

  lemma {:induction false} DigitsOfText(ds: seq<nat>)
    requires Digits(ds, 58)
    ensures DigitsOf(Text(ds)) == Some(ds)
  {
    if ds != [] {
      var c := ds[..|ds| - 1];
      DigitsOfText(c);
      AlphabetParts();
      IndexOfChar(ALPHABET[ds[|ds| - 1]], ds[|ds| - 1]);
      assert Text(ds)[..|ds| - 1] == Text(c);
      assert ds == c + [ds[|ds| - 1]];
    } else {
      assert Text(ds) == [];
    }
  }

  lemma {:induction false} TextOfDigits(t: string)
    requires DigitsOf(t).Some?
    ensures Text(DigitsOf(t).value) == t
  {
    if t != [] {
      var ds := DigitsOf(t).value;
      TextOfDigits(t[..|t| - 1]);
      AlphabetParts();
      IndexOfChar(t[|t| - 1], ds[|t| - 1]);
      assert Text(ds[..|t| - 1]) == t[..|t| - 1];
      forall i | 0 <= i < |t|
        ensures Text(ds)[i] == t[i]
      {
        if i < |t| - 1 {
          assert Text(ds[..|t| - 1])[i] == t[..|t| - 1][i];
        }
      }
    } else {
      assert Text([]) == [];
    }
  }

  /** The bytes a text without spaces stands for. */
  ghost function DecodedCore(t: string): Option<seq<nat>> {
    match DigitsOf(t)
    case None => None
    case Some(ds) => Some(Zeroes(LeadingZeroes(ds)) + Canon(Val(ds, 58), 256))
  }

  // ---------- round trips ----------

  /** A sequence of digits is its leading zeroes and the canonical digits of its value. */
  lemma {:induction false} ZeroesAndCanon(s: seq<nat>, base: nat)
    requires base > 1 && Digits(s, base)
    ensures s == Zeroes(LeadingZeroes(s)) + Canon(Val(s, base), base)
  {
    var z := LeadingZeroes(s);
    ValDrop(s, z, base);
    CanonUnique(s[z..], base);
    assert s == s[..z] + s[z..];
  }

  lemma {:induction false} LeadingZeroesOf(z: nat, c: seq<nat>)
    requires c != [] ==> c[0] != 0
    ensures LeadingZeroes(Zeroes(z) + c) == z
  {
    var s := Zeroes(z) + c;
    assert forall i | 0 <= i < z :: s[i] == 0;
    assert z < |s| ==> s[z] == c[0];
  }

  lemma {:induction false} ZeroDigits(z: nat, c: seq<nat>, base: nat)
    requires base > 1 && Digits(c, base)
    ensures Val(Zeroes(z) + c, base) == Val(c, base) && Digits(Zeroes(z) + c, base)
  {
    var s := Zeroes(z) + c;
    ValDrop(s, z, base);
    assert s[z..] == c;
  }

  lemma {:induction false} OnesAreZeroes(z: nat, c: seq<nat>)
    requires Digits(c, 58)
    ensures Digits(Zeroes(z) + c, 58) && Ones(z) + Text(c) == Text(Zeroes(z) + c)
  {
    AlphabetAt(0);
  }

  /** Decoding inverts encoding, for all byte strings. */
  lemma {:induction false} DecodeEncode(bytes: seq<nat>)
    requires Digits(bytes, 256)
    ensures DecodedCore(Encoded(bytes)) == Some(bytes)
  {
    hide Canon, Text, Val, Ones, DigitsOf, LeadingZeroes;
    var z, c := LeadingZeroes(bytes), Canon(Val(bytes, 256), 58);
    CanonValue(Val(bytes, 256), 58);
    CanonZero();
    OnesAreZeroes(z, c);
    DigitsOfText(Zeroes(z) + c);
    LeadingZeroesOf(z, c);
    ZeroDigits(z, c, 58);
    ZeroesAndCanon(bytes, 256);
  }

  lemma {:induction false} CanonZero()
    ensures Canon(0, 58) == [] && Canon(0, 256) == []
  {}

  /** Encoding inverts decoding. */
  lemma {:induction false} EncodeDecode(t: string)
    requires DecodedCore(t).Some?
    ensures Digits(DecodedCore(t).value, 256) && Encoded(DecodedCore(t).value) == t
  {
    hide Canon, Text, Val, Ones, DigitsOf, LeadingZeroes;
    var ds := DigitsOf(t).value;
    var z, c := LeadingZeroes(ds), Canon(Val(ds, 58), 256);
    CanonValue(Val(ds, 58), 256);
    CanonValue(Val(ds, 58), 58);
    CanonZero();
    LeadingZeroesOf(z, c);
    ZeroDigits(z, c, 256);
    OnesAreZeroes(z, Canon(Val(ds, 58), 58));
    ZeroesAndCanon(ds, 58);
    TextOfDigits(t);
  }

  // ---------- EncodeBase58 ----------

  method EncodeBase58(bytes: seq<nat>) returns (str: string)
    requires Digits(bytes, 256)
    ensures str == Encoded(bytes)
  {
    hide Canon, Val, Pow, Text, Ones, LeadingZeroes, Encoded;
    var zeroes := CountZeroes(bytes);
    var rest := bytes[zeroes..];
    var b58 := new nat[Size58(|rest|)](i => 0);
    AllZero(b58[..], 58);
    NoDigits(256);
    for i := 0 to |rest|
      invariant Digits(b58[..], 58) && Val(b58[..], 58) == Val(rest[..i], 256)
    {
      ghost var before := b58[..];
      var carry := MultiplyAdd(b58, 256, rest[i], 58);
      AppendDigit(rest[..i], rest[i], 256);
      assert rest[..i + 1] == rest[..i] + [rest[i]];
      EncodeFits(rest, i, carry, b58.Length, Val(b58[..], 58));
      assert carry == 0;
    }
    assert rest[..|rest|] == rest;
    str := Translate(zeroes, b58[..]);
    ValDrop(bytes, zeroes, 256);
    EncodedIs(bytes, b58[..]);
  }

  method CountZeroes(bytes: seq<nat>) returns (zeroes: nat)
    ensures zeroes == LeadingZeroes(bytes)
  {
    zeroes := 0;
    while zeroes < |bytes| && bytes[zeroes] == 0
      invariant zeroes <= |bytes| && zeroes + LeadingZeroes(bytes[zeroes..]) == LeadingZeroes(bytes)
    {
      assert bytes[zeroes..][1..] == bytes[zeroes + 1..];
      zeroes := zeroes + 1;
    }
  }

  /** Skip leading zeroes of the result and translate it into characters. */
  method Translate(zeroes: nat, b58: seq<nat>) returns (str: string)
    requires Digits(b58, 58)
    ensures str == Ones(zeroes) + Text(b58[LeadingZeroes(b58)..])
  {
    hide Text, LeadingZeroes;
    var it := CountZeroes(b58);
    ghost var rest := b58[it..];
    str := Ones(zeroes);
    AlphabetParts();
    NoDigitsNoText();
    for k := it to |b58|
      invariant str == Ones(zeroes) + Text(rest[..k - it])
    {
      TextAppend(rest[..k - it], b58[k]);
      assert rest[..k + 1 - it] == rest[..k - it] + [b58[k]];
      str := str + [ALPHABET[b58[k]]];
    }
    assert rest[..|b58| - it] == rest;
  }

  lemma {:induction false} NoDigitsNoText()
    ensures Text([]) == []
  {}

  lemma {:induction false} TextAppend(ds: seq<nat>, d: nat)
    requires Digits(ds, 58) && d < 58
    ensures |ALPHABET| == 58 && Text(ds + [d]) == Text(ds) + [ALPHABET[d]]
  {
    AlphabetParts();
  }

  lemma {:induction false} AllZero(s: seq<nat>, base: nat)
    requires base > 1 && forall i | 0 <= i < |s| :: s[i] == 0
    ensures Digits(s, base) && Val(s, base) == 0
  {
    ValDrop(s, |s|, base);
  }

  /** The carry is zero: the value of a prefix fits the buffer. */
  lemma {:induction false} EncodeFits(rest: seq<nat>, i: nat, carry: nat, size: nat, v: nat)
    requires Digits(rest, 256) && i < |rest| && size == Size58(|rest|)
    requires carry * Pow(58, size) + v == Val(rest[..i + 1], 256)
    ensures carry == 0
  {
    hide Val, Pow;
    ValBound(rest[..i + 1], 256);
    PowGrows(256, i + 1, |rest|);
    RoomToEncode(|rest|);
    NoCarry(carry, Pow(58, size), v);
  }

  lemma {:induction false} NoCarry(carry: nat, p: nat, v: nat)
    requires carry * p + v < p
    ensures carry == 0
  {
    if carry > 0 {
      Times(1, carry, p, p);
    }
  }

  lemma {:induction false} EncodedIs(bytes: seq<nat>, b58: seq<nat>)
    requires Digits(bytes, 256) && Digits(b58, 58) && Val(b58, 58) == Val(bytes, 256)
    ensures Encoded(bytes) == Ones(LeadingZeroes(bytes)) + Text(b58[LeadingZeroes(b58)..])
  {
    hide Val, Canon, Text;
    StripIsCanon(b58, 58);
  }

  lemma {:induction false} StripIsCanon(s: seq<nat>, base: nat)
    requires base > 1 && Digits(s, base)
    ensures s[LeadingZeroes(s)..] == Canon(Val(s, base), base)
  {
    hide Val, Canon;
    ValDrop(s, LeadingZeroes(s), base);
    CanonUnique(s[LeadingZeroes(s)..], base);
  }

  // ---------- DecodeBase58 ----------

  /** Where the spaces from p on end. */
  function AfterSpaces(s: string, p: nat): (e: nat)
    requires p <= |s|
    ensures p <= e <= |s| && (e < |s| ==> !IsSpace(s[e]))
    decreases |s| - p
  {
    if p < |s| && IsSpace(s[p]) then AfterSpaces(s, p + 1) else p
  }

  /** Where the text from p on ends. */
  function AfterText(s: string, p: nat): (e: nat)
    requires p <= |s|
    ensures p <= e <= |s| && (e < |s| ==> IsSpace(s[e])) && forall i | p <= i < e :: !IsSpace(s[i])
    decreases |s| - p
  {
    if p < |s| && !IsSpace(s[p]) then AfterText(s, p + 1) else p
  }

  /** The text without the spaces around it. */
  function Core(psz: string): string {
    var a := AfterSpaces(psz, 0);
    psz[a..AfterText(psz, a)]
  }

  /** Nothing but spaces around one text of digits. */
  ghost function Decoded(psz: string): Option<seq<nat>> {
    if AfterSpaces(psz, AfterText(psz, AfterSpaces(psz, 0))) == |psz| then DecodedCore(Core(psz)) else None
  }

  method SkipSpaces(psz: string, p: nat) returns (e: nat)
    requires p <= |psz|
    ensures e == AfterSpaces(psz, p)
  {
    hide IsSpace;
    e := p;
    while e < |psz| && IsSpace(psz[e])
      invariant p <= e <= |psz| && AfterSpaces(psz, e) == AfterSpaces(psz, p)
    {
      e := e + 1;
    }
  }

  /** Leading '1's; they are digits of value 0. */
  method CountOnes(psz: string, start: nat) returns (zeroes: nat)
    requires start <= |psz|
    ensures start + zeroes <= |psz| && AfterText(psz, start + zeroes) == AfterText(psz, start)
    ensures DigitsOf(psz[start..start + zeroes]) == Some(Zeroes(zeroes))
    ensures start + zeroes < |psz| ==> psz[start + zeroes] != '1'
  {
    hide DigitsOf;
    zeroes := 0;
    NoText();
    assert Zeroes(0) == [] && psz[start..start] == [];
    while start + zeroes < |psz| && psz[start + zeroes] == '1'
      invariant start + zeroes <= |psz| && AfterText(psz, start + zeroes) == AfterText(psz, start)
      invariant DigitsOf(psz[start..start + zeroes]) == Some(Zeroes(zeroes))
    {
      AlphabetAt(0);
      IndexOfChar('1', 0);
      DigitsStep(psz[start..start + zeroes], '1');
      assert psz[start..start + zeroes + 1] == psz[start..start + zeroes] + ['1'];
      assert Zeroes(zeroes + 1) == Zeroes(zeroes) + [0];
      zeroes := zeroes + 1;
    }
  }

  lemma {:induction false} NoText()
    ensures DigitsOf([]) == Some([])
  {}

  lemma {:induction false} DigitsStep(t: string, c: char)
    ensures DigitsOf(t + [c]) == match DigitsOf(t)
                                 case None => None
                                 case Some(ds) => match IndexOf(c) case None => None case Some(d) => Some(ds + [d])
  {
    assert (t + [c])[..|t|] == t;
  }

  /** Once a character is no digit, the text stands for nothing. */
  lemma {:induction false} DigitsPrefix(t: string, k: nat)
    requires k <= |t| && DigitsOf(t[..k]).None?
    ensures DigitsOf(t).None?
    decreases |t|
  {
    if k == |t| {
      assert t[..k] == t;
    } else {
      assert t[..|t| - 1][..k] == t[..k];
      DigitsPrefix(t[..|t| - 1], k);
    }
  }

  /** The carry is zero here as well. */
  lemma {:induction false} DecodeFits(ds: seq<nat>, n: nat, carry: nat, size: nat, v: nat)
    requires Digits(ds, 58) && |ds| <= n && size == Size256(n)
    requires carry * Pow(256, size) + v == Val(ds, 58)
    ensures carry == 0
  {
    hide Val, Pow;
    ValBound(ds, 58);
    RoomToDecode(n, |ds|);
    NoCarry(carry, Pow(256, size), v);
  }

  /** The digits of the text, zeroes first, and the buffer that has the value of the rest. */
  ghost predicate Decoding(t: string, ds: seq<nat>, zeroes: nat, b256: seq<nat>) {
    && DigitsOf(t) == Some(ds) && zeroes <= |ds| && (forall i | 0 <= i < zeroes :: ds[i] == 0)
    && (zeroes < |ds| ==> ds[zeroes] != 0)
    && Digits(b256, 256) && Val(b256, 256) == Val(ds[zeroes..], 58)
  }

  lemma {:induction false} DecodingStarts(t: string, zeroes: nat, b256: seq<nat>)
    requires DigitsOf(t) == Some(Zeroes(zeroes)) && forall i | 0 <= i < |b256| :: b256[i] == 0
    ensures Decoding(t, Zeroes(zeroes), zeroes, b256)
  {
    AllZero(b256, 256);
    ghost var ds: seq<nat> := Zeroes(zeroes);
    assert ds[zeroes..] == [];
  }

  lemma {:induction false} DecodingStep(t: string, ds: seq<nat>, zeroes: nat, b256: seq<nat>, c: char, d: nat,
                                        b256': seq<nat>, carry: nat, n: nat)
    requires Decoding(t, ds, zeroes, b256) && IndexOf(c) == Some(d) && (|ds| == zeroes ==> c != '1')
    requires Digits(b256', 256) && carry * Pow(256, |b256'|) + Val(b256', 256) == 58 * Val(b256, 256) + d
    requires |b256'| == Size256(n) && |ds| + 1 - zeroes <= n
    ensures carry == 0 && Decoding(t + [c], ds + [d], zeroes, b256')
  {
    hide Val, Pow, DigitsOf, IndexOf;
    AlphabetAt(0);
    IndexOfChar(c, 0);
    DigitsStep(t, c);
    assert (ds + [d])[zeroes..] == ds[zeroes..] + [d];
    AppendDigit(ds[zeroes..], d, 58);
    DecodeFits(ds[zeroes..] + [d], n, carry, |b256'|, Val(b256', 256));
  }

  lemma {:induction false} DecodingEnds(t: string, ds: seq<nat>, zeroes: nat, b256: seq<nat>)
    requires Decoding(t, ds, zeroes, b256)
    ensures DecodedCore(t) == Some(Zeroes(zeroes) + b256[LeadingZeroes(b256)..])
  {
    hide Val, Canon;
    StripIsCanon(b256, 256);
    ValDrop(ds, zeroes, 58);
    assert LeadingZeroes(ds) == zeroes;
  }

  lemma {:induction false} DecodingFails(t: string, k: nat, c: char)
    requires k < |t| && t[k] == c && IndexOf(c).None?
    ensures DecodedCore(t).None?
  {
    DigitsStep(t[..k], c);
    assert t[..k + 1] == t[..k] + [c];
    DigitsPrefix(t, k + 1);
  }

  lemma {:induction false} NoDigitHere(psz: string, start: nat, p: nat, end: nat)
    requires start <= p < end <= |psz| && IndexOf(psz[p]).None?
    ensures DecodedCore(psz[start..end]).None?
  {
    hide DecodedCore, IndexOf;
    assert psz[start..end][p - start] == psz[p];
    DecodingFails(psz[start..end], p - start, psz[p]);
  }

  lemma {:induction false} DecodingGoesOn(psz: string, start: nat, p: nat, ds: seq<nat>, zeroes: nat, before: seq<nat>,
                                          d: nat, after: seq<nat>, carry: nat, n: nat)
    requires start <= p < |psz| && Decoding(psz[start..p], ds, zeroes, before) && IndexOf(psz[p]) == Some(d)
    requires |ds| == zeroes ==> psz[p] != '1'
    requires Digits(after, 256) && carry * Pow(256, |after|) + Val(after, 256) == 58 * Val(before, 256) + d
    requires |after| == Size256(n) && |ds| + 1 - zeroes <= n
    ensures carry == 0 && Decoding(psz[start..p + 1], ds + [d], zeroes, after)
  {
    hide Decoding, IndexOf, Val, Pow;
    DecodingStep(psz[start..p], ds, zeroes, before, psz[p], d, after, carry, n);
    assert psz[start..p + 1] == psz[start..p] + [psz[p]];
  }

  /** The characters behind the leading '1's, up to a space, the end, or one that is no digit. */
  method DecodeText(psz: string, start: nat, zeroes: nat, b256: array<nat>)
    returns (ok: bool, p: nat, ghost ds: seq<nat>)
    requires start + zeroes <= |psz| && b256.Length == Size256(|psz| - start - zeroes)
    requires AfterText(psz, start + zeroes) == AfterText(psz, start)
    requires Decoding(psz[start..start + zeroes], Zeroes(zeroes), zeroes, b256[..])
    requires start + zeroes < |psz| ==> psz[start + zeroes] != '1'
    modifies b256
    ensures ok ==> p == AfterText(psz, start) && Decoding(psz[start..p], ds, zeroes, b256[..])
    ensures !ok ==> DecodedCore(psz[start..AfterText(psz, start)]).None?
  {
    hide Val, Pow, Decoding, IndexOf, IsSpace, DecodedCore, Digits;
    ghost var end := AfterText(psz, start);
    ok, p, ds := true, start + zeroes, Zeroes(zeroes);
    while ok && p < |psz| && !IsSpace(psz[p])
      invariant start + zeroes <= p <= end && AfterText(psz, p) == end
      invariant if ok then |ds| == p - start && Decoding(psz[start..p], ds, zeroes, b256[..])
                else DecodedCore(psz[start..end]).None?
      decreases |psz| - p, ok
    {
      var ch := Strchr(psz[p]);
      if ch.None? {
        NoDigitHere(psz, start, p, end);
        ok := false;
      } else {
        ghost var before := b256[..];
        var carry := MultiplyAdd(b256, 58, ch.value, 256);
        DecodingGoesOn(psz, start, p, ds, zeroes, before, ch.value, b256[..], carry, |psz| - start - zeroes);
        assert carry == 0;
        ds, p := ds + [ch.value], p + 1;
      }
    }
  }

  /** psz is a C string: it contains no terminator. */
  method DecodeBase58(psz: string) returns (vch: Option<seq<nat>>)
    ensures vch == Decoded(psz)
  {
    hide LeadingZeroes, DecodedCore, IsSpace, Decoding;
    var start := SkipSpaces(psz, 0);
    var zeroes := CountOnes(psz, start);
    var b256 := new nat[Size256(|psz| - start - zeroes)](i => 0);
    DecodingStarts(psz[start..start + zeroes], zeroes, b256[..]);
    var ok, p, ds := DecodeText(psz, start, zeroes, b256);
    vch := None;
    if ok {
      var e := SkipSpaces(psz, p);
      if e == |psz| {
        DecodingEnds(psz[start..p], ds, zeroes, b256[..]);
        var it := CountZeroes(b256[..]);
        vch := Some(Zeroes(zeroes) + b256[it..]);
      }
    }
  }

  // ---------- with a checksum ----------

  /** The first four bytes of the hash of a byte string. */
  type Checksum = seq<nat> -> seq<nat>

  ghost predicate IsChecksum(cs: Checksum) {
    forall b :: |cs(b)| == 4 && Digits(cs(b), 256)
  }

  method EncodeBase58Check(cs: Checksum, vchIn: seq<nat>) returns (str: string)
    requires IsChecksum(cs) && Digits(vchIn, 256)
    ensures str == Encoded(vchIn + cs(vchIn))
  {
    str := EncodeBase58(vchIn + cs(vchIn));
  }

  ghost function DecodedCheck(cs: Checksum, psz: string): Option<seq<nat>> {
    match Decoded(psz)
    case None => None
    case Some(b) => if |b| >= 4 && cs(b[..|b| - 4]) == b[|b| - 4..] then Some(b[..|b| - 4]) else None
  }

  method DecodeBase58Check(cs: Checksum, psz: string) returns (vch: Option<seq<nat>>)
    ensures vch == DecodedCheck(cs, psz)
  {
    var b := DecodeBase58(psz);
    vch := None;
    if b.Some? && |b.value| >= 4 {
      var data := b.value[..|b.value| - 4];
      if cs(data) == b.value[|b.value| - 4..] {
        vch := Some(data);
      }
    }
  }

  /** Spaces around a text without any are skipped. */
  lemma {:induction false} CoreOfText(before: string, t: string, after_: string)
    requires OnlySpaces(before) && OnlySpaces(after_) && forall i | 0 <= i < |t| :: !IsSpace(t[i])
    ensures Core(before + t + after_) == t && Decoded(before + t + after_) == DecodedCore(t)
  {
    hide DecodedCore, IsSpace;
    var psz, m, n := before + t + after_, |before|, |before| + |t|;
    if t == [] {
      SpacesUpTo(psz, 0, |psz|);
      TextUpTo(psz, |psz|, |psz|);
      SpacesUpTo(psz, |psz|, |psz|);
      assert psz[|psz|..|psz|] == t;
    } else {
      assert psz[m] == t[0];
      SpacesUpTo(psz, 0, m);
      TextUpTo(psz, m, n);
      SpacesUpTo(psz, n, |psz|);
      assert psz[m..n] == t;
    }
  }

  predicate OnlySpaces(s: string) {
    forall i | 0 <= i < |s| :: IsSpace(s[i])
  }

  lemma {:induction false} SpacesUpTo(psz: string, p: nat, q: nat)
    requires p <= q <= |psz| && (forall i | p <= i < q :: IsSpace(psz[i])) && (q < |psz| ==> !IsSpace(psz[q]))
    ensures AfterSpaces(psz, p) == q
    decreases q - p
  {
    if p < q {
      SpacesUpTo(psz, p + 1, q);
    }
  }

  lemma {:induction false} TextUpTo(psz: string, p: nat, q: nat)
    requires p <= q <= |psz| && (forall i | p <= i < q :: !IsSpace(psz[i])) && (q < |psz| ==> IsSpace(psz[q]))
    ensures AfterText(psz, p) == q
    decreases q - p
  {
    if p < q {
      TextUpTo(psz, p + 1, q);
    }
  }

  /** Characters of the alphabet are no spaces. */
  lemma {:induction false} DigitsAreNoSpaces(t: string)
    requires DigitsOf(t).Some?
    ensures forall i | 0 <= i < |t| :: !IsSpace(t[i])
  {
    if t != [] {
      DigitsAreNoSpaces(t[..|t| - 1]);
      var d := DigitsOf(t).value[|t| - 1];
      IndexOfChar(t[|t| - 1], d);
      AlphabetAt(d);
      assert t == t[..|t| - 1] + [t[|t| - 1]];
    }
  }

  /** Decode after encode, through both methods' specifications, with any spaces around and checksum included. */
  lemma {:induction false} CheckRoundTrip(cs: Checksum, bytes: seq<nat>, before: string, after_: string)
    requires IsChecksum(cs) && Digits(bytes, 256) && OnlySpaces(before) && OnlySpaces(after_)
    ensures Decoded(before + Encoded(bytes) + after_) == Some(bytes)
    ensures DecodedCheck(cs, before + Encoded(bytes + cs(bytes)) + after_) == Some(bytes)
  {
    hide Encoded, DecodedCore, DigitsOf, Core;
    EncodedIsText(bytes, before, after_);
    EncodedIsText(bytes + cs(bytes), before, after_);
  }

  lemma {:induction false} EncodedIsText(bytes: seq<nat>, before: string, after_: string)
    requires Digits(bytes, 256) && OnlySpaces(before) && OnlySpaces(after_)
    ensures Decoded(before + Encoded(bytes) + after_) == Some(bytes)
  {
    hide Encoded, DigitsOf, Core, Decoded, IsSpace;
    DecodeEncode(bytes);
    DigitsAreNoSpaces(Encoded(bytes));
    CoreOfText(before, Encoded(bytes), after_);
  }

  /** Whatever text decodes, spaces apart it is the encoding of what it decodes to. */
  lemma {:induction false} DecodedIsEncoded(cs: Checksum, psz: string)
    ensures Decoded(psz).Some? ==> Digits(Decoded(psz).value, 256) && Encoded(Decoded(psz).value) == Core(psz)
    ensures var v := DecodedCheck(cs, psz);
            v.Some? ==> Digits(v.value + cs(v.value), 256) && Core(psz) == Encoded(v.value + cs(v.value))
  {
    hide Encoded, DecodedCore, DigitsOf, Core;
    if Decoded(psz).Some? {
      EncodeDecode(Core(psz));
      var b := Decoded(psz).value;
      if DecodedCheck(cs, psz).Some? {
        assert b == b[..|b| - 4] + b[|b| - 4..];
      }
    }
  }
}
