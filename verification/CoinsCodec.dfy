/**
 * How a CCoins is stored: a header code, a bit mask of the outputs still there, and those outputs
 * in compact form. A stream is a sequence of tokens: single bytes and numbers in the VARINT code,
 * which is self-delimiting and writes numbers below 128 as one byte.
 */
module CoinsCodec {
  import opened Options
  import opened RawBytes
  import opened Coins
  import opened Compressor
  import opened Positional

  datatype Token = VarInt(n: nat) | Raw(b: Byte)

  type Stream = seq<Token>

  function Bytes(s: seq<Byte>): (t: Stream)
    ensures |t| == |s| && forall i | 0 <= i < |s| :: t[i] == Raw(s[i])
  {
    seq(|s|, i requires 0 <= i < |s| => Raw(s[i]))
  }

  function ReadVarInt(t: Stream): Option<(nat, Stream)> {
    if t == [] then None
    else match t[0]
      case VarInt(n) => Some((n, t[1..]))
      case Raw(b) => if b < 128 then Some((b, t[1..])) else None
  }

  function ReadBytes(t: Stream, n: nat): Option<(seq<Byte>, Stream)> {
    if n == 0 then Some(([], t))
    else if t == [] || t[0].VarInt? then None
    else
      match ReadBytes(t[1..], n - 1)
      case None => None
      case Some((s, rest)) => Some(([t[0].b] + s, rest))
  }

  lemma {:induction false} BytesRoundTrip(s: seq<Byte>, rest: Stream)
    ensures ReadBytes(Bytes(s) + rest, |s|) == Some((s, rest))
  {
    if s != [] {
      BytesRoundTrip(s[1..], rest);
      assert (Bytes(s) + rest)[1..] == Bytes(s[1..]) + rest;
      assert s == [s[0]] + s[1..];
    } else {
      assert Bytes(s) + rest == rest;
    }
  }

  // ---------- scripts ----------

  const OP_DUP: Byte := 0x76
  const OP_HASH160: Byte := 0xa9
  const OP_EQUAL: Byte := 0x87
  const OP_EQUALVERIFY: Byte := 0x88
  const OP_CHECKSIG: Byte := 0xac
  const SPECIAL_SCRIPTS: nat := 6

  /** What the elliptic curve library knows of public keys. */
  datatype Keys = Keys(valid: seq<Byte> -> bool, decompress: seq<Byte> -> Option<seq<Byte>>)

  /** A valid key comes back from its first coordinate and the parity of the second. */
  ghost predicate KeysOk(k: Keys) {
    forall key: seq<Byte> | |key| == 65 && key[0] == 4 && k.valid(key) ::
      k.decompress([2 + key[64] % 2] + key[1..33]) == Some(key)
  }

  predicate IsToKeyID(s: Script) {
    |s| == 25 && s[0] == OP_DUP && s[1] == OP_HASH160 && s[2] == 20 && s[23] == OP_EQUALVERIFY && s[24] == OP_CHECKSIG
  }

  predicate IsToScriptID(s: Script) {
    |s| == 23 && s[0] == OP_HASH160 && s[1] == 20 && s[22] == OP_EQUAL
  }

  predicate IsToShortKey(s: Script) {
    |s| == 35 && s[0] == 33 && s[34] == OP_CHECKSIG && (s[1] == 2 || s[1] == 3)
  }

  predicate IsToLongKey(k: Keys, s: Script) {
    |s| == 67 && s[0] == 65 && s[66] == OP_CHECKSIG && s[1] == 4 && k.valid(s[1..66])
  }

  /** CScriptCompressor::Compress, for the scripts it knows. */
  function Compress(k: Keys, s: Script): Option<seq<Byte>> {
    if IsToKeyID(s) then Some([0] + s[3..23])
    else if IsToScriptID(s) then Some([1] + s[2..22])
    else if IsToShortKey(s) then Some([s[1]] + s[2..34])
    else if IsToLongKey(k, s) then Some([4 + s[65] % 2] + s[2..34])
    else None
  }

  function SpecialSize(nSize: nat): nat {
    if nSize == 0 || nSize == 1 then 20 else if nSize < SPECIAL_SCRIPTS then 32 else 0
  }

  /** CScriptCompressor::Decompress. */
  function Decompress(k: Keys, nSize: nat, data: seq<Byte>): Option<Script>
    requires |data| == SpecialSize(nSize)
  {
    if nSize == 0 then Some([OP_DUP, OP_HASH160, 20] + data + [OP_EQUALVERIFY, OP_CHECKSIG])
    else if nSize == 1 then Some([OP_HASH160, 20] + data + [OP_EQUAL])
    else if nSize == 2 || nSize == 3 then Some([33, nSize] + data + [OP_CHECKSIG])
    else if nSize == 4 || nSize == 5 then
      match k.decompress([nSize - 2] + data)
      case None => None
      case Some(key) => Some([65] + key + [OP_CHECKSIG])
    else None
  }

  lemma {:induction false} DecompressCompress(k: Keys, s: Script)
    requires KeysOk(k)
    ensures var c := Compress(k, s);
            c.Some? ==>
              && |c.value| > 0 && c.value[0] < SPECIAL_SCRIPTS && |c.value| == 1 + SpecialSize(c.value[0])
              && Decompress(k, c.value[0], c.value[1..]) == Some(s)
  {
    if IsToKeyID(s) {
      assert s == [OP_DUP, OP_HASH160, 20] + s[3..23] + [OP_EQUALVERIFY, OP_CHECKSIG];
    } else if IsToScriptID(s) {
      assert s == [OP_HASH160, 20] + s[2..22] + [OP_EQUAL];
    } else if IsToShortKey(s) {
      assert s == [33, s[1]] + s[2..34] + [OP_CHECKSIG];
    } else if IsToLongKey(k, s) {
      LongKeyBack(k, s);
    }
  }

  lemma {:induction false} LongKeyBack(k: Keys, s: Script)
    requires KeysOk(k) && IsToLongKey(k, s)
    ensures k.decompress([2 + s[65] % 2] + s[2..34]) == Some(s[1..66]) && s == [65] + s[1..66] + [OP_CHECKSIG]
  {
    var key := s[1..66];
    Subslice(s);
    assert key[64] == s[65] && key[0] == s[1];
    assert k.decompress([2 + key[64] % 2] + key[1..33]) == Some(key);
  }

  lemma {:induction false} Subslice(s: Script)
    requires |s| == 67
    ensures s[1..66][1..33] == s[2..34]
  {
    forall i | 0 <= i < 32
      ensures s[1..66][1..33][i] == s[2..34][i]
    {
      assert s[1..66][1 + i] == s[2 + i];
    }
  }

  function WriteScript(k: Keys, s: Script): Stream {
    match Compress(k, s)
    case Some(c) => Bytes(c)
    case None => [VarInt(|s| + SPECIAL_SCRIPTS)] + Bytes(s)
  }

  /** A script that cannot be decompressed is left as it was, empty. */
  function ReadScript(k: Keys, t: Stream): Option<(Script, Stream)> {
    match ReadVarInt(t)
    case None => None
    case Some((nSize, t1)) =>
      if nSize < SPECIAL_SCRIPTS then
        match ReadBytes(t1, SpecialSize(nSize))
        case None => None
        case Some((vch, t2)) =>
          ReadBytesLength(t1, SpecialSize(nSize));
          Some((match Decompress(k, nSize, vch) case Some(s) => s case None => [], t2))
      else ReadBytes(t1, nSize - SPECIAL_SCRIPTS)
  }

  lemma {:induction false} ReadBytesLength(t: Stream, n: nat)
    ensures ReadBytes(t, n).Some? ==> |ReadBytes(t, n).value.0| == n
  {
    if n > 0 && t != [] {
      ReadBytesLength(t[1..], n - 1);
    }
  }

  lemma {:induction false} ScriptRoundTrip(k: Keys, s: Script, rest: Stream)
    requires KeysOk(k)
    ensures ReadScript(k, WriteScript(k, s) + rest) == Some((s, rest))
  {
    hide KeysOk, Decompress, ReadBytes;
    DecompressCompress(k, s);
    match Compress(k, s)
    case Some(c) =>
      assert (Bytes(c) + rest)[1..] == Bytes(c[1..]) + rest;
      BytesRoundTrip(c[1..], rest);
    case None =>
      assert ([VarInt(|s| + SPECIAL_SCRIPTS)] + Bytes(s) + rest)[1..] == Bytes(s) + rest;
      BytesRoundTrip(s, rest);
  }

  /** The stored form of a script to a key hash ... */
  lemma {:induction false} StoredKeyHash(k: Keys, h: seq<Byte>)
    requires |h| == 20
    ensures WriteScript(k, [0x76, 0xa9, 20] + h + [0x88, 0xac]) == [Raw(0)] + Bytes(h)
  {
    hide IsToScriptID, IsToShortKey, IsToLongKey;
    var s := [0x76, 0xa9, 20] + h + [0x88, 0xac];
    assert IsToKeyID(s) && s[3..23] == h;
    assert Compress(k, s) == Some([0] + h);
  }

  /** ... to a script hash ... */
  lemma {:induction false} StoredScriptHash(k: Keys, h: seq<Byte>)
    requires |h| == 20
    ensures WriteScript(k, [0xa9, 20] + h + [0x87]) == [Raw(1)] + Bytes(h)
  {
    hide IsToShortKey, IsToLongKey;
    var s := [0xa9, 20] + h + [0x87];
    assert IsToScriptID(s) && s[2..22] == h;
    assert Compress(k, s) == Some([1] + h);
  }

  /** ... to a short key ... */
  lemma {:induction false} StoredShortKey(k: Keys, x: seq<Byte>, parity: Byte)
    requires |x| == 32 && parity < 2
    ensures WriteScript(k, [33, 2 + parity] + x + [0xac]) == [Raw(2 + parity)] + Bytes(x)
  {
    var s := [33, 2 + parity] + x + [0xac];
    assert s[2..34] == x;
    assert Compress(k, s) == Some([2 + parity] + x);
  }

  /** ... and to a long key: its first half and the parity of the second. */
  lemma {:induction false} StoredLongKey(k: Keys, x: seq<Byte>, y: seq<Byte>)
    requires |x| == 32 && |y| == 32 && k.valid([4] + x + y)
    ensures WriteScript(k, [65, 4] + x + y + [0xac]) == [Raw(4 + y[31] % 2)] + Bytes(x)
  {
    var s := [65, 4] + x + y + [0xac];
    assert s[1..66] == [4] + x + y && s[2..34] == x && s[65] == y[31];
    assert Compress(k, s) == Some([4 + y[31] % 2] + x);
  }

  // ---------- outputs ----------

  function WriteOut(k: Keys, o: TxOut): Stream
    requires o.value >= 0
  {
    [VarInt(Compressed(o.value))] + WriteScript(k, o.script)
  }

  function ReadOut(k: Keys, t: Stream): Option<(TxOut, Stream)> {
    match ReadVarInt(t)
    case None => None
    case Some((nVal, t1)) =>
      match ReadScript(k, t1)
      case None => None
      case Some((s, t2)) => Some((TxOut(Decompressed(nVal), s), t2))
  }

  lemma {:induction false} OutRoundTrip(k: Keys, o: TxOut, rest: Stream)
    requires KeysOk(k) && o.value >= 0
    ensures ReadOut(k, WriteOut(k, o) + rest) == Some((o, rest))
  {
    hide KeysOk, WriteScript, ReadScript, Compressed, Decompressed;
    AmountRoundTrip(o.value);
    assert (WriteOut(k, o) + rest)[1..] == WriteScript(k, o.script) + rest;
    ScriptRoundTrip(k, o.script, rest);
  }

  /** The outputs from i on that are there. */
  function WriteOuts(k: Keys, vout: seq<TxOut>, i: nat): Stream
    requires i <= |vout| && forall j | 0 <= j < |vout| && !vout[j].IsNull() :: vout[j].value >= 0
    decreases |vout| - i
  {
    if i == |vout| then [] else (if vout[i].IsNull() then [] else WriteOut(k, vout[i])) + WriteOuts(k, vout, i + 1)
  }

  /** One output for each bit that is set from i on, null ones between. */
  function ReadOuts(k: Keys, t: Stream, avail: seq<bool>, i: nat): Option<(seq<TxOut>, Stream)>
    requires i <= |avail|
    decreases |avail| - i
  {
    if i == |avail| then Some(([], t))
    else
      match (if avail[i] then ReadOut(k, t) else Some((NULL_OUT, t)))
      case None => None
      case Some((o, t1)) =>
        match ReadOuts(k, t1, avail, i + 1)
        case None => None
        case Some((os, t2)) => Some(([o] + os, t2))
  }

  /** avail says which outputs are there. */
  ghost predicate Marks(avail: seq<bool>, vout: seq<TxOut>) {
    |avail| >= |vout| && forall i | 0 <= i < |avail| :: avail[i] == (i < |vout| && !vout[i].IsNull())
  }

  /** vout from i on, filled up with null outputs. */
  function Padding(vout: seq<TxOut>, i: nat, n: nat): (os: seq<TxOut>)
    requires i <= n
    ensures |os| == n - i && forall j | 0 <= j < n - i :: os[j] == if i + j < |vout| then vout[i + j] else NULL_OUT
  {
    seq(n - i, j requires 0 <= j < n - i => if i + j < |vout| then vout[i + j] else NULL_OUT)
  }

  function WriteOutsFrom(k: Keys, vout: seq<TxOut>, i: nat): Stream
    requires forall j | 0 <= j < |vout| && !vout[j].IsNull() :: vout[j].value >= 0
  {
    if i <= |vout| then WriteOuts(k, vout, i) else []
  }

  lemma {:induction false} OutsRoundTrip(k: Keys, vout: seq<TxOut>, avail: seq<bool>, i: nat, rest: Stream)
    requires KeysOk(k) && Marks(avail, vout) && Canonical(vout) && i <= |avail|
    requires forall j | 0 <= j < |vout| && !vout[j].IsNull() :: vout[j].value >= 0
    ensures ReadOuts(k, WriteOutsFrom(k, vout, i) + rest, avail, i) == Some((Padding(vout, i, |avail|), rest))
    decreases |avail| - i
  {
    hide KeysOk, WriteOut, ReadOut;
    var t, more := WriteOutsFrom(k, vout, i) + rest, WriteOutsFrom(k, vout, i + 1) + rest;
    if i < |avail| {
      OutsRoundTrip(k, vout, avail, i + 1, rest);
      if avail[i] {
        assert t == WriteOut(k, vout[i]) + more;
        OutRoundTrip(k, vout[i], more);
      } else {
        assert t == more;
      }
      var o := if i < |vout| then vout[i] else NULL_OUT;
      assert Padding(vout, i, |avail|) == [o] + Padding(vout, i + 1, |avail|);
    } else {
      assert t == rest;
    }
  }

  // ---------- the bit mask ----------

  /** Bits as a number, lowest first. */
  function Number(bits: seq<bool>): nat {
    if bits == [] then 0 else (if bits[0] then 1 else 0) + 2 * Number(bits[1..])
  }

  function BitsOfNumber(b: nat, n: nat): (bits: seq<bool>)
    ensures |bits| == n
  {
    if n == 0 then [] else [b % 2 == 1] + BitsOfNumber(b / 2, n - 1)
  }

  lemma {:induction false} NumberBack(bits: seq<bool>)
    ensures BitsOfNumber(Number(bits), |bits|) == bits
    ensures Number(bits) == 0 <==> forall i | 0 <= i < |bits| :: !bits[i]
  {
    if bits != [] {
      NumberBack(bits[1..]);
      assert bits == [bits[0]] + bits[1..];
    }
  }

  lemma {:induction false} NumberBound(bits: seq<bool>)
    ensures Number(bits) < Pow(2, |bits|)
  {
    if bits != [] {
      NumberBound(bits[1..]);
    }
  }

  function ByteOf(bits: seq<bool>): Byte
    requires |bits| == 8
  {
    NumberBound(bits);
    assert Pow(2, 8) == 256;
    Number(bits)
  }

  /** Bit i is worth 2^i. */
  lemma {:induction false} MaskByteValue(bits: seq<bool>)
    requires |bits| == 8
    ensures ByteOf(bits) == (if bits[0] then 1 else 0) + (if bits[1] then 2 else 0) + (if bits[2] then 4 else 0)
                            + (if bits[3] then 8 else 0) + (if bits[4] then 16 else 0) + (if bits[5] then 32 else 0)
                            + (if bits[6] then 64 else 0) + (if bits[7] then 128 else 0)
  {
    hide Number, Pow;
    FourBits(bits, 0);
    FourBits(bits, 4);
    assert bits[0..] == bits && bits[8..] == [];
    NumberFrom(bits, 0);
  }

  lemma {:induction false} FourBits(bits: seq<bool>, i: nat)
    requires i + 4 <= |bits|
    ensures Number(bits[i..]) ==
            (if bits[i] then 1 else 0) + (if bits[i + 1] then 2 else 0) + (if bits[i + 2] then 4 else 0)
                                 + (if bits[i + 3] then 8 else 0) + 16 * Number(bits[i + 4..])
  {
    hide Number;
    NumberFrom(bits, i);
    NumberFrom(bits, i + 1);
    NumberFrom(bits, i + 2);
    NumberFrom(bits, i + 3);
  }

  lemma {:induction false} NumberFrom(bits: seq<bool>, i: nat)
    requires i < |bits|
    ensures Number(bits[i..]) == (if bits[i] then 1 else 0) + 2 * Number(bits[i + 1..]) && Number([]) == 0
  {
    assert bits[i..][1..] == bits[i + 1..];
  }

  function BitsOf(b: Byte): seq<bool> {
    BitsOfNumber(b, 8)
  }

  lemma {:induction false} BitsRoundTrip(bits: seq<bool>)
    requires |bits| == 8
    ensures BitsOf(ByteOf(bits)) == bits
    ensures ByteOf(bits) == 0 <==> forall i | 0 <= i < 8 :: !bits[i]
  {
    NumberBack(bits);
  }

  predicate There(vout: seq<TxOut>, i: nat) {
    i < |vout| && !vout[i].IsNull()
  }

  /** The availability of eight outputs; the first two are not in the mask. */
  function MaskBits(vout: seq<TxOut>, b: nat): (bits: seq<bool>)
    ensures |bits| == 8 && forall i | 0 <= i < 8 :: bits[i] == There(vout, 2 + b * 8 + i)
  {
    seq(8, i requires 0 <= i < 8 => There(vout, 2 + b * 8 + i))
  }

  /** Of the mask bytes from b on: where the last one in use ends, and how many are not zero. */
  function MaskSize(vout: seq<TxOut>, b: nat, last: nat): (r: (nat, nat))
    decreases if 2 + b * 8 < |vout| then |vout| - 2 - b * 8 else 0
  {
    if 2 + b * 8 >= |vout| then (last, 0)
    else if ByteOf(MaskBits(vout, b)) == 0 then MaskSize(vout, b + 1, last)
    else
      var r := MaskSize(vout, b + 1, b + 1);
      (r.0, r.1 + 1)
  }

  /** CCoins::CalcMaskSize */
  method CalcMaskSize(vout: seq<TxOut>) returns (nBytes: nat, nNonzeroBytes: nat)
    ensures (nBytes, nNonzeroBytes) == MaskSize(vout, 0, 0)
  {
    hide ByteOf;
    nBytes, nNonzeroBytes := 0, 0;
    var b := 0;
    while 2 + b * 8 < |vout|
      invariant MaskSize(vout, 0, 0) == (MaskSize(vout, b, nBytes).0, nNonzeroBytes + MaskSize(vout, b, nBytes).1)
    {
      var fZero := AllNull(vout, b);
      if !fZero {
        nBytes := b + 1;
        nNonzeroBytes := nNonzeroBytes + 1;
      }
      b := b + 1;
    }
  }

  method AllNull(vout: seq<TxOut>, b: nat) returns (fZero: bool)
    ensures fZero == (ByteOf(MaskBits(vout, b)) == 0)
  {
    hide ByteOf;
    ghost var bits := MaskBits(vout, b);
    BitsRoundTrip(bits);
    fZero := true;
    var i := 0;
    while i < 8 && 2 + b * 8 + i < |vout|
      invariant 0 <= i <= 8 && fZero == forall j | 0 <= j < i :: !bits[j]
    {
      assert bits[i] == !vout[2 + b * 8 + i].IsNull();
      if !vout[2 + b * 8 + i].IsNull() {
        fZero := false;
      }
      i := i + 1;
    }
    assert forall j | i <= j < 8 :: !bits[j];
  }

  function WriteMask(vout: seq<TxOut>, b: nat, n: nat): Stream
    requires b <= n
    decreases n - b
  {
    if b == n then [] else [Raw(ByteOf(MaskBits(vout, b)))] + WriteMask(vout, b + 1, n)
  }

  /** Bytes until so many that are not zero have been seen. */
  function ReadMask(t: Stream, nMaskCode: nat): Option<(seq<bool>, Stream)> {
    if nMaskCode == 0 then Some(([], t))
    else if t == [] || t[0].VarInt? then None
    else
      match ReadMask(t[1..], if t[0].b != 0 then nMaskCode - 1 else nMaskCode)
      case None => None
      case Some((bits, rest)) => Some((BitsOf(t[0].b) + bits, rest))
  }

  function AvailBits(vout: seq<TxOut>, b: nat, n: nat): (bits: seq<bool>)
    requires b <= n
    ensures |bits| == 8 * (n - b) && forall i | 0 <= i < 8 * (n - b) :: bits[i] == There(vout, 2 + b * 8 + i)
  {
    seq(8 * (n - b), i requires 0 <= i < 8 * (n - b) => There(vout, 2 + b * 8 + i))
  }

  /** What MaskSize says of the mask bytes from b on, and that they are read back. */
  ghost predicate MaskReads(vout: seq<TxOut>, b: nat, last: nat, rest: Stream) {
    var (m, code) := MaskSize(vout, b, last);
    if code == 0 then m == last && forall i | i >= 2 + b * 8 :: !There(vout, i)
    else
      && b < m && (forall i | i >= 2 + m * 8 :: !There(vout, i))
      && ReadMask(WriteMask(vout, b, m) + rest, code) == Some((AvailBits(vout, b, m), rest))
  }

  /** Zero bytes inside the mask are read back, and reading stops behind its last byte. */
  lemma {:induction false} MaskRoundTrip(vout: seq<TxOut>, b: nat, last: nat, rest: Stream)
    ensures MaskReads(vout, b, last, rest)
    decreases if 2 + b * 8 < |vout| then |vout| - 2 - b * 8 else 0
  {
    if 2 + b * 8 < |vout| {
      var last' := if ByteOf(MaskBits(vout, b)) == 0 then last else b + 1;
      MaskRoundTrip(vout, b + 1, last', rest);
      MaskStep(vout, b, last, rest);
    }
  }

  lemma {:induction false} MaskStep(vout: seq<TxOut>, b: nat, last: nat, rest: Stream)
    requires 2 + b * 8 < |vout|
    requires MaskReads(vout, b + 1, if ByteOf(MaskBits(vout, b)) == 0 then last else b + 1, rest)
    ensures MaskReads(vout, b, last, rest)
  {
    hide ByteOf, BitsOf, There;
    var bits := MaskBits(vout, b);
    var byte := ByteOf(bits);
    BitsRoundTrip(bits);
    if byte == 0 {
      EmptyByte(vout, b);
    }
    var (m, code) := MaskSize(vout, b + 1, if byte == 0 then last else b + 1);
    if code > 0 {
      assert (WriteMask(vout, b, m) + rest)[1..] == WriteMask(vout, b + 1, m) + rest;
      MoreBits(vout, b, m);
    } else if byte != 0 {
      assert WriteMask(vout, b, b + 1) == [Raw(byte)];
      assert ([Raw(byte)] + rest)[1..] == rest;
      MoreBits(vout, b, b + 1);
      assert AvailBits(vout, b + 1, b + 1) == [];
      assert bits + [] == bits;
      var t: Stream := [Raw(byte)] + rest;
      assert t[1..] == rest && ReadMask(rest, 0) == Some(([], rest));
      assert ReadMask(t, 1) == Some((bits, rest));
    }
  }

  lemma {:induction false} MoreBits(vout: seq<TxOut>, b: nat, m: nat)
    requires b < m
    ensures AvailBits(vout, b, m) == MaskBits(vout, b) + AvailBits(vout, b + 1, m)
  {
    hide There;
  }

  lemma {:induction false} EmptyByte(vout: seq<TxOut>, b: nat)
    requires ByteOf(MaskBits(vout, b)) == 0
    ensures forall i | 2 + b * 8 <= i < 2 + (b + 1) * 8 :: !There(vout, i)
  {
    hide ByteOf;
    BitsRoundTrip(MaskBits(vout, b));
    forall i | 2 + b * 8 <= i < 2 + (b + 1) * 8
      ensures !There(vout, i)
    {
      assert MaskBits(vout, b)[i - 2 - b * 8] == There(vout, i);
    }
  }

  // ---------- the whole record ----------

  /** Numbers that can be stored: not negative, and null outputs are the null output. */
  ghost predicate Storable(c: Coins) {
    && !c.IsPruned() && Trimmed(c.vout) && Canonical(c.vout) && c.version >= 0 && c.height >= 0
    && forall j | 0 <= j < |c.vout| && !c.vout[j].IsNull() :: c.vout[j].value >= 0
  }

  function HeaderCode(nMaskCode: nat, fCoinBase: bool, fFirst: bool, fSecond: bool): nat
    requires fFirst || fSecond || nMaskCode > 0
  {
    8 * (nMaskCode - if fFirst || fSecond then 0 else 1) + (if fCoinBase then 1 else 0) + (if fFirst then 2 else 0)
      + (if fSecond then 4 else 0)
  }

  lemma {:induction false} HeaderCodeBack(nMaskCode: nat, fCoinBase: bool, fFirst: bool, fSecond: bool)
    requires fFirst || fSecond || nMaskCode > 0
    ensures var n := HeaderCode(nMaskCode, fCoinBase, fFirst, fSecond);
            && (n % 2 == 1) == fCoinBase && (n / 2 % 2 == 1) == fFirst && (n / 4 % 2 == 1) == fSecond
            && n / 8 + (if n / 2 % 4 != 0 then 0 else 1) == nMaskCode
  {
    Bits3(nMaskCode - if fFirst || fSecond then 0 else 1,
          if fCoinBase then 1 else 0, if fFirst then 1 else 0, if fSecond then 1 else 0);
  }

  lemma {:induction false} Bits3(q: nat, c: nat, f: nat, s: nat)
    requires c < 2 && f < 2 && s < 2
    ensures var n := 8 * q + c + 2 * f + 4 * s;
            n % 2 == c && n / 2 % 2 == f && n / 4 % 2 == s && n / 8 == q && n / 2 % 4 == f + 2 * s
  {
    var n := 8 * q + c + 2 * f + 4 * s;
    DivMod(4 * q + f + 2 * s, c, 2);
    DivMod(2 * q + s, f, 2);
    DivMod(2 * q + s, c + 2 * f, 4);
    DivMod(q, s, 2);
    DivMod(q, c + 2 * f + 4 * s, 8);
    DivMod(q, f + 2 * s, 4);
  }

  /** The assertion of Serialize: something is left. */
  lemma {:induction false} SomethingLeft(vout: seq<TxOut>)
    requires exists i :: There(vout, i)
    ensures There(vout, 0) || There(vout, 1) || MaskSize(vout, 0, 0).1 > 0
  {
    hide MaskSize, ReadMask, WriteMask;
    MaskRoundTrip(vout, 0, 0, []);
    var i :| There(vout, i);
  }

  function WriteHeader(c: Coins): Stream
    requires Storable(c)
  {
    LeftOver(c);
    [VarInt(c.version), VarInt(HeaderCode(MaskSize(c.vout, 0, 0).1, c.coinBase, There(c.vout, 0), There(c.vout, 1)))]
  }

  function WriteCoins(k: Keys, c: Coins): Stream
    requires Storable(c)
  {
    WriteHeader(c) + WriteMask(c.vout, 0, MaskSize(c.vout, 0, 0).0) + WriteOuts(k, c.vout, 0) + [VarInt(c.height)]
  }

  lemma {:induction false} LeftOver(c: Coins)
    requires Storable(c)
    ensures There(c.vout, 0) || There(c.vout, 1) || MaskSize(c.vout, 0, 0).1 > 0
  {
    var i :| 0 <= i < |c.vout| && !c.vout[i].IsNull();
    assert There(c.vout, i);
    SomethingLeft(c.vout);
  }

  /** What follows the header code. */
  function ReadBody(k: Keys, version: nat, nCode: nat, t2: Stream): Option<(Coins, Stream)> {
    match ReadMask(t2, nCode / 8 + if nCode / 2 % 4 != 0 then 0 else 1)
    case None => None
    case Some((mask, t3)) =>
      var avail := [nCode / 2 % 2 == 1, nCode / 4 % 2 == 1] + mask;
      match ReadOuts(k, t3, avail, 0)
      case None => None
      case Some((vout, t4)) =>
        match ReadVarInt(t4)
        case None => None
        case Some((height, t5)) => Some((Coins(nCode % 2 == 1, Trim(vout), height, version), t5))
  }

  function ReadCoins(k: Keys, t: Stream): Option<(Coins, Stream)> {
    match ReadVarInt(t)
    case None => None
    case Some((version, t1)) =>
      match ReadVarInt(t1)
      case None => None
      case Some((nCode, t2)) => ReadBody(k, version, nCode, t2)
  }

  /** The first example in coins.h: 600 coins sent to a key hash by the second output. */
  lemma {:induction false} StoredExample(k: Keys, h: seq<Byte>)
    requires |h| == 20
    ensures var c := Coins(false, [NULL_OUT, TxOut(60_000_000_000, [0x76, 0xa9, 20] + h + [0x88, 0xac])], 203_998, 1);
            Storable(c) && WriteCoins(k, c) ==
                           [VarInt(1), VarInt(4), VarInt(600), Raw(0)] + Bytes(h) + [VarInt(203_998)]
  {
    hide Compressed, Compress;
    var o := TxOut(60_000_000_000, [0x76, 0xa9, 20] + h + [0x88, 0xac]);
    var c := Coins(false, [NULL_OUT, o], 203_998, 1);
    KnownCodes();
    StoredKeyHash(k, h);
    assert !c.vout[1].IsNull();
    assert MaskSize(c.vout, 0, 0) == (0, 0) && There(c.vout, 1) && !There(c.vout, 0);
    assert WriteOuts(k, c.vout, 2) == [] && WriteOuts(k, c.vout, 1) == WriteOut(k, o) + [];
    assert WriteOuts(k, c.vout, 0) == [] + WriteOuts(k, c.vout, 1);
    assert WriteMask(c.vout, 0, 0) == [];
  }

  /**
   * Reading back a stored record gives the record, and consumes exactly its tokens.
   */
  lemma {:induction false} CoinsRoundTrip(k: Keys, c: Coins, rest: Stream)
    requires KeysOk(k) && Storable(c)
    ensures ReadCoins(k, WriteCoins(k, c) + rest) == Some((c, rest))
  {
    hide KeysOk, WriteMask, WriteOuts, ReadBody, HeaderCode, MaskSize, There, Storable;
    StorableParts(c);
    var nCode := WriteHeader(c)[1].n;
    var t5 := [VarInt(c.height)] + rest;
    var t2 := WriteMask(c.vout, 0, MaskSize(c.vout, 0, 0).0) + (WriteOuts(k, c.vout, 0) + t5);
    BodyRoundTrip(k, c, rest);
    var t := WriteCoins(k, c) + rest;
    assert t == [VarInt(c.version), VarInt(nCode)] + t2;
    assert t[1..] == [VarInt(nCode)] + t2;
    assert t[1..][1..] == t2;
  }

  lemma {:induction false} BodyRoundTrip(k: Keys, c: Coins, rest: Stream)
    requires KeysOk(k) && Storable(c)
    ensures ReadBody(k, c.version, WriteHeader(c)[1].n,
                     WriteMask(c.vout, 0, MaskSize(c.vout, 0, 0).0)
                     + (WriteOuts(k, c.vout, 0) + ([VarInt(c.height)] + rest)))
            == Some((c, rest))
  {
    hide KeysOk, WriteMask, ReadMask, WriteOuts, ReadOuts, HeaderCode, MaskSize, There, Storable, Marks, Trim;
    StorableParts(c);
    LeftOver(c);
    var (m, code) := MaskSize(c.vout, 0, 0);
    HeaderCodeBack(code, c.coinBase, There(c.vout, 0), There(c.vout, 1));
    var t5 := [VarInt(c.height)] + rest;
    var avail := [There(c.vout, 0), There(c.vout, 1)] + AvailBits(c.vout, 0, m);
    WholeMask(c, WriteOuts(k, c.vout, 0) + t5);
    OutsRoundTrip(k, c.vout, avail, 0, t5);
    assert t5[1..] == rest;
    PaddingTrims(c, avail);
  }

  lemma {:induction false} PaddingTrims(c: Coins, avail: seq<bool>)
    requires Storable(c) && Marks(avail, c.vout)
    ensures Trim(Padding(c.vout, 0, |avail|)) == c.vout
  {
    TrimUnique(Padding(c.vout, 0, |avail|), c.vout);
  }

  lemma {:induction false} NoMask(vout: seq<TxOut>, rest: Stream)
    ensures ReadMask(WriteMask(vout, 0, 0) + rest, 0) == Some((AvailBits(vout, 0, 0), rest))
  {
    assert WriteMask(vout, 0, 0) + rest == rest;
    assert AvailBits(vout, 0, 0) == [];
  }

  lemma {:induction false} WholeMask(c: Coins, rest: Stream)
    requires Storable(c)
    ensures var (m, code) := MaskSize(c.vout, 0, 0);
            && ReadMask(WriteMask(c.vout, 0, m) + rest, code) == Some((AvailBits(c.vout, 0, m), rest))
            && Marks([There(c.vout, 0), There(c.vout, 1)] + AvailBits(c.vout, 0, m), c.vout)
  {
    hide MaskSize, ReadMask, WriteMask;
    MaskRoundTrip(c.vout, 0, 0, rest);
    NoMask(c.vout, rest);
    var (m, code) := MaskSize(c.vout, 0, 0);
    assert There(c.vout, |c.vout| - 1);
    var avail := [There(c.vout, 0), There(c.vout, 1)] + AvailBits(c.vout, 0, m);
    forall i | 0 <= i < |avail|
      ensures avail[i] == There(c.vout, i)
    {
      if i >= 2 {
        assert AvailBits(c.vout, 0, m)[i - 2] == There(c.vout, i);
      }
    }
  }

  // ---------- as the source does it ----------

  method SerializeCoins(k: Keys, c: Coins) returns (s: Stream)
    requires Storable(c)
    ensures s == WriteCoins(k, c)
  {
    hide ByteOf, WriteOut, Storable, There, HeaderCode;
    StorableParts(c);
    var nMaskSize, nMaskCode := CalcMaskSize(c.vout);
    var fFirst, fSecond := There(c.vout, 0), There(c.vout, 1);
    LeftOver(c);
    assert fFirst || fSecond || nMaskCode > 0;
    s := [VarInt(c.version), VarInt(HeaderCode(nMaskCode, c.coinBase, fFirst, fSecond))];
    ghost var head := s;
    for b := 0 to nMaskSize
      invariant s + WriteMask(c.vout, b, nMaskSize) == head + WriteMask(c.vout, 0, nMaskSize)
    {
      assert s + ([Raw(ByteOf(MaskBits(c.vout, b)))] + WriteMask(c.vout, b + 1, nMaskSize))
          == s + [Raw(ByteOf(MaskBits(c.vout, b)))] + WriteMask(c.vout, b + 1, nMaskSize);
      s := s + [Raw(ByteOf(MaskBits(c.vout, b)))];
    }
    ghost var masked := s;
    assert masked + [] == masked && WriteMask(c.vout, nMaskSize, nMaskSize) == [];
    for i := 0 to |c.vout|
      invariant s + WriteOuts(k, c.vout, i) == masked + WriteOuts(k, c.vout, 0)
    {
      if !c.vout[i].IsNull() {
        assert s + (WriteOut(k, c.vout[i]) + WriteOuts(k, c.vout, i + 1)) ==
               s + WriteOut(k, c.vout[i]) + WriteOuts(k, c.vout, i + 1);
        s := s + WriteOut(k, c.vout[i]);
      } else {
        assert [] + WriteOuts(k, c.vout, i + 1) == WriteOuts(k, c.vout, i + 1);
      }
    }
    assert s + [] == s && WriteOuts(k, c.vout, |c.vout|) == [];
    s := s + [VarInt(c.height)];
  }

  lemma {:induction false} StorableParts(c: Coins)
    requires Storable(c)
    ensures c.version >= 0 && c.height >= 0 && Canonical(c.vout) && Trimmed(c.vout)
    ensures forall j | 0 <= j < |c.vout| && !c.vout[j].IsNull() :: c.vout[j].value >= 0
  {}

  method UnserializeCoins(k: Keys, t: Stream) returns (r: Option<(Coins, Stream)>)
    ensures r == ReadCoins(k, t)
  {
    hide ReadOut, ReadVarInt;
    r := None;
    var v := ReadVarInt(t);
    if v.None? { return; }
    var code := ReadVarInt(v.value.1);
    if code.None? { return; }
    var nCode := code.value.0;
    var nMaskCode := nCode / 8 + if nCode / 2 % 4 != 0 then 0 else 1;
    var mask := LoadMask(code.value.1, nMaskCode);
    if mask.None? { return; }
    var vAvail := [nCode / 2 % 2 == 1, nCode / 4 % 2 == 1] + mask.value.0;
    var outs := LoadOuts(k, mask.value.1, vAvail);
    if outs.None? { return; }
    var height := ReadVarInt(outs.value.1);
    if height.None? { return; }
    var vout := Cleanup(outs.value.0);
    r := Some((Coins(nCode % 2 == 1, vout, height.value.0, v.value.0), height.value.1));
  }

  /** What was read, behind what was read before. */
  function Behind<T>(front: seq<T>, r: Option<(seq<T>, Stream)>): Option<(seq<T>, Stream)> {
    match r
    case None => None
    case Some((back, rest)) => Some((front + back, rest))
  }

  lemma {:induction false} NothingBefore<T>(r: Option<(seq<T>, Stream)>)
    ensures Behind([], r) == r
  {
    if r.Some? {
      assert [] + r.value.0 == r.value.0;
    }
  }

  lemma {:induction false} NothingBehind<T>(front: seq<T>, rest: Stream)
    ensures Behind(front, Some(([], rest))) == Some((front, rest))
  {
    assert front + [] == front;
  }

  method LoadMask(t: Stream, code: nat) returns (r: Option<(seq<bool>, Stream)>)
    ensures r == ReadMask(t, code)
  {
    hide BitsOf;
    var vAvail: seq<bool>, s, nMaskCode := [], t, code;
    NothingBefore(ReadMask(t, code));
    while nMaskCode > 0
      invariant ReadMask(t, code) == Behind(vAvail, ReadMask(s, nMaskCode))
      decreases |s|
    {
      if s == [] || s[0].VarInt? {
        return None;
      }
      var chAvail := s[0].b;
      ghost var more := ReadMask(s[1..], if chAvail != 0 then nMaskCode - 1 else nMaskCode);
      assert more.Some? ==> vAvail + (BitsOf(chAvail) + more.value.0) == vAvail + BitsOf(chAvail) + more.value.0;
      s := s[1..];
      vAvail := vAvail + BitsOf(chAvail);
      if chAvail != 0 {
        nMaskCode := nMaskCode - 1;
      }
    }
    NothingBehind(vAvail, s);
    r := Some((vAvail, s));
  }

  method LoadOuts(k: Keys, t: Stream, vAvail: seq<bool>) returns (r: Option<(seq<TxOut>, Stream)>)
    ensures r == ReadOuts(k, t, vAvail, 0)
  {
    hide ReadOut;
    var vout: seq<TxOut>, s := [], t;
    NothingBefore(ReadOuts(k, t, vAvail, 0));
    for i := 0 to |vAvail|
      invariant ReadOuts(k, t, vAvail, 0) == Behind(vout, ReadOuts(k, s, vAvail, i))
    {
      var o := NULL_OUT;
      if vAvail[i] {
        var next := ReadOut(k, s);
        if next.None? {
          return None;
        }
        o := next.value.0;
        s := next.value.1;
      }
      ghost var more := ReadOuts(k, s, vAvail, i + 1);
      assert more.Some? ==> vout + ([o] + more.value.0) == vout + [o] + more.value.0;
      vout := vout + [o];
    }
    NothingBehind(vout, s);
    r := Some((vout, s));
  }
}
