/**
 * Transactions, the pruned record of a transaction's unspent outputs (CCoins), and what
 * spending one output and undoing that spend do to such a record.
 *
 * A CCoins lives by value inside a cache entry, so it is a datatype here; the loops that
 * trim it are methods proved against the functions.
 */
module Coins {
  import opened Options
  import opened RawBytes

  type Txid = nat  // a 256-bit transaction hash
  type Script = seq<Byte>

  const OP_RETURN: Byte := 0x6a
  const NULL_INDEX: nat := 0xFFFF_FFFF

  datatype TxOut = TxOut(value: int, script: Script) {
    predicate IsNull() {
      value == -1
    }

    predicate IsUnspendable() {
      |script| > 0 && script[0] == OP_RETURN
    }
  }

  const NULL_OUT := TxOut(-1, [])

  datatype OutPoint = OutPoint(hash: Txid, n: nat) {
    predicate IsNull() {
      hash == 0 && n == NULL_INDEX
    }
  }

  datatype Tx = Tx(hash: Txid, version: int, vin: seq<OutPoint>, vout: seq<TxOut>) {
    predicate IsCoinBase() {
      |vin| == 1 && vin[0].IsNull()
    }
  }

  /** Undo record of one input; the metadata is kept only with the last output spent. */
  datatype TxInUndo = TxInUndo(txout: TxOut, coinBase: bool, height: int, version: int)

  datatype Coins = Coins(coinBase: bool, vout: seq<TxOut>, height: int, version: int) {
    predicate IsPruned() {
      forall i | 0 <= i < |vout| :: vout[i].IsNull()
    }

    predicate IsAvailable(n: nat) {
      n < |vout| && !vout[n].IsNull()
    }

    /** The C++ operator==: empty records are equal whatever their metadata. */
    predicate Same(other: Coins) {
      (IsPruned() && other.IsPruned()) || this == other
    }
  }

  const NO_COINS := Coins(false, [], 0, 0)

  /** vout without its trailing spent outputs. */
  function Trim(vout: seq<TxOut>): (r: seq<TxOut>)
    ensures r <= vout
    ensures r == [] || !r[|r| - 1].IsNull()
    ensures forall i | |r| <= i < |vout| :: vout[i].IsNull()
  {
    if vout == [] || !vout[|vout| - 1].IsNull() then vout else Trim(vout[..|vout| - 1])
  }

  predicate Trimmed(vout: seq<TxOut>) {
    vout == [] || !vout[|vout| - 1].IsNull()
  }

  /** Spent slots hold the null output itself, not merely the value -1. */
  predicate Canonical(vout: seq<TxOut>) {
    forall i | 0 <= i < |vout| && vout[i].IsNull() :: vout[i] == NULL_OUT
  }

  /** Trim is the only trimmed prefix of vout behind which everything is spent. */
  lemma {:induction false} TrimUnique(vout: seq<TxOut>, r: seq<TxOut>)
    requires r <= vout && Trimmed(r)
    requires forall i | |r| <= i < |vout| :: vout[i].IsNull()
    ensures Trim(vout) == r
  {
    var t := Trim(vout);
    assert r == [] || vout[|r| - 1] == r[|r| - 1];
    assert t == [] || vout[|t| - 1] == t[|t| - 1];
  }

  /** CCoins::Cleanup: drop spent outputs from the end, one at a time. */
  method Cleanup(vout: seq<TxOut>) returns (r: seq<TxOut>)
    ensures r == Trim(vout)
  {
    r := vout;
    while |r| > 0 && r[|r| - 1].IsNull()
      invariant Trim(r) == Trim(vout)
    {
      r := r[..|r| - 1];
    }
  }

  function DropUnspendable(o: TxOut): TxOut {
    if o.IsUnspendable() then NULL_OUT else o
  }

  function Spendable(vout: seq<TxOut>): (r: seq<TxOut>)
    ensures |r| == |vout|
    ensures forall i | 0 <= i < |vout| :: r[i] == DropUnspendable(vout[i])
  {
    seq(|vout|, i requires 0 <= i < |vout| => DropUnspendable(vout[i]))
  }

  /** CCoins::ClearUnspendable: null every provably unspendable output, then trim. */
  method ClearUnspendable(vout: seq<TxOut>) returns (r: seq<TxOut>)
    ensures r == Trim(Spendable(vout))
  {
    r := vout;
    for i := 0 to |vout|
      invariant |r| == |vout|
      invariant forall k | 0 <= k < i :: r[k] == DropUnspendable(vout[k])
      invariant forall k | i <= k < |vout| :: r[k] == vout[k]
    {
      if r[i].IsUnspendable() {
        r := r[i := NULL_OUT];
      }
    }
    assert r == Spendable(vout);
    r := Cleanup(r);
  }

  function FromTx(tx: Tx, height: int): Coins {
    Coins(tx.IsCoinBase(), Trim(Spendable(tx.vout)), height, tx.version)
  }

  /** A record the UTXO set may hold: trimmed, canonical, something unspent, height known. */
  predicate Live(c: Coins) {
    Trimmed(c.vout) && Canonical(c.vout) && c.vout != [] && c.height >= 1
  }

  lemma {:induction false} LiveIsNotPruned(c: Coins)
    requires Live(c)
    ensures !c.IsPruned()
  {
    assert !c.vout[|c.vout| - 1].IsNull();
  }

  /** No output is null before it is added; CheckTransaction rejects negative values. */
  predicate OutputsNonNegative(tx: Tx) {
    forall i | 0 <= i < |tx.vout| :: tx.vout[i].value >= 0
  }

  lemma {:induction false} FromTxIsLiveOrEmpty(tx: Tx, height: int)
    requires height >= 1 && OutputsNonNegative(tx)
    ensures var c := FromTx(tx, height);
            && (if c.vout == [] then c.IsPruned() else Live(c))
            && (c.coinBase <==> |tx.vin| == 1 && tx.vin[0].IsNull()) && c.height == height && c.version == tx.version
  {
    var s := Spendable(tx.vout);
    assert forall i | 0 <= i < |s| :: s[i] == DropUnspendable(tx.vout[i]);
  }

  /** CCoins::Spend as a function: the record left and the undo data, or None when it fails. */
  function SpendOutput(c: Coins, n: nat): Option<(Coins, TxInUndo)> {
    if !c.IsAvailable(n) then None
    else
      var left := c.(vout := Trim(c.vout[n := NULL_OUT]));
      Some((left, if left.vout == [] then TxInUndo(c.vout[n], c.coinBase, c.height, c.version)
                  else TxInUndo(c.vout[n], false, 0, 0)))
  }

  /** CCoins::Spend. */
  method Spend(c: Coins, n: nat) returns (ok: bool, left: Coins, undo: TxInUndo)
    ensures ok == SpendOutput(c, n).Some?
    ensures ok ==> SpendOutput(c, n) == Some((left, undo))
    ensures !ok ==> left == c
  {
    left, undo := c, TxInUndo(NULL_OUT, false, 0, 0);
    if n >= |c.vout| || c.vout[n].IsNull() {
      return false, left, undo;
    }
    undo := undo.(txout := c.vout[n]);
    var vout := Cleanup(c.vout[n := NULL_OUT]);
    left := c.(vout := vout);
    if |vout| == 0 {
      undo := undo.(height := c.height, coinBase := c.coinBase, version := c.version);
    }
    ok := true;
  }

  function Extend(vout: seq<TxOut>, size: nat): (r: seq<TxOut>)
    ensures |r| == if |vout| < size then size else |vout|
    ensures forall i | 0 <= i < |r| :: r[i] == if i < |vout| then vout[i] else NULL_OUT
  {
    if |vout| < size then vout + seq(size - |vout|, i => NULL_OUT) else vout
  }

  /**
   * The input-restoring half of DisconnectBlock on one record; None when one of its three
   * mismatch branches is taken.
   */
  function RestoreOutput(c: Coins, n: nat, undo: TxInUndo): Option<Coins> {
    if (undo.height != 0) != c.IsPruned() then None
    else
      var base := if undo.height != 0 then Coins(undo.coinBase, [], undo.height, undo.version) else c;
      if base.IsAvailable(n) then None
      else Some(base.(vout := Trim(Extend(base.vout, n + 1)[n := undo.txout])))
  }

  /** What is left after a spend is either empty or again a proper record. */
  lemma {:induction false} SpendKeepsLive(c: Coins, n: nat)
    requires Live(c) && c.IsAvailable(n)
    ensures var left := SpendOutput(c, n).value.0;
            if left.vout == [] then left.IsPruned() else Live(left) && !left.IsPruned()
  {
    var left := SpendOutput(c, n).value.0;
    if left.vout != [] {
      assert forall i | 0 <= i < |left.vout| :: left.vout[i] == c.vout[n := NULL_OUT][i];
      LiveIsNotPruned(left);
    }
  }

  /**
   * Restoring undoes spending, on every record: whether the output was the last one (so
   * the record vanished and only the undo data remembers its metadata), the last slot (so
   * trimming shortened the vector) or neither.
   */
  lemma {:induction false} RestoreAfterSpend(c: Coins, n: nat)
    requires Live(c) && c.IsAvailable(n)
    ensures var (left, undo) := SpendOutput(c, n).value;
            RestoreOutput(if left.vout == [] then NO_COINS else left, n, undo) == Some(c)
  {
    var (left, undo) := SpendOutput(c, n).value;
    var spent := c.vout[n := NULL_OUT];
    SpendKeepsLive(c, n);
    var stored := if left.vout == [] then NO_COINS else left;
    var base := if left.vout == [] then Coins(undo.coinBase, [], undo.height, undo.version) else left;
    assert (undo.height != 0) == stored.IsPruned();
    assert forall i | 0 <= i < |left.vout| :: left.vout[i] == spent[i];
    var grown := Extend(base.vout, n + 1)[n := undo.txout];
    forall i | 0 <= i < |grown|
      ensures i < |c.vout| ==> grown[i] == c.vout[i]
    {
      if |left.vout| <= i < |c.vout| && i != n {
        assert spent[i].IsNull();
      }
    }
    assert |grown| <= |c.vout|;
    assert n == |c.vout| - 1 || spent[|c.vout| - 1] == c.vout[|c.vout| - 1];
    assert grown == c.vout;
    TrimUnique(grown, c.vout);
  }
}
