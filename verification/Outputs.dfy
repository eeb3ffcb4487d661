/**
 * The coin set seen output by output: which outputs are unspent, and what is known of each. The
 * source groups them by transaction and cuts the groups; here it is proved what connecting and
 * disconnecting do to the single output, and so when an output can be spent.
 */
module Outputs {
  import opened Options
  import opened Coins
  import opened UtxoSet
  import opened BlockRules

  /** An unspent output: its value and script, and what transaction it is from. */
  datatype Entry = Entry(txout: TxOut, coinBase: bool, height: int, version: int)

  function Slot(c: Coins, n: nat): Option<Entry> {
    if n < |c.vout| && c.vout[n].value != -1 then Some(Entry(c.vout[n], c.coinBase, c.height, c.version)) else None
  }

  function EntryAt(u: UtxoMap, out: OutPoint): Option<Entry> {
    if out.hash in u then Slot(u[out.hash], out.n) else None
  }

  /** What the n-th output of a transaction becomes; one that starts with OP_RETURN is never kept. */
  function Made(tx: Tx, n: nat, height: int): Option<Entry> {
    if n < |tx.vout| && tx.vout[n].value != -1 && !(|tx.vout[n].script| > 0 && tx.vout[n].script[0] == 0x6a) then
      Some(Entry(tx.vout[n], |tx.vin| == 1 && tx.vin[0] == OutPoint(0, 0xFFFF_FFFF), height, tx.version))
    else None
  }

  // ---------- connecting ----------

  lemma {:induction false} SpendInputEntries(u: UtxoMap, out: OutPoint, o: OutPoint)
    requires SpendInput(u, out).Some?
    ensures EntryAt(SpendInput(u, out).value.0, o) == if o == out then None else EntryAt(u, o)
  {
    SpendInputAvailability(u, out, o);
    var c := u[out.hash];
    var left := SpendOutput(c, out.n).value.0;
    assert forall i | 0 <= i < |left.vout| :: left.vout[i] == c.vout[out.n := NULL_OUT][i];
  }

  lemma {:induction false} SpendInputsEntries(u: UtxoMap, vin: seq<OutPoint>, o: OutPoint)
    requires SpendInputs(u, vin).Some?
    ensures EntryAt(SpendInputs(u, vin).value.0, o) == if o in vin then None else EntryAt(u, o)
  {
    if vin != [] {
      var n := |vin| - 1;
      assert vin == vin[..n] + [vin[n]];
      SpendInputsEntries(u, vin[..n], o);
      SpendInputEntries(SpendInputs(u, vin[..n]).value.0, vin[n], o);
    }
  }

  /**
   * The undo record of a spend: the output, and what is known of its transaction if nothing else of that
   * is left. Else that is not recorded.
   */
  lemma {:induction false} UndoExactly(u: UtxoMap, out: OutPoint)
    requires SpendInput(u, out).Some?
    ensures EntryAt(u, out).Some?
    ensures var e, undo := EntryAt(u, out).value, SpendInput(u, out).value.1;
            undo == if exists n: nat :: n != out.n && EntryAt(u, OutPoint(out.hash, n)).Some?
                    then TxInUndo(e.txout, false, 0, 0) else TxInUndo(e.txout, e.coinBase, e.height, e.version)
  {
    hide Trim;
    var c := u[out.hash];
    var spent := c.vout[out.n := NULL_OUT];
    var t := Trim(spent);
    if t != [] {
      var n := |t| - 1;
      assert !t[n].IsNull() && t[n] == spent[n];
      assert EntryAt(u, OutPoint(out.hash, n)) == Slot(c, n);
    }
    forall n: nat | n != out.n && EntryAt(u, OutPoint(out.hash, n)).Some?
      ensures n < |t|
    {
      assert spent[n] == c.vout[n];
    }
  }

  lemma {:induction false} SpendableSlot(vout: seq<TxOut>, n: nat)
    ensures var t := Trim(Spendable(vout));
            if n < |vout| && !vout[n].IsUnspendable() && !vout[n].IsNull() then n < |t| && t[n] == vout[n]
            else n < |t| ==> t[n].IsNull()
    ensures Trimmed(Trim(Spendable(vout)))
    ensures Canonical(vout) ==> Canonical(Trim(Spendable(vout)))
  {
    var s := Spendable(vout);
    var t := Trim(s);
    assert forall i | 0 <= i < |t| :: t[i] == s[i];
  }

  lemma {:induction false} PutSlot(u: UtxoMap, t: Txid, c: Coins, o: OutPoint)
    ensures EntryAt(Put(u, t, c), o) == if o.hash == t then Slot(c, o.n) else EntryAt(u, o)
  {}

  lemma {:induction false} AddedEntries(spent: UtxoMap, tx: Tx, height: int, o: OutPoint)
    ensures EntryAt(Put(spent, tx.hash, FromTx(tx, height)), o) ==
            if o.hash == tx.hash then Made(tx, o.n, height) else EntryAt(spent, o)
  {
    SpendableSlot(tx.vout, o.n);
    PutSlot(spent, tx.hash, FromTx(tx, height), o);
  }

  /**
   * What UpdateCoins does: the inputs are gone, the outputs of the transaction are there, with its
   * height, its version and whether it is a coinbase; every other output stays as it was.
   */
  lemma {:induction false} UpdateEntries(u: UtxoMap, tx: Tx, height: int, o: OutPoint)
    requires UpdateCoins(u, tx, height).Some?
    ensures EntryAt(UpdateCoins(u, tx, height).value.0, o) ==
            if o.hash == tx.hash then Made(tx, o.n, height)
            else if o in tx.vin && !tx.IsCoinBase() then None
            else EntryAt(u, o)
  {
    hide FromTx, EntryAt, Made;
    if !tx.IsCoinBase() {
      SpendInputsEntries(u, tx.vin, o);
    }
    AddedEntries(if tx.IsCoinBase() then u else SpendInputs(u, tx.vin).value.0, tx, height, o);
  }

  // ---------- disconnecting ----------

  ghost predicate Known(u: UtxoMap, t: Txid) {
    exists n: nat :: EntryAt(u, OutPoint(t, n)).Some?
  }

  lemma {:induction false} KnownUnlessPruned(u: UtxoMap, t: Txid)
    ensures Known(u, t) <==> !Get(u, t).IsPruned()
  {
    if !Get(u, t).IsPruned() {
      var i :| 0 <= i < |u[t].vout| && !u[t].vout[i].IsNull();
      assert EntryAt(u, OutPoint(t, i)).Some?;
    }
  }

  /** Restoring an output of a record shows the output, and the others as before. */
  lemma {:induction false} RestoredSlot(c: Coins, n: nat, undo: TxInUndo, k: nat)
    requires RestoreOutput(c, n, undo).Some?
    ensures Slot(RestoreOutput(c, n, undo).value, k) ==
            if k != n then Slot(c, k)
            else if undo.txout.value == -1 then None
            else if undo.height != 0 then Some(Entry(undo.txout, undo.coinBase, undo.height, undo.version))
            else Some(Entry(undo.txout, c.coinBase, c.height, c.version))
  {
    var base := if undo.height != 0 then Coins(undo.coinBase, [], undo.height, undo.version) else c;
    var grown := Extend(base.vout, n + 1)[n := undo.txout];
    var t := Trim(grown);
    assert k < |t| ==> t[k] == grown[k];
    assert |t| <= k < |grown| ==> grown[k].IsNull();
    assert k < |base.vout| && k != n ==> grown[k] == base.vout[k];
    if undo.height != 0 && k < |c.vout| {
      assert c.vout[k].IsNull();
    }
  }

  /** What an input restored from an undo record becomes. */
  ghost function Restored(u: UtxoMap, out: OutPoint, undo: TxInUndo): Option<Entry>
    requires undo.height == 0 ==> out.hash in u
  {
    if undo.txout.value == -1 then None
    else if undo.height != 0 then Some(Entry(undo.txout, undo.coinBase, undo.height, undo.version))
    else Some(Entry(undo.txout, u[out.hash].coinBase, u[out.hash].height, u[out.hash].version))
  }

  /**
   * Restoring an input, with any undo record, true or not. It is taken for clean exactly if the output
   * is not there and the record has the metadata exactly when nothing else of its transaction is there.
   */
  lemma {:induction false} RestoreEntries(u: UtxoMap, out: OutPoint, undo: TxInUndo, o: OutPoint)
    ensures RestoreInput(u, out, undo).Some? <==>
            EntryAt(u, out) == None && (undo.height != 0 <==> !Known(u, out.hash))
    ensures RestoreInput(u, out, undo).Some? ==>
              && (undo.height == 0 ==> out.hash in u)
              && EntryAt(RestoreInput(u, out, undo).value, o) ==
                 if o == out then Restored(u, out, undo) else EntryAt(u, o)
  {
    hide Known;
    KnownUnlessPruned(u, out.hash);
    var c := Get(u, out.hash);
    RestoreExactly(c, out.n, undo);
    if RestoreInput(u, out, undo).Some? {
      RestoredSlot(c, out.n, undo, o.n);
      PutSlot(u, out.hash, RestoreOutput(c, out.n, undo).value, o);
    }
  }

  lemma {:induction false} RestoreExactly(c: Coins, n: nat, undo: TxInUndo)
    ensures RestoreOutput(c, n, undo).Some? <==> Slot(c, n) == None && (undo.height != 0 <==> c.IsPruned())
  {}

  /** An entry as DisconnectBlock compares it: without OP_RETURN outputs and negative versions. */
  function Compared(e: Option<Entry>, version: int): Option<Entry> {
    match e
    case None => None
    case Some(x) =>
      if |x.txout.script| > 0 && x.txout.script[0] == 0x6a then None
      else if version < 0 then Some(x.(version := version)) else e
  }

  /** Trimmed canonical records are equal to DisconnectBlock exactly if they show the same outputs. */
  lemma {:induction false} SameSlots(c: Coins, d: Coins)
    requires Trimmed(c.vout) && Canonical(c.vout) && Trimmed(d.vout) && Canonical(d.vout)
    ensures c.Same(d) <==> forall n: nat :: Slot(c, n) == Slot(d, n)
  {
    if forall n: nat :: Slot(c, n) == Slot(d, n) {
      forall i: nat
        ensures i < |c.vout| && !c.vout[i].IsNull() ==> i < |d.vout| && c == d.(vout := c.vout)
        ensures i < |d.vout| && !d.vout[i].IsNull() ==> i < |c.vout|
        ensures i < |c.vout| && i < |d.vout| ==> c.vout[i] == d.vout[i]
      {
        assert Slot(c, i) == Slot(d, i);
      }
      assert |c.vout| == |d.vout|;
      assert c.vout == d.vout;
    }
  }

  lemma {:induction false} ComparedSlot(c: Coins, fromBlock: Coins, n: nat)
    ensures Slot(Comparable(c, fromBlock), n) == Compared(Slot(c, n), fromBlock.version)
  {
    SpendableSlot(c.vout, n);
  }

  /**
   * Removing the outputs of a transaction is taken for clean exactly if they are there as the
   * transaction makes them, all unspent.
   */
  lemma {:induction false} RemoveEntries(u: UtxoMap, tx: Tx, height: int, o: OutPoint)
    requires Good(u) && OutputsNonNegative(tx)
    ensures RemoveOutputs(u, tx, height).Some? <==>
            forall n: nat :: Compared(EntryAt(u, OutPoint(tx.hash, n)), tx.version) == Made(tx, n, height)
    ensures RemoveOutputs(u, tx, height).Some? ==>
              EntryAt(RemoveOutputs(u, tx, height).value, o) == if o.hash == tx.hash then None else EntryAt(u, o)
  {
    hide Coins.Same, FromTx, Comparable, Compared, Made, Slot;
    var block := FromTx(tx, height);
    var c := Comparable(Get(u, tx.hash), block);
    forall n: nat
      ensures (Slot(c, n) == Slot(block, n)) <==>
              Compared(EntryAt(u, OutPoint(tx.hash, n)), tx.version) == Made(tx, n, height)
    {
      RemoveSlot(u, tx, height, n);
    }
    ComparableParts(u, tx, height);
    SameSlots(c, block);
  }

  lemma {:induction false} RemoveSlot(u: UtxoMap, tx: Tx, height: int, n: nat)
    ensures var block := FromTx(tx, height);
            && Slot(block, n) == Made(tx, n, height)
            && Slot(Comparable(Get(u, tx.hash), block), n) == Compared(EntryAt(u, OutPoint(tx.hash, n)), tx.version)
  {
    SpendableSlot(tx.vout, n);
    ComparedSlot(Get(u, tx.hash), FromTx(tx, height), n);
  }

  lemma {:induction false} ComparableParts(u: UtxoMap, tx: Tx, height: int)
    requires Good(u) && OutputsNonNegative(tx)
    ensures var block := FromTx(tx, height);
            var c := Comparable(Get(u, tx.hash), block);
            Trimmed(c.vout) && Canonical(c.vout) && Trimmed(block.vout) && Canonical(block.vout)
  {
    SpendableSlot(Get(u, tx.hash).vout, 0);
    SpendableSlot(tx.vout, 0);
  }

  // ---------- which transactions may be connected ----------

  /** An output that a block at this height may spend; a coinbase must be 100 blocks deep. */
  ghost predicate Ripe(u: UtxoMap, o: OutPoint, height: int) {
    var e := EntryAt(u, o);
    e.Some? && e.value.txout.value >= 0 && (e.value.coinBase ==> e.value.height + 100 <= height)
  }

  ghost function Worth(u: UtxoMap, vin: seq<OutPoint>): int {
    if vin == [] then 0
    else
      Worth(u, vin[..|vin| - 1]) + match EntryAt(u, vin[|vin| - 1]) case None => 0 case Some(e) => e.txout.value
  }

  lemma {:induction false} WorthIsValueIn(u: UtxoMap, vin: seq<OutPoint>)
    ensures Worth(u, vin) == ValueIn(u, vin)
  {
    if vin != [] {
      WorthIsValueIn(u, vin[..|vin| - 1]);
    }
  }

  /** What CheckInputs asks for, and then UpdateCoins cannot fail. */
  lemma {:induction false} SpendableExactly(u: UtxoMap, tx: Tx, height: int)
    ensures InputsOk(u, tx, height) <==>
            (forall i | 0 <= i < |tx.vin| :: Ripe(u, tx.vin[i], height))
            && ValueOut(tx.vout) <= Worth(u, tx.vin) <= 100 * 100_000_000 * 100_000_000
  {
    hide ValueIn, ValueOut, Worth;
    WorthIsValueIn(u, tx.vin);
    forall i | 0 <= i < |tx.vin|
      ensures MaySpend(u, tx.vin[i], height) <==> Ripe(u, tx.vin[i], height)
    {}
  }

  // ---------- an immature coinbase ----------

  /** A coinbase output less than 100 blocks deep. */
  ghost predicate Unripe(u: UtxoMap, o: OutPoint, height: int) {
    var e := EntryAt(u, o);
    e.Some? && e.value.coinBase && height < e.value.height + 100
  }

  lemma {:induction false} UnripeStays(p: Progress, tx: Tx, n: nat, height: int, o: OutPoint)
    requires ConnectNext(p, tx, n, height).Some? && Unripe(p.u, o, height) && o.hash != tx.hash
    ensures !tx.IsCoinBase() ==> o !in tx.vin
    ensures EntryAt(ConnectNext(p, tx, n, height).value.u, o) == EntryAt(p.u, o)
  {
    hide UpdateCoins, ValueIn, ValueOut, Worth, EntryAt;
    UpdateEntries(p.u, tx, height, o);
    SpendableExactly(p.u, tx, height);
  }

  /** While such an output is there, no transaction of a block that is accepted spends it. */
  lemma {:induction false} NoneSpendsUnripe(u: UtxoMap, txs: seq<Tx>, height: int, j: nat, o: OutPoint)
    requires ConnectChecked(u, txs, height).Some? && j <= |txs| && ConnectChecked(u, txs[..j], height).Some?
    requires Unripe(ConnectChecked(u, txs[..j], height).value.u, o, height)
    requires forall i | j <= i < |txs| :: txs[i].hash != o.hash
    ensures EntryAt(ConnectChecked(u, txs, height).value.u, o) ==
            EntryAt(ConnectChecked(u, txs[..j], height).value.u, o)
    ensures forall i | j <= i < |txs| && !txs[i].IsCoinBase() :: o !in txs[i].vin
    decreases |txs|
  {
    hide ConnectNext, EntryAt;
    if j == |txs| {
      assert txs[..j] == txs;
    } else {
      var n := |txs| - 1;
      assert txs[..n][..j] == txs[..j];
      NoneSpendsUnripe(u, txs[..n], height, j, o);
      UnripeStays(ConnectChecked(u, txs[..n], height).value, txs[n], n, height, o);
      forall i | j <= i < |txs| && !txs[i].IsCoinBase()
        ensures o !in txs[i].vin
      {
        if i < n {
          assert txs[..n][i] == txs[i];
        }
      }
    }
  }
}
