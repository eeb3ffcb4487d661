/**
 * The UTXO set as one plain map from txid to unspent outputs, and what connecting and
 * disconnecting the transactions of a block do to it. The caches in CoinsCache are proved
 * to behave like this map; here it is proved that disconnecting undoes connecting.
 */
module UtxoSet {
  import opened Options
  import opened Coins

  /** A txid without unspent outputs has no entry. */
  type UtxoMap = map<Txid, Coins>

  ghost predicate Good(u: UtxoMap) {
    forall t | t in u :: Live(u[t])
  }

  /** The part of Good the caches rely on and keep even when they are fed corrupt undo data. */
  ghost predicate Proper(u: UtxoMap) {
    forall t | t in u :: Trimmed(u[t].vout) && u[t].vout != []
  }

  function Get(u: UtxoMap, t: Txid): Coins {
    if t in u then u[t] else NO_COINS
  }

  function Put(u: UtxoMap, t: Txid, c: Coins): UtxoMap {
    if c.IsPruned() then u - {t} else u[t := c]
  }

  predicate Available(u: UtxoMap, out: OutPoint) {
    Get(u, out.hash).IsAvailable(out.n)
  }

  // ---------- connecting ----------

  function SpendInput(u: UtxoMap, out: OutPoint): Option<(UtxoMap, TxInUndo)> {
    var (left, undo) :- SpendOutput(Get(u, out.hash), out.n);
    Some((Put(u, out.hash, left), undo))
  }

  /** Spend the outputs in order, collecting one undo record each; None if one is missing. */
  function SpendInputs(u: UtxoMap, vin: seq<OutPoint>): (r: Option<(UtxoMap, seq<TxInUndo>)>)
    ensures r.Some? ==> |r.value.1| == |vin|
  {
    if vin == [] then Some((u, []))
    else
      var (u1, undos) :- SpendInputs(u, vin[..|vin| - 1]);
      var (u2, undo) :- SpendInput(u1, vin[|vin| - 1]);
      Some((u2, undos + [undo]))
  }

  /** UpdateCoins; None where its assert would fire. */
  function UpdateCoins(u: UtxoMap, tx: Tx, height: int): (r: Option<(UtxoMap, seq<TxInUndo>)>)
    ensures r.Some? && !tx.IsCoinBase() ==> |r.value.1| == |tx.vin|
  {
    var (spent, undos) :- if tx.IsCoinBase() then Some((u, [])) else SpendInputs(u, tx.vin);
    Some((Put(spent, tx.hash, FromTx(tx, height)), undos))
  }

  /** The UpdateCoins loop of ConnectBlock; the first transaction leaves no undo record. */
  function ConnectTxs(u: UtxoMap, txs: seq<Tx>, height: int): (r: Option<(UtxoMap, seq<seq<TxInUndo>>)>)
    ensures r.Some? ==> |r.value.1| == if txs == [] then 0 else |txs| - 1
  {
    if txs == [] then Some((u, []))
    else
      var n := |txs| - 1;
      var (u1, undos) :- ConnectTxs(u, txs[..n], height);
      var (u2, undo) :- UpdateCoins(u1, txs[n], height);
      Some((u2, if n == 0 then undos else undos + [undo]))
  }

  // ---------- disconnecting ----------

  function RestoreInput(u: UtxoMap, out: OutPoint, undo: TxInUndo): Option<UtxoMap> {
    var c :- RestoreOutput(Get(u, out.hash), out.n, undo);
    Some(Put(u, out.hash, c))
  }

  /** Restore the inputs from the last to the first; None if a mismatch branch is taken. */
  function RestoreInputs(u: UtxoMap, vin: seq<OutPoint>, undos: seq<TxInUndo>): Option<UtxoMap>
    requires |vin| == |undos|
    decreases |vin|
  {
    if vin == [] then Some(u)
    else
      var n := |vin| - 1;
      var u1 :- RestoreInput(u, vin[n], undos[n]);
      RestoreInputs(u1, vin[..n], undos[..n])
  }

  /** The record DisconnectBlock compares with the block: the view's, made comparable. */
  function Comparable(c: Coins, fromBlock: Coins): Coins {
    Coins(c.coinBase, Trim(Spendable(c.vout)), c.height, if fromBlock.version < 0 then fromBlock.version else c.version)
  }

  function RemoveOutputs(u: UtxoMap, tx: Tx, height: int): Option<UtxoMap> {
    var fromBlock := FromTx(tx, height);
    if Comparable(Get(u, tx.hash), fromBlock).Same(fromBlock) then Some(u - {tx.hash}) else None
  }

  /** DisconnectBlock on one transaction other than the coinbase. */
  function UndoTx(u: UtxoMap, tx: Tx, undos: seq<TxInUndo>, height: int): Option<UtxoMap>
    requires |undos| == |tx.vin|
  {
    var u1 :- RemoveOutputs(u, tx, height);
    RestoreInputs(u1, tx.vin, undos)
  }

  /** DisconnectBlock finds as many undo records as there are inputs to restore. */
  predicate Consistent(txs: seq<Tx>, undos: seq<seq<TxInUndo>>) {
    |undos| + 1 == |txs| && forall i | 0 <= i < |undos| :: |undos[i]| == |txs[i + 1].vin|
  }

  /** DisconnectBlock; None if it would report the block as not cleanly undone. */
  function DisconnectTxs(u: UtxoMap, txs: seq<Tx>, undos: seq<seq<TxInUndo>>, height: int): Option<UtxoMap>
    requires Consistent(txs, undos)
    decreases |txs|
  {
    var n := |txs| - 1;
    if n == 0 then RemoveOutputs(u, txs[0], height)
    else
      var u1 :- UndoTx(u, txs[n], undos[n - 1], height);
      DisconnectTxs(u1, txs[..n], undos[..n - 1], height)
  }

  // ---------- disconnecting undoes connecting ----------

  lemma {:induction false} SpendInputKeepsGood(u: UtxoMap, out: OutPoint)
    requires Good(u) && SpendInput(u, out).Some?
    ensures Good(SpendInput(u, out).value.0)
  {
    SpendKeepsLive(u[out.hash], out.n);
  }

  lemma {:induction false} RestoreInputAfterSpend(u: UtxoMap, out: OutPoint)
    requires Good(u) && SpendInput(u, out).Some?
    ensures var (u', undo) := SpendInput(u, out).value; RestoreInput(u', out, undo) == Some(u)
  {
    var c := u[out.hash];
    SpendKeepsLive(c, out.n);
    RestoreAfterSpend(c, out.n);
    LiveIsNotPruned(c);
    var (u', undo) := SpendInput(u, out).value;
    assert u == Put(u', out.hash, c);
  }

  lemma {:induction false} RestoreInputsAfterSpends(u: UtxoMap, vin: seq<OutPoint>)
    requires Good(u) && SpendInputs(u, vin).Some?
    ensures var (u', undos) := SpendInputs(u, vin).value;
            Good(u') && RestoreInputs(u', vin, undos) == Some(u)
  {
    if vin != [] {
      var n := |vin| - 1;
      var (u1, undos1) := SpendInputs(u, vin[..n]).value;
      RestoreInputsAfterSpends(u, vin[..n]);
      SpendInputKeepsGood(u1, vin[n]);
      RestoreInputAfterSpend(u1, vin[n]);
      var undos := SpendInputs(u, vin).value.1;
      assert undos[..n] == undos1;
    }
  }

  /** Spending never brings a txid into the set. */
  lemma {:induction false} SpendInputsShrinksKeys(u: UtxoMap, vin: seq<OutPoint>)
    requires SpendInputs(u, vin).Some?
    ensures SpendInputs(u, vin).value.0.Keys <= u.Keys
  {
    if vin != [] {
      SpendInputsShrinksKeys(u, vin[..|vin| - 1]);
    }
  }

  lemma {:induction false} SpendableIsIdempotent(vout: seq<TxOut>)
    ensures Trim(Spendable(Trim(Spendable(vout)))) == Trim(Spendable(vout))
  {
    var t := Trim(Spendable(vout));
    assert Spendable(t) == t;
    TrimUnique(t, t);
  }

  lemma {:induction false} SpentStateIsGood(u: UtxoMap, tx: Tx)
    requires Good(u) && !tx.IsCoinBase() ==> SpendInputs(u, tx.vin).Some?
    requires Good(u)
    ensures Good(if tx.IsCoinBase() then u else SpendInputs(u, tx.vin).value.0)
  {
    if !tx.IsCoinBase() {
      RestoreInputsAfterSpends(u, tx.vin);
    }
  }

  lemma {:induction false} UpdateCoinsKeepsGood(u: UtxoMap, tx: Tx, height: int)
    requires Good(u) && height >= 1 && OutputsNonNegative(tx)
    requires UpdateCoins(u, tx, height).Some?
    ensures Good(UpdateCoins(u, tx, height).value.0)
  {
    FromTxIsLiveOrEmpty(tx, height);
    SpentStateIsGood(u, tx);
  }

  /** The outputs a transaction added are found unchanged and removed without a trace. */
  lemma {:induction false} RemoveAddedOutputs(spent: UtxoMap, tx: Tx, height: int)
    requires Good(spent) && height >= 1 && OutputsNonNegative(tx) && tx.hash !in spent
    ensures RemoveOutputs(Put(spent, tx.hash, FromTx(tx, height)), tx, height) == Some(spent)
  {
    var added := FromTx(tx, height);
    var u' := Put(spent, tx.hash, added);
    SpendableIsIdempotent(tx.vout);
    FromTxIsLiveOrEmpty(tx, height);
    if added.vout != [] {
      LiveIsNotPruned(added);
      assert Comparable(added, added) == added;
      assert u' - {tx.hash} == spent;
    } else {
      assert u' == spent;
      assert Spendable(NO_COINS.vout) == [];
    }
  }

  /** The outputs a transaction added are found unchanged and removed without a trace. */
  lemma {:induction false} RemoveOutputsAfterUpdate(u: UtxoMap, tx: Tx, height: int)
    requires Good(u) && height >= 1 && OutputsNonNegative(tx)
    requires UpdateCoins(u, tx, height).Some? && tx.hash !in u
    ensures var spent := if tx.IsCoinBase() then u else SpendInputs(u, tx.vin).value.0;
            RemoveOutputs(UpdateCoins(u, tx, height).value.0, tx, height) == Some(spent)
  {
    SpentStateIsGood(u, tx);
    if !tx.IsCoinBase() {
      SpendInputsShrinksKeys(u, tx.vin);
    }
    RemoveAddedOutputs(if tx.IsCoinBase() then u else SpendInputs(u, tx.vin).value.0, tx, height);
  }

  ghost predicate DistinctTxids(txs: seq<Tx>) {
    forall i, j | 0 <= i < j < |txs| :: txs[i].hash != txs[j].hash
  }

  ghost predicate OnlyFirstIsCoinBase(txs: seq<Tx>) {
    && |txs| > 0
    && txs[0].IsCoinBase()
    && forall i | 1 <= i < |txs| :: !txs[i].IsCoinBase()
  }

  /** BIP 30: no transaction of the block has unspent outputs before it. */
  ghost predicate NoneUnspent(u: UtxoMap, txs: seq<Tx>) {
    forall i | 0 <= i < |txs| :: txs[i].hash !in u
  }

  lemma {:induction false} ConnectTxsKeys(u: UtxoMap, txs: seq<Tx>, height: int)
    requires ConnectTxs(u, txs, height).Some?
    ensures forall t | t in ConnectTxs(u, txs, height).value.0 ::
              t in u || exists i :: 0 <= i < |txs| && txs[i].hash == t
  {
    if txs != [] {
      var n := |txs| - 1;
      ConnectTxsKeys(u, txs[..n], height);
      var (u1, _) := ConnectTxs(u, txs[..n], height).value;
      if !txs[n].IsCoinBase() {
        SpendInputsShrinksKeys(u1, txs[n].vin);
      }
      forall t | t in ConnectTxs(u, txs, height).value.0
        ensures t in u || exists i :: 0 <= i < |txs| && txs[i].hash == t
      {
        if t == txs[n].hash {
        } else if t !in u {
          var i :| 0 <= i < n && txs[..n][i].hash == t;
          assert txs[i].hash == t;
        }
      }
    }
  }

  lemma {:induction false} ConnectTxsKeepsGood(u: UtxoMap, txs: seq<Tx>, height: int)
    requires Good(u) && height >= 1 && forall i | 0 <= i < |txs| :: OutputsNonNegative(txs[i])
    requires ConnectTxs(u, txs, height).Some?
    ensures Good(ConnectTxs(u, txs, height).value.0)
  {
    if txs != [] {
      var n := |txs| - 1;
      ConnectTxsKeepsGood(u, txs[..n], height);
      UpdateCoinsKeepsGood(ConnectTxs(u, txs[..n], height).value.0, txs[n], height);
    }
  }

  ghost predicate BlockShape(u: UtxoMap, txs: seq<Tx>) {
    && OnlyFirstIsCoinBase(txs)
    && DistinctTxids(txs)
    && NoneUnspent(u, txs)
    && forall i | 0 <= i < |txs| :: OutputsNonNegative(txs[i])
  }

  lemma {:induction false} BlockShapePrefix(u: UtxoMap, txs: seq<Tx>)
    requires BlockShape(u, txs) && |txs| > 1
    ensures BlockShape(u, txs[..|txs| - 1])
  {
    var front := txs[..|txs| - 1];
    assert forall i | 0 <= i < |front| :: front[i] == txs[i];
  }

  /** The last transaction of a block brings no txid the set already has. */
  lemma {:induction false} LastTxidIsNew(u: UtxoMap, txs: seq<Tx>, height: int)
    requires BlockShape(u, txs)
    requires ConnectTxs(u, txs, height).Some?
    ensures txs[|txs| - 1].hash !in ConnectTxs(u, txs[..|txs| - 1], height).value.0
  {
    var n := |txs| - 1;
    ConnectTxsKeys(u, txs[..n], height);
    assert forall i | 0 <= i < n :: txs[..n][i] == txs[i];
  }

  /** Undoing a transaction other than the coinbase right after it was connected. */
  lemma {:induction false} UndoAfterUpdate(front: UtxoMap, tx: Tx, height: int)
    requires Good(front) && height >= 1 && OutputsNonNegative(tx) && !tx.IsCoinBase() && tx.hash !in front
    requires UpdateCoins(front, tx, height).Some?
    ensures var (after, undo) := UpdateCoins(front, tx, height).value;
            |undo| == |tx.vin| && UndoTx(after, tx, undo, height) == Some(front)
  {
    hide RemoveOutputs, RestoreInputs;
    RemoveOutputsAfterUpdate(front, tx, height);
    RestoreInputsAfterSpends(front, tx.vin);
  }

  /** Disconnecting the last transaction of several leads to disconnecting the others. */
  lemma {:induction false} DisconnectLast(u: UtxoMap, txs: seq<Tx>, height: int, front: UtxoMap,
                                          undos: seq<seq<TxInUndo>>)
    requires Good(front) && height >= 1 && |txs| > 1 && BlockShape(u, txs)
    requires var tx := txs[|txs| - 1];
             && tx.hash !in front
             && UpdateCoins(front, tx, height).Some?
    requires Consistent(txs[..|txs| - 1], undos)
    ensures var n := |txs| - 1;
            var (after, undo) := UpdateCoins(front, txs[n], height).value;
            && Consistent(txs, undos + [undo])
            && DisconnectTxs(after, txs, undos + [undo], height) == DisconnectTxs(front, txs[..n], undos, height)
  {
    hide UpdateCoins, UndoTx, Good;
    var n := |txs| - 1;
    UndoAfterUpdate(front, txs[n], height);
    var (after, undo) := UpdateCoins(front, txs[n], height).value;
    assert (undos + [undo])[..n - 1] == undos;
    assert forall i | 0 <= i < n - 1 :: |undos[i]| == |txs[..n][i + 1].vin|;
  }

  /**
   * Undoing a connected block restores the UTXO set exactly and takes none of the mismatch
   * branches, also when outputs are created and spent inside the block.
   */
  lemma {:induction false} DisconnectUndoesConnect(u: UtxoMap, txs: seq<Tx>, height: int)
    requires Good(u) && height >= 1 && BlockShape(u, txs)
    requires ConnectTxs(u, txs, height).Some?
    ensures var (u', undos) := ConnectTxs(u, txs, height).value;
            Consistent(txs, undos) && DisconnectTxs(u', txs, undos, height) == Some(u)
  {
    var n := |txs| - 1;
    LastTxidIsNew(u, txs, height);
    if n == 0 {
      RemoveOutputsAfterUpdate(u, txs[0], height);
    } else {
      BlockShapePrefix(u, txs);
      DisconnectUndoesConnect(u, txs[..n], height);
      ConnectTxsKeepsGood(u, txs[..n], height);
      var (u1, undos1) := ConnectTxs(u, txs[..n], height).value;
      DisconnectLast(u, txs, height, u1, undos1);
    }
  }

  // ---------- when the assert in UpdateCoins cannot fire ----------

  ghost predicate DistinctInputs(vin: seq<OutPoint>) {
    forall i, j | 0 <= i < j < |vin| :: vin[i] != vin[j]
  }

  ghost predicate HaveInputs(u: UtxoMap, vin: seq<OutPoint>) {
    forall i | 0 <= i < |vin| :: Available(u, vin[i])
  }

  /** Spending one output leaves exactly the other ones available. */
  lemma {:induction false} SpendInputAvailability(u: UtxoMap, out: OutPoint, other: OutPoint)
    requires SpendInput(u, out).Some?
    ensures Available(SpendInput(u, out).value.0, other) <==> Available(u, other) && other != out
  {
    var c := u[out.hash];
    var spent := c.vout[out.n := NULL_OUT];
    var left := SpendOutput(c, out.n).value.0;
    assert forall i | 0 <= i < |left.vout| :: left.vout[i] == spent[i];
    if other.hash == out.hash && other.n < |c.vout| && other.n >= |left.vout| {
      assert spent[other.n].IsNull();
    }
  }

  lemma {:induction false} SpendInputsAvailability(u: UtxoMap, vin: seq<OutPoint>, other: OutPoint)
    requires SpendInputs(u, vin).Some?
    ensures Available(SpendInputs(u, vin).value.0, other) <==> Available(u, other) && other !in vin
  {
    if vin != [] {
      var n := |vin| - 1;
      assert vin == vin[..n] + [vin[n]];
      SpendInputsAvailability(u, vin[..n], other);
      SpendInputAvailability(SpendInputs(u, vin[..n]).value.0, vin[n], other);
    }
  }

  lemma {:induction false} DistinctInputsSnoc(front: seq<OutPoint>, last: OutPoint)
    ensures DistinctInputs(front + [last]) <==> DistinctInputs(front) && last !in front
  {
    var vin := front + [last];
    if DistinctInputs(vin) {
      forall i, j | 0 <= i < j < |front|
        ensures front[i] != front[j]
      {
        assert vin[i] != vin[j];
      }
      forall i | 0 <= i < |front|
        ensures front[i] != last
      {
        assert vin[i] != vin[|front|];
      }
    }
  }

  lemma {:induction false} HaveInputsSnoc(u: UtxoMap, front: seq<OutPoint>, last: OutPoint)
    ensures HaveInputs(u, front + [last]) <==> HaveInputs(u, front) && Available(u, last)
  {
    var vin := front + [last];
    assert vin[|front|] == last;
    assert forall i | 0 <= i < |front| :: vin[i] == front[i];
  }

  /** The assert holds exactly when all inputs are available and none is listed twice. */
  lemma {:induction false} SpendsSucceedExactly(u: UtxoMap, vin: seq<OutPoint>)
    ensures SpendInputs(u, vin).Some? <==> HaveInputs(u, vin) && DistinctInputs(vin)
  {
    if vin != [] {
      var n := |vin| - 1;
      assert vin == vin[..n] + [vin[n]];
      DistinctInputsSnoc(vin[..n], vin[n]);
      HaveInputsSnoc(u, vin[..n], vin[n]);
      SpendsSucceedExactly(u, vin[..n]);
      if SpendInputs(u, vin[..n]).Some? {
        SpendInputsAvailability(u, vin[..n], vin[n]);
      }
    }
  }

  // ---------- an accepted block cannot contain one transaction twice ----------

  /** Collision-free hashing, for the transactions at hand. */
  ghost predicate TxidsIdentify(txs: seq<Tx>) {
    forall i, j | 0 <= i < |txs| && 0 <= j < |txs| && txs[i].hash == txs[j].hash :: txs[i] == txs[j]
  }

  /** An output that a transaction other than its creator spent stays unavailable. */
  lemma {:induction false} SpentStaysSpent(u: UtxoMap, txs: seq<Tx>, height: int, i: nat, out: OutPoint)
    requires ConnectTxs(u, txs, height).Some?
    requires i < |txs| && !txs[i].IsCoinBase() && out in txs[i].vin
    requires forall k | i <= k < |txs| :: txs[k].hash != out.hash
    ensures !Available(ConnectTxs(u, txs, height).value.0, out)
  {
    var n := |txs| - 1;
    var u1 := ConnectTxs(u, txs[..n], height).value.0;
    if i == n {
      SpendInputsAvailability(u1, txs[n].vin, out);
    } else {
      SpentStaysSpent(u, txs[..n], height, i, out);
      if !txs[n].IsCoinBase() {
        SpendInputsAvailability(u1, txs[n].vin, out);
      }
    }
  }

  /** What a block is known to satisfy when its transactions are connected. */
  ghost predicate Checked(u: UtxoMap, txs: seq<Tx>) {
    && (txs == [] || OnlyFirstIsCoinBase(txs))
    && NoneUnspent(u, txs)
    && TxidsIdentify(txs)
    && forall i | 0 <= i < |txs| :: txs[i].vin != []
  }

  lemma {:induction false} CheckedPrefix(u: UtxoMap, txs: seq<Tx>)
    requires Checked(u, txs) && |txs| > 1
    ensures Checked(u, txs[..|txs| - 1])
  {
    var front := txs[..|txs| - 1];
    assert forall i | 0 <= i < |front| :: front[i] == txs[i];
  }

  /** The step that connected the last transaction spent its inputs. */
  lemma {:induction false} ConnectLast(u: UtxoMap, txs: seq<Tx>, height: int)
    requires Checked(u, txs) && |txs| > 1 && ConnectTxs(u, txs, height).Some?
    ensures var n := |txs| - 1;
            && ConnectTxs(u, txs[..n], height).Some?
            && SpendInputs(ConnectTxs(u, txs[..n], height).value.0, txs[n].vin).Some?
  {}

  /**
   * BIP 30 is checked only against the set before the block, yet it is enough: a second copy
   * would have to spend its inputs again, and they could only come back by another second
   * copy earlier in the block.
   */
  lemma {:induction false} AcceptedTxidsAreDistinct(u: UtxoMap, txs: seq<Tx>, height: int)
    requires Checked(u, txs) && ConnectTxs(u, txs, height).Some?
    ensures DistinctTxids(txs)
    decreases |txs|
  {
    hide ConnectTxs, Checked, SpendInputs;
    if |txs| > 1 {
      CheckedPrefix(u, txs);
      ConnectLast(u, txs, height);
      AcceptedTxidsAreDistinct(u, txs[..|txs| - 1], height);
      assert txs == txs[..|txs| - 1] + [txs[|txs| - 1]];
      DistinctUpToLast(u, txs[..|txs| - 1], txs[|txs| - 1], height);
    }
  }

  lemma {:induction false} DistinctUpToLast(u: UtxoMap, front: seq<Tx>, last: Tx, height: int)
    requires front != [] && Checked(u, front + [last]) && DistinctTxids(front)
    requires ConnectTxs(u, front, height).Some?
    requires SpendInputs(ConnectTxs(u, front, height).value.0, last.vin).Some?
    ensures DistinctTxids(front + [last])
  {
    var txs := front + [last];
    assert txs[|front|] == last;
    assert forall i | 0 <= i < |front| :: front[i] == txs[i];
    LastIsNoSecondCopy(u, front, last, height);
    DistinctTxidsSnoc(front, last);
  }

  lemma {:induction false} DistinctTxidsSnoc(front: seq<Tx>, tx: Tx)
    requires DistinctTxids(front) && forall i | 0 <= i < |front| :: front[i].hash != tx.hash
    ensures DistinctTxids(front + [tx])
  {
    assert forall i | 0 <= i < |front| :: (front + [tx])[i] == front[i];
  }

  lemma {:induction false} LastIsNoSecondCopy(u: UtxoMap, front: seq<Tx>, tx: Tx, height: int)
    requires OnlyFirstIsCoinBase(front) && DistinctTxids(front) && NoneUnspent(u, front)
    requires !tx.IsCoinBase() && tx.vin != []
    requires ConnectTxs(u, front, height).Some?
    requires SpendInputs(ConnectTxs(u, front, height).value.0, tx.vin).Some?
    requires forall i | 0 <= i < |front| && front[i].hash == tx.hash :: front[i] == tx
    ensures forall i | 0 <= i < |front| :: front[i].hash != tx.hash
  {
    var out := tx.vin[0];
    SpendsSucceedExactly(ConnectTxs(u, front, height).value.0, tx.vin);
    forall i | 0 <= i < |front|
      ensures front[i].hash != tx.hash
    {
      if i > 0 && out in front[i].vin {
        SpentInputIsGone(u, front, height, i, out);
      }
    }
  }

  /** Nothing later in a block of distinct transactions brings a spent output back. */
  lemma {:induction false} SpentInputIsGone(u: UtxoMap, txs: seq<Tx>, height: int, i: nat, out: OutPoint)
    requires NoneUnspent(u, txs) && DistinctTxids(txs)
    requires i < |txs| && !txs[i].IsCoinBase() && out in txs[i].vin
    requires ConnectTxs(u, txs, height).Some?
    ensures !Available(ConnectTxs(u, txs, height).value.0, out)
  {
    var before := txs[..i];
    ConnectPrefix(u, txs, height, i);
    assert txs[..i + 1][..i] == before;
    SpendsSucceedExactly(ConnectTxs(u, before, height).value.0, txs[i].vin);
    ConnectTxsKeys(u, before, height);
    forall k | i <= k < |txs|
      ensures txs[k].hash != out.hash
    {
      assert txs[k].hash !in u;
      if out.hash !in u {
        var m :| 0 <= m < i && before[m].hash == out.hash;
        assert txs[m].hash != txs[k].hash;
      }
    }
    SpentStaysSpent(u, txs, height, i, out);
  }

  /** A block that connects also connects up to any of its transactions. */
  lemma {:induction false} ConnectPrefix(u: UtxoMap, txs: seq<Tx>, height: int, i: nat)
    requires ConnectTxs(u, txs, height).Some? && i < |txs|
    ensures ConnectTxs(u, txs[..i + 1], height).Some? && ConnectTxs(u, txs[..i], height).Some?
  {
    var n := |txs| - 1;
    if i < n {
      ConnectPrefix(u, txs[..n], height, i);
      assert txs[..n][..i + 1] == txs[..i + 1] && txs[..n][..i] == txs[..i];
    } else {
      assert txs[..i + 1] == txs;
    }
  }
}
