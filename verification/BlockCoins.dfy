/**
 * The coin work of connecting and disconnecting one block, done through a cache layer: each
 * method is tied to the function of the plain UTXO map that says what it does.
 */
module BlockCoins {
  import opened Options
  import opened Coins
  import opened UtxoSet
  import opened CoinsCache

  /** Spend one output through a modifiable reference; the assert that it succeeds holds. */
  method SpendOne(view: CoinsViewCache, out: OutPoint) returns (undo: TxInUndo)
    requires view.Valid() && !view.hasModifier
    requires SpendInput(view.Utxo(), out).Some?
    modifies view`cacheCoins, view`hasModifier, view.lower`cacheCoins
    ensures view.Valid() && !view.hasModifier && view.Beneath() == old(view.Beneath())
    ensures SpendInput(old(view.Utxo()), out) == Some((view.Utxo(), undo))
  {
    hide CoinsViewCache.Valid, CoinsViewCache.Utxo, CoinsViewCache.Beneath;
    var coins := view.ModifyCoins(out.hash);
    var ok, left;
    ok, left, undo := Spend(coins, out.n);
    assert ok;
    TrimUnique(left.vout, left.vout);
    view.ReleaseModifier(out.hash, left);
  }

  /** UpdateCoins: spend the inputs, keeping undo records, and add the outputs. */
  method UpdateView(tx: Tx, view: CoinsViewCache, height: int) returns (txundo: seq<TxInUndo>)
    requires view.Valid() && !view.hasModifier
    requires UpdateCoins(view.Utxo(), tx, height).Some?
    modifies view`cacheCoins, view`hasModifier, view.lower`cacheCoins
    ensures view.Valid() && !view.hasModifier && view.Beneath() == old(view.Beneath())
    ensures UpdateCoins(old(view.Utxo()), tx, height) == Some((view.Utxo(), txundo))
  {
    hide CoinsViewCache.Valid, CoinsViewCache.Utxo, CoinsViewCache.Beneath;
    txundo := [];
    if !tx.IsCoinBase() {
      txundo := SpendAll(tx.vin, view);
    }
    var coins := view.ModifyCoins(tx.hash);
    var vout := ClearUnspendable(tx.vout);
    coins := Coins(tx.IsCoinBase(), vout, height, tx.version);
    TrimUnique(vout, vout);
    view.ReleaseModifier(tx.hash, coins);
  }

  /** The loop of UpdateCoins over the inputs. */
  method SpendAll(vin: seq<OutPoint>, view: CoinsViewCache) returns (txundo: seq<TxInUndo>)
    requires view.Valid() && !view.hasModifier
    requires SpendInputs(view.Utxo(), vin).Some?
    modifies view`cacheCoins, view`hasModifier, view.lower`cacheCoins
    ensures view.Valid() && !view.hasModifier && view.Beneath() == old(view.Beneath())
    ensures SpendInputs(old(view.Utxo()), vin) == Some((view.Utxo(), txundo))
  {
    ghost var u := view.Utxo();
    hide CoinsViewCache.Valid, CoinsViewCache.Utxo, CoinsViewCache.Beneath;
    txundo := [];
    for i := 0 to |vin|
      invariant view.Valid() && !view.hasModifier && view.Beneath() == old(view.Beneath())
      invariant SpendInputs(u, vin[..i]) == Some((view.Utxo(), txundo))
    {
      SpendUpTo(u, vin, i);
      var undo := SpendOne(view, vin[i]);
      txundo := txundo + [undo];
    }
    assert vin[..|vin|] == vin;
  }

  /** If all spends succeed then so does the next one after the first i. */
  lemma {:induction false} SpendUpTo(u: UtxoMap, vin: seq<OutPoint>, i: nat)
    requires SpendInputs(u, vin).Some? && i < |vin|
    ensures SpendInputs(u, vin[..i]).Some?
    ensures SpendInput(SpendInputs(u, vin[..i]).value.0, vin[i]).Some?
    ensures var (u1, undos) := SpendInputs(u, vin[..i]).value;
            var (u2, undo) := SpendInput(u1, vin[i]).value;
            SpendInputs(u, vin[..i + 1]) == Some((u2, undos + [undo]))
  {
    SpendPrefix(u, vin, i + 1);
    assert vin[..i + 1][..i] == vin[..i];
  }

  lemma {:induction false} SpendPrefix(u: UtxoMap, vin: seq<OutPoint>, i: nat)
    requires SpendInputs(u, vin).Some? && i <= |vin|
    ensures SpendInputs(u, vin[..i]).Some?
    decreases |vin|
  {
    if i < |vin| {
      SpendPrefix(u, vin[..|vin| - 1], i);
      assert vin[..|vin| - 1][..i] == vin[..i];
    } else {
      assert vin[..i] == vin;
    }
  }

  /**
   * The output half of DisconnectBlock for one transaction: compare what the view has with
   * what the block added, then remove it either way.
   */
  method RemoveTx(view: CoinsViewCache, tx: Tx, height: int) returns (clean: bool)
    requires view.Valid() && !view.hasModifier
    modifies view`cacheCoins, view`hasModifier, view.lower`cacheCoins
    ensures view.Valid() && !view.hasModifier && view.Beneath() == old(view.Beneath())
    ensures clean == RemoveOutputs(old(view.Utxo()), tx, height).Some?
    ensures view.Utxo() == old(view.Utxo()) - {tx.hash}
  {
    hide CoinsViewCache.Valid, CoinsViewCache.Utxo, CoinsViewCache.Beneath;
    var outs := view.ModifyCoins(tx.hash);
    var vout := ClearUnspendable(outs.vout);
    outs := outs.(vout := vout);
    var blockVout := ClearUnspendable(tx.vout);
    var outsBlock := Coins(tx.IsCoinBase(), blockVout, height, tx.version);
    if outsBlock.version < 0 {
      outs := outs.(version := outsBlock.version);
    }
    clean := outs.Same(outsBlock);
    ghost var stored := view.cacheCoins[tx.hash].coins;
    ComparableEmpty(stored, outsBlock);
    TrimUnique([], []);
    view.ReleaseModifier(tx.hash, NO_COINS);
  }

  /** A record without outputs compares like no record at all. */
  lemma {:induction false} ComparableEmpty(c: Coins, fromBlock: Coins)
    requires Trimmed(c.vout)
    ensures c.IsPruned() ==> Comparable(c, fromBlock).Same(fromBlock) == Comparable(NO_COINS, fromBlock).Same(fromBlock)
  {
    TrimmedPruned(c);
    if c.vout == [] {
      assert Spendable(c.vout) == [];
      assert Spendable(NO_COINS.vout) == [];
    }
  }

  /** The input half of DisconnectBlock for one input. */
  method RestoreOne(view: CoinsViewCache, out: OutPoint, undo: TxInUndo) returns (clean: bool)
    requires view.Valid() && !view.hasModifier
    modifies view`cacheCoins, view`hasModifier, view.lower`cacheCoins
    ensures view.Valid() && !view.hasModifier && view.Beneath() == old(view.Beneath())
    ensures clean == RestoreInput(old(view.Utxo()), out, undo).Some?
    ensures clean ==> Some(view.Utxo()) == RestoreInput(old(view.Utxo()), out, undo)
  {
    hide CoinsViewCache.Valid, CoinsViewCache.Utxo, CoinsViewCache.Beneath;
    clean := true;
    var coins := view.ModifyCoins(out.hash);
    if undo.height != 0 {
      if !coins.IsPruned() {
        clean := false;
      }
      coins := Coins(undo.coinBase, [], undo.height, undo.version);
    } else if coins.IsPruned() {
      clean := false;
    }
    if coins.IsAvailable(out.n) {
      clean := false;
    }
    var vout := coins.vout;
    if |vout| < out.n + 1 {
      vout := Extend(vout, out.n + 1);
    }
    vout := vout[out.n := undo.txout];
    view.ReleaseModifier(out.hash, coins.(vout := vout));
  }

  /** The loop of DisconnectBlock over the inputs of one transaction, last input first. */
  method RestoreAll(view: CoinsViewCache, vin: seq<OutPoint>, undos: seq<TxInUndo>) returns (clean: bool)
    requires view.Valid() && !view.hasModifier && |vin| == |undos|
    modifies view`cacheCoins, view`hasModifier, view.lower`cacheCoins
    ensures view.Valid() && !view.hasModifier && view.Beneath() == old(view.Beneath())
    ensures clean == RestoreInputs(old(view.Utxo()), vin, undos).Some?
    ensures clean ==> RestoreInputs(old(view.Utxo()), vin, undos) == Some(view.Utxo())
  {
    ghost var u := view.Utxo();
    hide CoinsViewCache.Valid, CoinsViewCache.Utxo, CoinsViewCache.Beneath;
    clean := true;
    var j := |vin|;
    assert vin[..j] == vin && undos[..j] == undos;
    while j > 0
      invariant 0 <= j <= |vin|
      invariant view.Valid() && !view.hasModifier && view.Beneath() == old(view.Beneath())
      invariant clean ==> RestoreInputs(u, vin, undos) == RestoreInputs(view.Utxo(), vin[..j], undos[..j])
      invariant !clean ==> RestoreInputs(u, vin, undos).None?
    {
      j := j - 1;
      RestoreUnfold(view.Utxo(), vin, undos, j);
      var same := RestoreOne(view, vin[j], undos[j]);
      clean := clean && same;
    }
  }

  lemma {:induction false} RestoreUnfold(u: UtxoMap, vin: seq<OutPoint>, undos: seq<TxInUndo>, j: nat)
    requires j < |vin| == |undos|
    ensures RestoreInputs(u, vin[..j + 1], undos[..j + 1]) ==
            match RestoreInput(u, vin[j], undos[j]) {
              case None => None
              case Some(u1) => RestoreInputs(u1, vin[..j], undos[..j])
            }
  {
    assert vin[..j + 1][..j] == vin[..j] && undos[..j + 1][..j] == undos[..j];
  }

  /**
   * DisconnectBlock, given the undo data read back for the block. `ok` is false where it
   * returns an error; `clean` is what it stores through pfClean, or returns without it.
   */
  method DisconnectBlock(txs: seq<Tx>, vtxundo: seq<seq<TxInUndo>>, height: int, hash: BlockHash, prev: BlockHash,
                         view: CoinsViewCache)
    returns (ok: bool, clean: bool)
    requires view.Valid() && !view.hasModifier && txs != []
    requires view.Best() == hash
    modifies view`cacheCoins, view`hasModifier, view`hashBlock, view.lower`cacheCoins
    ensures view.Valid() && !view.hasModifier && view.Beneath() == old(view.Beneath())
    ensures ok == Consistent(txs, vtxundo)
    ensures ok ==> clean == DisconnectTxs(old(view.Utxo()), txs, vtxundo, height).Some?
    ensures ok && clean ==> DisconnectTxs(old(view.Utxo()), txs, vtxundo, height) == Some(view.Utxo())
    ensures ok ==> view.hashBlock == prev
  {
    hide CoinsViewCache.Valid, CoinsViewCache.Utxo, CoinsViewCache.Beneath;
    if |vtxundo| + 1 != |txs| {
      return false, false;
    }
    ok, clean := UndoAll(txs, vtxundo, height, view);
    if ok {
      view.SetBestBlock(prev);
    }
  }

  /** Both halves, for a transaction other than the coinbase. */
  method UndoOne(view: CoinsViewCache, tx: Tx, undos: seq<TxInUndo>, height: int) returns (clean: bool)
    requires view.Valid() && !view.hasModifier && |undos| == |tx.vin|
    modifies view`cacheCoins, view`hasModifier, view.lower`cacheCoins
    ensures view.Valid() && !view.hasModifier && view.Beneath() == old(view.Beneath())
    ensures clean == UndoTx(old(view.Utxo()), tx, undos, height).Some?
    ensures clean ==> UndoTx(old(view.Utxo()), tx, undos, height) == Some(view.Utxo())
  {
    hide CoinsViewCache.Valid, CoinsViewCache.Utxo, CoinsViewCache.Beneath;
    var same := RemoveTx(view, tx, height);
    clean := RestoreAll(view, tx.vin, undos);
    clean := clean && same;
  }

  /** Undo records match the inputs of the transactions from the i-th on. */
  ghost predicate ConsistentFrom(txs: seq<Tx>, undos: seq<seq<TxInUndo>>, i: nat) {
    |undos| + 1 == |txs| && forall k | i <= k < |undos| :: |undos[k]| == |txs[k + 1].vin|
  }

  /** The loop of DisconnectBlock over the transactions, last one first. */
  method UndoAll(txs: seq<Tx>, vtxundo: seq<seq<TxInUndo>>, height: int, view: CoinsViewCache)
    returns (ok: bool, clean: bool)
    requires view.Valid() && !view.hasModifier && |vtxundo| + 1 == |txs|
    modifies view`cacheCoins, view`hasModifier, view.lower`cacheCoins
    ensures view.Valid() && !view.hasModifier && view.Beneath() == old(view.Beneath())
    ensures ok == Consistent(txs, vtxundo)
    ensures ok ==> clean == DisconnectTxs(old(view.Utxo()), txs, vtxundo, height).Some?
    ensures ok && clean ==> DisconnectTxs(old(view.Utxo()), txs, vtxundo, height) == Some(view.Utxo())
  {
    hide RemoveOutputs, RestoreInputs, UndoTx, DisconnectTxs;
    ghost var u := view.Utxo();
    hide CoinsViewCache.Valid, CoinsViewCache.Utxo, CoinsViewCache.Beneath;
    clean := true;
    ghost var target := if Consistent(txs, vtxundo) then DisconnectTxs(u, txs, vtxundo, height) else None;
    var i := |txs| - 1;
    assert txs[..i + 1] == txs && vtxundo[..i] == vtxundo;
    while i > 0
      invariant 0 <= i < |txs|
      invariant view.Valid() && !view.hasModifier && view.Beneath() == old(view.Beneath())
      invariant ConsistentFrom(txs, vtxundo, i)
      invariant Consistent(txs, vtxundo) && clean ==>
          DisconnectTxs(view.Utxo(), txs[..i + 1], vtxundo[..i], height) == target
      invariant Consistent(txs, vtxundo) && !clean ==> target == None
    {
      if |vtxundo[i - 1]| != |txs[i].vin| {
        var _ := RemoveTx(view, txs[i], height);
        return false, false;
      }
      DisconnectUnfold(view.Utxo(), txs, vtxundo, height, i);
      var same := UndoOne(view, txs[i], vtxundo[i - 1], height);
      clean := clean && same;
      i := i - 1;
    }
    ok := true;
    DisconnectFirst(view.Utxo(), txs, vtxundo, height);
    var same := RemoveTx(view, txs[0], height);
    clean := clean && same;
  }

  lemma {:induction false} DisconnectFirst(u: UtxoMap, txs: seq<Tx>, undos: seq<seq<TxInUndo>>, height: int)
    requires |undos| + 1 == |txs|
    ensures Consistent(txs[..1], undos[..0])
            && DisconnectTxs(u, txs[..1], undos[..0], height) == RemoveOutputs(u, txs[0], height)
    ensures RemoveOutputs(u, txs[0], height).Some? ==> RemoveOutputs(u, txs[0], height).value == u - {txs[0].hash}
  {
    hide UndoTx, Comparable;
  }

  lemma {:induction false} DisconnectUnfold(u: UtxoMap, txs: seq<Tx>, undos: seq<seq<TxInUndo>>, height: int, i: nat)
    requires 0 < i < |txs| && |undos| + 1 == |txs|
    ensures Consistent(txs, undos) ==> Consistent(txs[..i + 1], undos[..i]) && Consistent(txs[..i], undos[..i - 1])
    ensures Consistent(txs, undos) ==>
              DisconnectTxs(u, txs[..i + 1], undos[..i], height) ==
              match UndoTx(u, txs[i], undos[i - 1], height) {
                case None => None
                case Some(u1) => DisconnectTxs(u1, txs[..i], undos[..i - 1], height)
              }
  {
    assert txs[..i + 1][..i] == txs[..i] && undos[..i][..i - 1] == undos[..i - 1];
  }
}
