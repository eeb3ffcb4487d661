/**
 * The coinbase rule over the whole tree: what a coinbase makes cannot be spent by the next 99
 * blocks, on any branch, whatever is connected and disconnected in between.
 */
module Maturity {
  import opened Options
  import opened Coins
  import opened UtxoSet
  import opened BlockRules
  import opened BlockNodes
  import opened ChainCoins
  import opened Outputs

  /** In the block that makes it. */
  lemma {:induction false} MadeUnripe(u: UtxoMap, txs: seq<Tx>, height: nat, o: OutPoint)
    requires Accepts(u, txs, height, true, false) && TxidsIdentify(txs)
    requires o.hash == txs[0].hash && Made(txs[0], o.n, height).Some?
    ensures EntryAt(ConnectChecked(u, txs, height).value.u, o) == Made(txs[0], o.n, height)
    ensures Made(txs[0], o.n, height).value.coinBase && Made(txs[0], o.n, height).value.height == height
    ensures forall i | 1 <= i < |txs| :: o !in txs[i].vin
  {
    hide EntryAt, Made, ConnectTxs, UpdateCoins;
    assert txs[..1][..0] == [];
    if ConnectChecked(u, txs[..1], height).None? {
      ConnectCheckedPrefix(u, txs, height, 1);
    }
    FirstIsMade(u, txs, height, o);
    ConnectCheckedConnects(u, txs, height);
    AcceptedTxidsAreDistinct(u, txs, height);
    NoneSpendsUnripe(u, txs, height, 1, o);
  }

  lemma {:induction false} FirstIsMade(u: UtxoMap, txs: seq<Tx>, height: nat, o: OutPoint)
    requires txs != [] && ConnectChecked(u, txs[..1], height).Some? && txs[0].IsCoinBase()
    requires o.hash == txs[0].hash && Made(txs[0], o.n, height).Some?
    ensures var u1 := ConnectChecked(u, txs[..1], height).value.u;
            EntryAt(u1, o) == Made(txs[0], o.n, height) && Unripe(u1, o, height)
    ensures Made(txs[0], o.n, height).value.coinBase && Made(txs[0], o.n, height).value.height == height
  {
    hide EntryAt, UpdateCoins;
    assert txs[..1][..0] == [];
    UpdateEntries(u, txs[0], height, o);
  }

  lemma {:induction false} EntryHasTxid(u: UtxoMap, o: OutPoint)
    ensures EntryAt(u, o).Some? ==> o.hash in u
  {}

  /** In a later one. */
  lemma {:induction false} StaysUnripe(u: UtxoMap, txs: seq<Tx>, height: nat, o: OutPoint)
    requires Accepts(u, txs, height, true, false) && Unripe(u, o, height)
    ensures EntryAt(ConnectChecked(u, txs, height).value.u, o) == EntryAt(u, o)
    ensures forall i | 1 <= i < |txs| :: o !in txs[i].vin
  {
    hide ConnectNext, EntryAt;
    assert txs[..0] == [];
    EntryHasTxid(u, o);
    NoneSpendsUnripe(u, txs, height, 0, o);
  }

  /** As long as it is less than 100 blocks deep the output is there, and no block spent it. */
  lemma {:induction false} CoinBaseWaits(w: World, b: Ptr, ha: nat, o: OutPoint)
    requires w.Sensible() && b in w.nodes && CoinsAt(w, b).Some? && 1 <= ha <= w.nodes[b].height < ha + 100
    requires var txs := w.txs(Ancestor(w.nodes, b, ha));
             txs != [] && o.hash == txs[0].hash && Made(txs[0], o.n, ha).Some?
    ensures var e := Made(w.txs(Ancestor(w.nodes, b, ha))[0], o.n, ha);
            EntryAt(CoinsAt(w, b).value, o) == e && e.value.coinBase && e.value.height == ha
    ensures forall i | 1 <= i < |w.txs(b)| :: o !in w.txs(b)[i].vin
    decreases w.nodes[b].height
  {
    hide Accepts, EntryAt, Made, ConnectChecked;
    var u := CoinsAt(w, w.nodes[b].prev).value;
    if w.nodes[b].height == ha {
      MadeUnripe(u, w.txs(b), ha, o);
    } else {
      CoinBaseWaits(w, w.nodes[b].prev, ha, o);
      StaysUnripe(u, w.txs(b), w.nodes[b].height, o);
    }
  }

  /**
   * A block with a transaction that spends an output of a coinbase less than 100 blocks before it
   * does not connect.
   */
  lemma {:induction false} PrematureSpendRefused(w: World, b: Ptr, ha: nat, o: OutPoint, i: nat)
    requires w.Sensible() && b in w.nodes && 1 <= ha <= w.nodes[b].height < ha + 100
    requires var txs := w.txs(Ancestor(w.nodes, b, ha));
             txs != [] && o.hash == txs[0].hash && Made(txs[0], o.n, ha).Some?
    requires 1 <= i < |w.txs(b)| && o in w.txs(b)[i].vin
    ensures CoinsAt(w, b).None?
  {
    hide CoinsAt, EntryAt, Made;
    if CoinsAt(w, b).Some? {
      CoinBaseWaits(w, b, ha, o);
    }
  }
}
