/**
 * Which blocks ConnectBlock accepts, told transaction by transaction: every input spends an output that
 * is there by then and ripe, no transaction makes more than it spends, and the coinbase takes no more than
 * the subsidy and what the others leave.
 */
module Acceptance {
  import opened Options
  import opened Coins
  import opened UtxoSet
  import opened BlockRules
  import opened Outputs

  /** The coin set after the first n transactions. */
  ghost function After(u: UtxoMap, txs: seq<Tx>, height: int, n: nat): Option<UtxoMap>
    requires n <= |txs|
  {
    var (v, undos) :- ConnectTxs(u, txs[..n], height);
    Some(v)
  }

  /** What it takes to connect the n-th transaction. */
  ghost predicate Connectable(u: UtxoMap, txs: seq<Tx>, height: int, n: nat)
    requires n < |txs|
  {
    var v := After(u, txs, height, n);
    && v.Some? && (forall k | 0 <= k < |txs[n].vin| :: Ripe(v.value, txs[n].vin[k], height))
    && ValueOut(txs[n].vout) <= Worth(v.value, txs[n].vin) <= 1_000_000_000_000_000_000
  }

  /** What the first n transactions but the coinbase leave. */
  ghost function Left(u: UtxoMap, txs: seq<Tx>, height: int, n: nat): int
    requires n <= |txs|
  {
    if n <= 1 then 0
    else
      var v := After(u, txs, height, n - 1);
      Left(u, txs, height, n - 1)
        + if v.None? then 0 else Worth(v.value, txs[n - 1].vin) - ValueOut(txs[n - 1].vout)
  }

  lemma {:induction false} AfterNext(u: UtxoMap, txs: seq<Tx>, height: int, n: nat)
    requires n < |txs|
    ensures After(u, txs, height, 0) == Some(u)
    ensures var v, w := After(u, txs, height, n), After(u, txs, height, n + 1);
            if v.None? || UpdateCoins(v.value, txs[n], height).None? then w == None
            else w == Some(UpdateCoins(v.value, txs[n], height).value.0)
  {
    hide UpdateCoins;
    assert txs[..n + 1][..n] == txs[..n];
  }

  lemma {:induction false} ConnectsExactly(u: UtxoMap, txs: seq<Tx>, height: int, n: nat)
    requires BlockOk(txs) && n <= |txs|
    ensures var p := ConnectChecked(u, txs[..n], height);
            && (p.Some? <==> forall i | 1 <= i < n :: Connectable(u, txs, height, i))
            && (p.Some? ==> After(u, txs, height, n) == Some(p.value.u) && p.value.fees == Left(u, txs, height, n))
  {
    hide Connectable, ConnectNext, UpdateCoins, TxOk, Worth, ValueOut, ConnectTxs;
    if n == 0 {
      AfterNext(u, txs, height, 0);
    } else {
      ConnectsExactly(u, txs, height, n - 1);
      assert txs[..n][..n - 1] == txs[..n - 1];
      var p := ConnectChecked(u, txs[..n - 1], height);
      if p.Some? {
        NextExactly(u, txs, height, n - 1, p.value);
      }
    }
  }

  lemma {:induction false} NextExactly(u: UtxoMap, txs: seq<Tx>, height: int, n: nat, p: Progress)
    requires BlockOk(txs) && n < |txs| && After(u, txs, height, n) == Some(p.u)
    ensures var q := ConnectNext(p, txs[n], n, height);
            && (q.Some? <==> n == 0 || Connectable(u, txs, height, n))
            && (q.Some? ==> After(u, txs, height, n + 1) == Some(q.value.u))
            && (q.Some? ==> q.value.fees - p.fees == Left(u, txs, height, n + 1) - Left(u, txs, height, n))
  {
    hide UpdateCoins, TxOk, Worth, ValueOut, ValueIn, Ripe, InputsOk, ConnectTxs;
    var tx := txs[n];
    AfterNext(u, txs, height, n);
    SpendableExactly(p.u, tx, height);
    WorthIsValueIn(p.u, tx.vin);
    if n == 0 || InputsOk(p.u, tx, height) {
      NextSucceeds(p.u, p.undos, p.fees, tx, n, height);
    }
  }

  /** No output of a transaction with one of these txids is there. */
  ghost predicate NoneThere(u: UtxoMap, txs: seq<Tx>) {
    forall i, n: nat | 0 <= i < |txs| :: EntryAt(u, OutPoint(txs[i].hash, n)) == None
  }

  lemma {:induction false} UnspentExactly(u: UtxoMap, txs: seq<Tx>)
    requires Good(u)
    ensures NoneUnspent(u, txs) <==> NoneThere(u, txs)
  {
    forall t: Txid
      ensures t in u <==> exists n: nat :: EntryAt(u, OutPoint(t, n)).Some?
    {
      if t in u {
        var n := |u[t].vout| - 1;
        assert EntryAt(u, OutPoint(t, n)).Some?;
      }
    }
    if NoneThere(u, txs) {
      assert forall i | 0 <= i < |txs| :: txs[i].hash !in u;
    }
  }

  /** The blocks that are accepted, scripts aside. */
  lemma {:induction false} AcceptedExactly(u: UtxoMap, txs: seq<Tx>, height: nat, enforceBIP30: bool,
                                           minDifficulty: bool)
    requires Good(u)
    ensures Accepts(u, txs, height, enforceBIP30, minDifficulty) <==>
            && BlockOk(txs)
            && (enforceBIP30 ==> NoneThere(u, txs))
            && (forall i | 1 <= i < |txs| :: Connectable(u, txs, height, i))
            && ValueOut(txs[0].vout) <= Subsidy(height, minDifficulty) + Left(u, txs, height, |txs|)
  {
    hide Connectable, ConnectNext, Left, NoneThere, TxOk, ValueOut, Subsidy, NoneUnspent, ConnectTxs, After;
    UnspentExactly(u, txs);
    if BlockOk(txs) {
      ConnectsExactly(u, txs, height, |txs|);
      assert txs[..|txs|] == txs;
    }
  }
}
