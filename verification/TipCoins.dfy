/**
 * The coins at the tip, pcoinsTip, with the blocks and the undo data on disk. Whatever is connected
 * and disconnected, the view means the coin set of the block it says it is at.
 */
module TipCoins {
  import opened Options
  import opened Coins
  import opened UtxoSet
  import opened CoinsCache
  import opened BlockRules
  import opened BlockNodes
  import opened ChainCoins
  import ChainState

  type Undos = map<Ptr, seq<seq<TxInUndo>>>

  /** The coin set of a block; nothing before genesis. */
  ghost predicate MadeBy(w: World, at: Ptr, u: UtxoMap) {
    if at == NULL then u == map[] else w.Sensible() && at in w.nodes && CoinsAt(w, at) == Some(u)
  }

  /** All undo data is that of its block. */
  ghost predicate UndosRight(w: World, undos: Undos) {
    w.Sensible() && forall b | b in undos ::
      b in w.nodes && w.nodes[b].prev != NULL && CoinsAt(w, b).Some? && undos[b] == UndosOf(w, b)
  }

  /** There is undo data for b and its ancestors, genesis apart. */
  ghost predicate Undoable(w: World, undos: Undos, b: Ptr)
    requires Shaped(w.nodes) && b in w.nodes
    decreases w.nodes[b].height
  {
    w.nodes[b].prev == NULL || (b in undos && Undoable(w, undos, w.nodes[b].prev))
  }

  lemma {:induction false} MoreUndos(w: World, undos: Undos, b: Ptr, c: Ptr, undo: seq<seq<TxInUndo>>)
    requires Shaped(w.nodes) && b in w.nodes && Undoable(w, undos, b)
    ensures Undoable(w, undos[c := undo], b)
    decreases w.nodes[b].height
  {
    if w.nodes[b].prev != NULL {
      MoreUndos(w, undos, w.nodes[b].prev, c, undo);
    }
  }

  /** The undo data of a block on top of `at` is written. */
  lemma {:induction false} WriteUndo(w: World, undos: Undos, b: Ptr, undo: seq<seq<TxInUndo>>)
    requires UndosRight(w, undos) && b in w.nodes && w.nodes[b].prev != NULL && CoinsAt(w, b).Some?
             && undo == UndosOf(w, b)
    requires Undoable(w, undos, w.nodes[b].prev)
    ensures UndosRight(w, undos[b := undo]) && Undoable(w, undos[b := undo], b)
            && Undoable(w, undos[b := undo], w.nodes[b].prev)
  {
    hide CoinsAt, UndosOf;
    MoreUndos(w, undos, w.nodes[b].prev, b, undo);
  }

  /** One block further, or refused. */
  lemma {:induction false} OneFurther(w: World, u: UtxoMap, b: Ptr)
    requires w.Sensible() && b in w.nodes && MadeBy(w, w.nodes[b].prev, u)
    ensures w.nodes[b].prev == NULL ==>
              && (CoinsAt(w, b).Some? <==> BlockOk(w.txs(b)))
              && (CoinsAt(w, b).Some? ==> MadeBy(w, b, u))
    ensures w.nodes[b].prev != NULL ==>
              var height := w.nodes[b].height;
              && (CoinsAt(w, b).Some? <==> w.scriptsOk(b) && Accepts(u, w.txs(b), height, true, false))
              && (CoinsAt(w, b).Some? ==>
                    && ConnectChecked(u, w.txs(b), height).Some?
                    && MadeBy(w, b, ConnectChecked(u, w.txs(b), height).value.u)
                    && ConnectChecked(u, w.txs(b), height).value.undos == UndosOf(w, b))
  {
    hide ConnectChecked, BlockOk;
  }

  /** One block back. */
  lemma {:induction false} OneBack(w: World, u: UtxoMap, b: Ptr)
    requires w.Sensible() && b in w.nodes && w.nodes[b].prev != NULL && MadeBy(w, b, u)
    ensures CoinsAt(w, b).Some? && w.nodes[b].prev in w.nodes && Consistent(w.txs(b), UndosOf(w, b)) && w.txs(b) != []
    ensures var back := DisconnectTxs(u, w.txs(b), UndosOf(w, b), w.nodes[b].height);
            back.Some? && MadeBy(w, w.nodes[b].prev, back.value)
  {
    hide DisconnectTxs, Consistent, UndosOf, ConnectChecked;
    CoinsStepBack(w, b);
  }

  lemma {:induction false} ViewFacts(view: CoinsViewCache)
    requires view.Valid()
    ensures view.Linked() && (view.hashBlock != 0 ==> view.Best() == view.hashBlock)
  {}

  class CoinsTip {
    const view: CoinsViewCache
    const w: World
    var undos: Undos
    ghost var at: Ptr

    ghost predicate Valid()
      reads this, view`cacheCoins, view`hashBlock, view`hasModifier, view.lower`cacheCoins, view.lower`hashBlock
      reads view.db`coins, view.db`best
    {
      && w.Sensible() && view.Valid() && !view.hasModifier && view.Best() == at && MadeBy(w, at, view.Utxo())
      && UndosRight(w, undos) && (at != NULL ==> at in w.nodes && Undoable(w, undos, at))
    }

    constructor (view: CoinsViewCache, w: World)
      requires view.Valid() && !view.hasModifier && view.Best() == NULL && view.Utxo() == map[] && w.Sensible()
      ensures Valid() && at == NULL && this.view == view && this.w == w && undos == map[]
    {
      this.view, this.w := view, w;
      undos, at := map[], NULL;
    }

    /** ConnectTip on coins, with the block read from disk. */
    method Connect(b: Ptr, keep: bool) returns (ok: bool)
      requires Valid() && b in w.nodes && w.nodes[b].prev == at
      modifies this, view`cacheCoins, view`hashBlock, view.lower`cacheCoins
      ensures Valid() && ok == CoinsAt(w, b).Some?
      ensures at == if ok && keep then b else old(at)
    {
      hide CoinsAt, MadeBy, UndosOf, Accepts, ConnectChecked, UndosRight, Fits, BlockOk;
      hide CoinsViewCache.Valid, CoinsViewCache.Utxo, CoinsViewCache.Best, CoinsViewCache.Beneath,
           CoinsViewCache.Linked;
      ViewFacts(view);
      ghost var u := view.Utxo();
      OneFurther(w, u, b);
      var prev, height := w.nodes[b].prev, w.nodes[b].height;
      var vtxundo;
      ok, vtxundo :=
        ChainState.ConnectTip(w.txs(b), height, b, prev, prev == NULL, true, w.scriptsOk(b), false, keep, view);
      ViewFacts(view);
      if ok && prev != NULL {
        WriteUndo(w, undos, b, vtxundo);
        undos := undos[b := vtxundo];
      }
      if ok && keep {
        at := b;
      }
    }

    /** DisconnectTip on coins, with block and undo data read from disk. It cannot fail. */
    method Disconnect(b: Ptr)
      requires Valid() && b == at && b in w.nodes && w.nodes[b].prev != NULL
      modifies this, view`cacheCoins, view`hashBlock, view.lower`cacheCoins
      ensures Valid() && at == w.nodes[b].prev
    {
      hide CoinsAt, UndosOf, DisconnectTxs, Consistent, MadeBy;
      hide CoinsViewCache.Valid, CoinsViewCache.Utxo, CoinsViewCache.Best, CoinsViewCache.Beneath,
           CoinsViewCache.Linked;
      ViewFacts(view);
      OneBack(w, view.Utxo(), b);
      var prev := w.nodes[b].prev;
      var ok := ChainState.DisconnectTip(w.txs(b), undos[b], w.nodes[b].height, b, prev, view);
      ViewFacts(view);
      at := prev;
    }
  }
}
