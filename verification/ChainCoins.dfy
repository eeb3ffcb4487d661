/**
 * What ConnectBlock answers for a block, worked out from the transactions on its path, and the coin
 * set that path makes.
 */
module ChainCoins {
  import opened Options
  import opened Coins
  import opened UtxoSet
  import opened BlockRules
  import opened BlockNodes
  import opened BlockStatus
  import opened TreeJudgement
  import ChainState
  import Supply

  /** All blocks there can be: their headers, their transactions and whether their scripts are valid. */
  datatype World = World(nodes: Nodes, txs: Ptr -> seq<Tx>, scriptsOk: Ptr -> bool)
  {
    ghost predicate Sensible() {
      Shaped(nodes) && forall b | b in nodes :: TxidsIdentify(txs(b))
    }
  }

  /** Does the block connect to this coin set, on mainnet? */
  ghost predicate Fits(w: World, u: UtxoMap, b: Ptr)
    requires Shaped(w.nodes) && b in w.nodes
  {
    w.scriptsOk(b) && Accepts(u, w.txs(b), w.nodes[b].height, true, false)
  }

  /** What the blocks from genesis to b make of the empty coin set; None if one of them is refused. */
  ghost function CoinsAt(w: World, b: Ptr): Option<UtxoMap>
    requires Shaped(w.nodes) && b in w.nodes
    decreases w.nodes[b].height
  {
    if w.nodes[b].prev == NULL then if BlockOk(w.txs(b)) then Some(map[]) else None
    else
      var u :- CoinsAt(w, w.nodes[b].prev);
      if Fits(w, u, b) then Some(ConnectChecked(u, w.txs(b), w.nodes[b].height).value.u) else None
  }

  /** The undo data written when b was connected. */
  ghost function UndosOf(w: World, b: Ptr): seq<seq<TxInUndo>>
    requires Shaped(w.nodes) && b in w.nodes && w.nodes[b].prev != NULL && CoinsAt(w, b).Some?
  {
    ConnectChecked(CoinsAt(w, w.nodes[b].prev).value, w.txs(b), w.nodes[b].height).value.undos
  }

  /** The answers of ConnectBlock. */
  ghost predicate Answers(w: World, connects: Ptr -> bool) {
    w.Sensible() && forall b | b in w.nodes :: connects(b) == CoinsAt(w, b).Some?
  }

  /** The tree knows some of these blocks. */
  ghost predicate PartOf(nodes: Nodes, w: World) {
    w.Sensible() && forall b | b in nodes :: b in w.nodes && w.nodes[b].prev == nodes[b].prev
                                             && w.nodes[b].height == nodes[b].height && w.nodes[b].work == nodes[b].work
  }

  /** A block that connects has ancestors that do. */
  lemma {:induction false} ConnectsAllTheWay(w: World, nodes: Nodes, connects: Ptr -> bool, b: Ptr)
    requires Answers(w, connects) && PartOf(nodes, w) && Shaped(nodes) && b in nodes
    ensures AllConnect(nodes, connects, b) <==> CoinsAt(w, b).Some?
    decreases nodes[b].height
  {
    hide Fits, BlockOk;
    if nodes[b].prev != NULL {
      ConnectsAllTheWay(w, nodes, connects, nodes[b].prev);
    }
  }

  /** The coin set at a block is sound, and its value is covered by the subsidies. */
  lemma {:induction false} CoinsAreSound(w: World, b: Ptr)
    requires w.Sensible() && b in w.nodes && CoinsAt(w, b).Some?
    ensures var u := CoinsAt(w, b).value;
            Good(u) && Supply.Solvent(u) && Supply.Total(u) <= Supply.Issued(w.nodes[b].height)
    decreases w.nodes[b].height
  {
    hide Accepts, ConnectChecked, Supply.Total, Supply.Solvent, Good, Supply.Issued, BlockOk;
    if w.nodes[b].prev == NULL {
      NothingIsSound();
    } else {
      var p, height := w.nodes[b].prev, w.nodes[b].height;
      CoinsAreSound(w, p);
      var u := CoinsAt(w, p).value;
      StepIsSound(u, w.txs(b), height);
    }
  }

  lemma {:induction false} NothingIsSound()
    ensures Good(map[]) && Supply.Solvent(map[]) && Supply.Total(map[]) <= Supply.Issued(0)
  {}

  lemma {:induction false} StepIsSound(u: UtxoMap, txs: seq<Tx>, height: nat)
    requires height >= 1 && Good(u) && Supply.Solvent(u) && Supply.Total(u) <= Supply.Issued(height - 1)
    requires TxidsIdentify(txs) && Accepts(u, txs, height, true, false)
    ensures ConnectChecked(u, txs, height).Some?
    ensures var u' := ConnectChecked(u, txs, height).value.u;
            Good(u') && Supply.Solvent(u') && Supply.Total(u') <= Supply.Issued(height)
  {
    ChainState.BlockIsSound(u, ChainState.Connected(txs, ConnectChecked(u, txs, height).value.undos), height);
  }

  /** Disconnecting a block gives back the coin set of its parent. */
  lemma {:induction false} CoinsStepBack(w: World, b: Ptr)
    requires w.Sensible() && b in w.nodes && w.nodes[b].prev != NULL && CoinsAt(w, b).Some?
    ensures Consistent(w.txs(b), UndosOf(w, b)) && w.txs(b) != []
    ensures DisconnectTxs(CoinsAt(w, b).value, w.txs(b), UndosOf(w, b), w.nodes[b].height) ==
            CoinsAt(w, w.nodes[b].prev)
  {
    var u, height := CoinsAt(w, w.nodes[b].prev).value, w.nodes[b].height;
    CoinsAreSound(w, w.nodes[b].prev);
    ConnectCheckedConnects(u, w.txs(b), height);
    AcceptedTxidsAreDistinct(u, w.txs(b), height);
    DisconnectUndoesConnect(u, w.txs(b), height);
  }

  /**
   * The chain that activation ends with: its blocks can be connected one after the other to the empty
   * coin set, and no block of which the same can be said, with all data there, has more work.
   */
  lemma {:induction false} ActiveChainIsBestValid(t: Tree, w: World, genesis: Ptr, connects: Ptr -> bool)
    requires CoreOk(t, [], genesis, connects) && Active(t) && Answers(w, connects) && PartOf(t.nodes, w)
             && t.chain != []
    ensures var tip := TipOf(t.chain);
            && tip in t.nodes && tip in w.nodes && CoinsAt(w, tip).Some?
            && Good(CoinsAt(w, tip).value) && Supply.Total(CoinsAt(w, tip).value) <= Supply.Issued(t.nodes[tip].height)
            && t.st.Keys == t.nodes.Keys
            && forall b | b in t.nodes && t.st[b].Linked() && CoinsAt(w, b).Some? ::
               t.nodes[b].work <= t.nodes[tip].work
  {
    hide CoreOk, Active, CoinsAt, Good, Supply.Total, Supply.Issued, Supply.Solvent, AllConnect, TipOf;
    var tip := TipOf(t.chain);
    TipConnects(t, genesis, connects);
    ConnectsAllTheWay(w, t.nodes, connects, tip);
    CoinsAreSound(w, tip);
    forall b | b in t.nodes && t.st[b].Linked() && CoinsAt(w, b).Some?
      ensures t.nodes[b].work <= t.nodes[tip].work
    {
      ConnectsAllTheWay(w, t.nodes, connects, b);
      ActiveIsBest(t, b, genesis, connects);
    }
  }
}
