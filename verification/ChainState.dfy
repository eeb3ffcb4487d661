/**
 * The coin state of a node over its whole life: blocks are connected to the tip and
 * disconnected from it, each through a fresh cache layer that is flushed on success. After
 * any history the UTXO set is the one that connecting the active blocks from scratch gives.
 */
module ChainState {
  import opened Options
  import opened Coins
  import opened UtxoSet
  import opened CoinsCache
  import opened BlockRules
  import BlockCoins
  import Supply

  // ---------- one block at the tip ----------

  /**
   * The coin part of ConnectTip: connect in a layer of its own, flush it only on success. `keep` is
   * false if something fails between the two.
   */
  method ConnectTip(txs: seq<Tx>, height: nat, hash: BlockHash, prev: BlockHash, isGenesis: bool, enforceBIP30: bool,
                    scriptsOk: bool, minDifficulty: bool, keep: bool, tip: CoinsViewCache)
    returns (ok: bool, vtxundo: seq<seq<TxInUndo>>)
    requires tip.Valid() && !tip.hasModifier && tip.Best() == prev
    modifies tip`cacheCoins, tip`hashBlock, tip.lower`cacheCoins
    ensures tip.Valid() && !tip.hasModifier && tip.Beneath() == old(tip.Beneath())
    ensures ok ==
            if isGenesis then BlockOk(txs)
            else scriptsOk && Accepts(old(tip.Utxo()), txs, height, enforceBIP30, minDifficulty)
    ensures ok && !isGenesis ==> vtxundo == ConnectChecked(old(tip.Utxo()), txs, height).value.undos
    ensures tip.Utxo() ==
            if ok && keep && !isGenesis then ConnectChecked(old(tip.Utxo()), txs, height).value.u else old(tip.Utxo())
    ensures tip.hashBlock == if ok && keep then hash else old(tip.hashBlock)
  {
    hide CoinsViewCache.Valid, CoinsViewCache.Utxo, CoinsViewCache.Beneath, CoinsViewCache.Under, CoinsViewCache.Best;
    var view := new CoinsViewCache.OnCache(tip);
    view.BaseFacts();
    ok, vtxundo :=
      ConnectBlock(txs, height, hash, prev, isGenesis, enforceBIP30, scriptsOk, minDifficulty, false, view);
    view.BaseFacts();
    if ok && keep {
      view.Flush();
    }
  }

  /** The coin part of DisconnectTip. */
  method DisconnectTip(txs: seq<Tx>, vtxundo: seq<seq<TxInUndo>>, height: int, hash: BlockHash, prev: BlockHash,
                       tip: CoinsViewCache)
    returns (ok: bool)
    requires tip.Valid() && !tip.hasModifier && txs != [] && tip.Best() == hash
    modifies tip`cacheCoins, tip`hashBlock, tip.lower`cacheCoins
    ensures tip.Valid() && !tip.hasModifier && tip.Beneath() == old(tip.Beneath())
    ensures ok == (Consistent(txs, vtxundo) && DisconnectTxs(old(tip.Utxo()), txs, vtxundo, height).Some?)
    ensures ok ==> DisconnectTxs(old(tip.Utxo()), txs, vtxundo, height) == Some(tip.Utxo()) && tip.hashBlock == prev
    ensures !ok ==> tip.Utxo() == old(tip.Utxo()) && tip.hashBlock == old(tip.hashBlock)
  {
    hide CoinsViewCache.Valid, CoinsViewCache.Utxo, CoinsViewCache.Beneath, CoinsViewCache.Under, CoinsViewCache.Best;
    var view := new CoinsViewCache.OnCache(tip);
    view.BaseFacts();
    var done, clean := BlockCoins.DisconnectBlock(txs, vtxundo, height, hash, prev, view);
    ok := done && clean;
    view.BaseFacts();
    if ok {
      view.Flush();
    }
  }

  // ---------- whole histories ----------

  datatype Connected = Connected(txs: seq<Tx>, undos: seq<seq<TxInUndo>>)

  /** The UTXO set and the active blocks above genesis, with the undo data written for them. */
  datatype Node = Node(u: UtxoMap, chain: seq<Connected>)

  const START := Node(map[], [])

  /** Connecting the blocks one after the other to the empty set, on mainnet. */
  ghost function Replay(chain: seq<Connected>): Option<UtxoMap> {
    if chain == [] then Some(map[])
    else
      var last := chain[|chain| - 1];
      var u :- Replay(chain[..|chain| - 1]);
      if Connects(u, last, |chain|) then Some(ConnectChecked(u, last.txs, |chain|).value.u) else None
  }

  /** The block is accepted, no two of its transactions collide, and its undo data was kept. */
  ghost predicate Connects(u: UtxoMap, c: Connected, height: nat) {
    && TxidsIdentify(c.txs)
    && Accepts(u, c.txs, height, true, false)
    && ConnectChecked(u, c.txs, height).value.undos == c.undos
  }

  ghost predicate ConnectStep(s: Node, t: Node) {
    && t.chain != []
    && s.chain == t.chain[..|t.chain| - 1]
    && Connects(s.u, t.chain[|t.chain| - 1], |t.chain|)
    && t.u == ConnectChecked(s.u, t.chain[|t.chain| - 1].txs, |t.chain|).value.u
  }

  ghost predicate DisconnectStep(s: Node, t: Node) {
    && s.chain != []
    && t.chain == s.chain[..|s.chain| - 1]
    && var last := s.chain[|s.chain| - 1];
       Consistent(last.txs, last.undos) && DisconnectTxs(s.u, last.txs, last.undos, |s.chain|) == Some(t.u)
  }

  /** A history of the node: it starts empty and each step connects or disconnects a block. */
  ghost predicate Run(states: seq<Node>) {
    && states != []
    && states[0] == START
    && forall i | 0 < i < |states| :: ConnectStep(states[i - 1], states[i]) || DisconnectStep(states[i - 1], states[i])
  }

  ghost predicate Replayed(s: Node) {
    Replay(s.chain) == Some(s.u)
  }

  lemma {:induction false} ReplayedIsSound(chain: seq<Connected>)
    requires Replay(chain).Some?
    ensures var u := Replay(chain).value;
            Good(u) && Supply.Solvent(u) && Supply.Total(u) <= Supply.Issued(|chain|)
  {
    if chain != [] {
      var front, last := chain[..|chain| - 1], chain[|chain| - 1];
      ReplayedIsSound(front);
      BlockIsSound(Replay(front).value, last, |chain|);
    }
  }

  lemma {:induction false} BlockIsSound(u: UtxoMap, c: Connected, height: nat)
    requires Good(u) && Supply.Solvent(u) && height >= 1 && Connects(u, c, height)
    ensures var u' := ConnectChecked(u, c.txs, height).value.u;
            Good(u') && Supply.Solvent(u') && Supply.Total(u') <= Supply.Total(u) + Subsidy(height, false)
  {
    Supply.BlockConservesValue(u, c.txs, height, true, false);
    ConnectCheckedConnects(u, c.txs, height);
    ConnectTxsKeepsGood(u, c.txs, height);
  }

  /** Disconnecting the tip of a replayed node always works and leads one block back. */
  lemma {:induction false} DisconnectStepsBack(s: Node)
    requires Replayed(s) && s.chain != []
    ensures var last := s.chain[|s.chain| - 1];
            && Consistent(last.txs, last.undos)
            && Replay(s.chain[..|s.chain| - 1]).Some?
            && DisconnectTxs(s.u, last.txs, last.undos, |s.chain|) == Replay(s.chain[..|s.chain| - 1])
  {
    var front, last := s.chain[..|s.chain| - 1], s.chain[|s.chain| - 1];
    var u := Replay(front).value;
    ReplayedIsSound(front);
    ConnectCheckedConnects(u, last.txs, |s.chain|);
    AcceptedTxidsAreDistinct(u, last.txs, |s.chain|);
    DisconnectUndoesConnect(u, last.txs, |s.chain|);
  }

  lemma {:induction false} StepKeepsReplayed(s: Node, t: Node)
    requires Replayed(s) && (ConnectStep(s, t) || DisconnectStep(s, t))
    ensures Replayed(t)
  {
    hide DisconnectTxs, ConnectChecked, Accepts, Consistent;
    if !ConnectStep(s, t) {
      DisconnectStepsBack(s);
    }
  }

  /**
   * Reorganizations leave no residue: in every state of every history the UTXO set is what
   * connecting the active blocks alone gives, and its value is below MAX_MONEY.
   */
  lemma {:induction false} HistoryLeavesNoResidue(states: seq<Node>, i: nat)
    requires Run(states) && i < |states|
    ensures Replayed(states[i])
    ensures Supply.Total(states[i].u) <= Supply.Issued(|states[i].chain|)
    ensures |states[i].chain| <= 0x7FFF_FFFF ==> Supply.Total(states[i].u) < MAX_MONEY
  {
    if i > 0 {
      HistoryLeavesNoResidue(states, i - 1);
      StepKeepsReplayed(states[i - 1], states[i]);
    }
    ReplayedIsSound(states[i].chain);
    if |states[i].chain| <= 0x7FFF_FFFF {
      Supply.SupplyBelowMaxMoney(|states[i].chain|);
    }
  }

  lemma {:induction false} SameUndos(u: UtxoMap, c: Connected, d: Connected, height: nat)
    requires c.txs == d.txs && Connects(u, c, height) && Connects(u, d, height)
    ensures c == d
  {}

  lemma {:induction false} SameUpToLast<T>(c: seq<T>, d: seq<T>)
    requires |c| == |d| > 0 && c[..|c| - 1] == d[..|c| - 1] && c[|c| - 1] == d[|c| - 1]
    ensures c == d
  {
    assert c == c[..|c| - 1] + [c[|c| - 1]];
    assert d == d[..|c| - 1] + [d[|c| - 1]];
  }

  lemma {:induction false} ReplayLast(chain: seq<Connected>)
    requires chain != [] && Replay(chain).Some?
    ensures var n := |chain| - 1;
            Replay(chain[..n]).Some? && Connects(Replay(chain[..n]).value, chain[n], |chain|)
  {}

  ghost predicate SameTxs(c: seq<Connected>, d: seq<Connected>) {
    |c| == |d| && forall i | 0 <= i < |c| :: c[i].txs == d[i].txs
  }

  lemma {:induction false} SameTxsFront(c: seq<Connected>, d: seq<Connected>)
    requires SameTxs(c, d) && c != []
    ensures SameTxs(c[..|c| - 1], d[..|c| - 1]) && c[|c| - 1].txs == d[|c| - 1].txs && |d| == |c|
  {}

  /** Two histories that end with the same active blocks end with the same UTXO set. */
  lemma {:induction false} SameBlocksSameSet(c: seq<Connected>, d: seq<Connected>)
    requires SameTxs(c, d)
    requires Replay(c).Some? && Replay(d).Some?
    ensures c == d && Replay(c) == Replay(d)
    decreases |c|
  {
    if c != [] {
      ReplayLast(c);
      ReplayLast(d);
      SameTxsFront(c, d);
      hide Connects, Replay, SameTxs;
      var n := |c| - 1;
      SameBlocksSameSet(c[..n], d[..n]);
      SameUndos(Replay(c[..n]).value, c[n], d[n], |c|);
      SameUpToLast(c, d);
    }
  }
}
