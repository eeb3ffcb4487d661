/**
 * Runs of several operations on the tree: blocks that bring no more work come in and the tip stays,
 * and two runs in which activation is cut short by the disk, one with a tip that CheckBlockIndex does
 * not accept, the other with coins that are not those of the tip.
 */
module TreeRuns {
  import opened Options
  import opened Coins
  import opened CoinsCache
  import opened BlockRules
  import opened BlockNodes
  import opened BlockStatus
  import opened TreeSteps
  import opened TreeJudgement
  import opened ChainCoins
  import opened TipCoins
  import opened BestChain
  import opened FirstSeen
  import opened TreeCheck
  import opened Chain
  import Supply

  // ---------- the first chain seen ----------

  /** What comes with a block: its header, the number of its transactions, the verdicts on it. */
  datatype Arrival = Arrival(b: Ptr, prev: Ptr, proof: nat, nTx: nat, headerOk: bool, blockOk: bool, corrupt: bool,
                             stored: bool)

  ghost predicate Genuine(w: World, genesis: Ptr, a: Arrival) {
    && a.b != NULL && a.proof > 0 && (a.b == genesis <==> a.prev == NULL) && IsHeader(w, a.b, a.prev, a.proof)
    && (a.blockOk ==> a.nTx > 0)
  }

  /** Nothing that is linked has more work than this block. */
  ghost predicate NoMoreWork(t: Tree, b: Ptr) {
    b in t.nodes && forall c | c in t.nodes && c in t.st && t.st[c].Linked() :: t.nodes[c].work <= t.nodes[b].work
  }

  lemma {:induction false} NoMoreWorkThen(t: Tree, t': Tree, b: Ptr)
    requires Judging(t, t')
    ensures NoMoreWork(t', b) ==> NoMoreWork(t, b)
  {}

  lemma {:induction false} QuietIsUnbeaten(t0: Tree, t: Tree, genesis: Ptr, connects: Ptr -> bool)
    requires CoreOk(t0, [], genesis, connects) && CoreOk(t, [], genesis, connects) && Unbeaten(t0) && Kept(t0, t)
    requires NoMoreWork(t, TipOf(t0.chain))
    ensures Unbeaten(t)
  {
    hide CoreOk, TipOf;
    CandidatesNumbered(t0, genesis, connects);
    CandidatesNumbered(t, genesis, connects);
    LaterIsNotBetter(t0, t, genesis, connects);
  }

  /** Any blocks come in, in any order, good or bad. */
  method Receive(t: BlockTree, arrivals: seq<Arrival>)
    requires t.Valid() && forall i | 0 <= i < |arrivals| :: Genuine(t.coins.w, t.genesis, arrivals[i])
    modifies t`nodes, t`status, t`bestHeader, t`candidates, t`unlinked, t`nextSeq
    ensures t.Valid() && Kept(old(t.State()), t.State())
  {
    hide BlockTree.Valid, Kept, IsHeader;
    KeptByNothing(t.State(), t.State());
    for i := 0 to |arrivals|
      invariant t.Valid() && Kept(old(t.State()), t.State())
    {
      ghost var before := t.State();
      var a := arrivals[i];
      var ok := t.AcceptBlock(a.b, a.prev, a.proof, a.nTx, a.headerOk, a.blockOk, a.corrupt, a.stored);
      KeptTrans(old(t.State()), before, t.State());
    }
  }

  /**
   * Once activated, the tip stays while nothing with more work is linked: of two chains with the same
   * work the one seen first is kept, however many others come in.
   */
  method FirstSeenStays(t: BlockTree, arrivals: seq<Arrival>) returns (ok: bool, ghost lost: bool)
    requires t.Valid() && WellFormed(t.State()) && t.Coupled(false) && Unbeaten(t.State())
    requires forall i | 0 <= i < |arrivals| :: Genuine(t.coins.w, t.genesis, arrivals[i])
    modifies t`nodes, t`status, t`bestHeader, t`candidates, t`unlinked, t`nextSeq, t`bestInvalid, t`floor
    modifies t.chainActive, t.coins, t.coins.view`cacheCoins, t.coins.view`hashBlock, t.coins.view.lower`cacheCoins
    ensures t.Valid()
    ensures NoMoreWork(t.State(), TipOf(old(t.chainActive.vChain))) ==>
              t.chainActive.vChain == old(t.chainActive.vChain) && Unbeaten(t.State()) && WellFormed(t.State())
    ensures t.Coupled(lost) && (lost ==> !ok)
  {
    hide CoreOk, Pruned, Shaped, Kept, Skips, IsPath, BlockTree.Placed, Genuine;
    hide Unbeaten, TipOf, NoMoreWork, Judging, CoinsTip.Valid, Active, Stocked;
    ghost var t0 := t.State();
    Receive(t, arrivals);
    ghost var t1 := t.State();
    CoreIsKnown(t1, [], t.genesis, t.connects);
    if NoMoreWork(t1, TipOf(t0.chain)) {
      QuietIsUnbeaten(t0, t1, t.genesis, t.connects);
    }
    ok, lost := t.ActivateBestChain();
    NoMoreWorkThen(t1, t.State(), TipOf(t0.chain));
  }

  lemma {:induction false} LinkedNow(t: Tree, b: Ptr, genesis: Ptr, connects: Ptr -> bool)
    requires TreeInv(t, genesis, connects) && b in t.nodes && b in t.st && t.st[b].haveData
    requires t.nodes[b].prev == NULL || (t.nodes[b].prev in t.st && t.st[t.nodes[b].prev].Linked())
    ensures t.st[b].Linked()
  {
    hide UnlinkedOk, FailOk, LevelsOk, SelectionOk, Pruned, Skips;
    assert CountOk(t.nodes, t.st, b);
  }

  /** Accept a block whose parent is linked, with everything in order. */
  method Give(t: BlockTree, b: Ptr, prev: Ptr, proof: nat)
    requires t.Valid() && b != NULL && b !in t.nodes && proof > 0 && IsHeader(t.coins.w, b, prev, proof)
    requires if b == t.genesis then prev == NULL
             else prev in t.nodes && prev in t.status && t.status[prev].Linked() && !t.status[prev].Failed()
    modifies t`nodes, t`status, t`bestHeader, t`candidates, t`unlinked, t`nextSeq
    ensures t.Valid() && WellFormed(t.State()) && Kept(old(t.State()), t.State())
    ensures t.nodes.Keys == old(t.nodes).Keys + {b} && (old(t.Coupled(false)) ==> t.Coupled(false))
    ensures b in t.nodes && b in t.status && t.status[b].Linked() && !t.status[b].Failed() && t.nodes[b].prev == prev
    ensures t.nodes[b].work == proof + if prev == NULL then 0 else t.nodes[prev].work
  {
    hide CoreOk, Pruned, Shaped, Kept, Skips, IsPath, BlockTree.Placed, BlockTree.InStep, Stocked, IsHeader;
    t.Keys();
    var ok := t.AcceptBlock(b, prev, proof, 1, true, true, false, true);
    t.Keys();
    KeptAt(old(t.State()), t.State(), prev);
    LinkedNow(t.State(), b, t.genesis, t.connects);
    CoreIsKnown(t.State(), [], t.genesis, t.connects);
  }

  lemma {:induction false} KeptAt(t0: Tree, t: Tree, c: Ptr)
    requires Kept(t0, t)
    ensures c in t0.nodes && c in t0.st && t0.st[c].Linked()
            ==> c in t.nodes && c in t.st && t.nodes[c] == t0.nodes[c] && t.st[c] == t0.st[c]
  {}

  /** Connect a block with nothing going wrong, and prune. */
  method Activate(t: BlockTree, b: Ptr)
    requires t.Valid() && WellFormed(t.State()) && b in t.nodes && b in t.status && t.status[b].Linked()
             && t.connects(b)
    requires t.nodes[b].prev == TipOf(t.chainActive.vChain) && t.Coupled(false)
    modifies t`status, t`candidates, t`bestInvalid, t`floor, t.chainActive
    modifies t.coins, t.coins.view`cacheCoins, t.coins.view`hashBlock, t.coins.view.lower`cacheCoins
    ensures t.Valid() && WellFormed(t.State()) && t.chainActive.vChain == old(t.chainActive.vChain) + [b]
            && t.Coupled(false)
    ensures t.status.Keys == old(t.status).Keys
    ensures forall c | c in t.status :: t.status[c].Linked() == old(t.status)[c].Linked()
  {
    hide CoreOk, Pruned, Shaped, TipOf, BetterOf, BlockTree.Coupled, BlockTree.Placed;
    var r := t.ConnectTip(b, Fine);
    t.PruneBlockIndexCandidates();
  }

  // ---------- a world of three blocks ----------

  /** The coinbase of a block; it makes nothing. */
  function CoinBase(b: Ptr): Tx {
    Tx(b, 1, [OutPoint(0, NULL_INDEX)], [TxOut(0, [])])
  }

  const WORLD :=
    World(map[1 := Node(NULL, NULL, 0, 1), 2 := Node(1, 1, 1, 2), 3 := Node(1, 1, 1, 6)], (b: nat) => [CoinBase(b)],
          (b: nat) => true)

  lemma {:induction false} CoinBaseIsBlock(b: Ptr)
    ensures BlockOk([CoinBase(b)]) && ValueOut(CoinBase(b).vout) == 0
  {
    assert CoinBase(b).vout[..0] == [];
    assert ValueOut(CoinBase(b).vout[..0]) == 0;
  }

  lemma {:induction false} CoinBaseConnects(b: Ptr)
    ensures Accepts(map[], [CoinBase(b)], 1, true, false)
  {
    CoinBaseIsBlock(b);
    Supply.SubsidyBound(1);
    assert [CoinBase(b)][..0] == [];
    assert ConnectChecked(map[], [CoinBase(b)][..0], 1) == Some(Progress(map[], [], 0));
  }

  lemma {:induction false} WorldWorks()
    ensures WORLD.Sensible() && CoinsAt(WORLD, 1).Some? && CoinsAt(WORLD, 2).Some? && CoinsAt(WORLD, 3).Some?
    ensures IsHeader(WORLD, 1, NULL, 1) && IsHeader(WORLD, 2, 1, 1) && IsHeader(WORLD, 3, 1, 5)
  {
    hide Accepts, BlockOk, ConnectChecked;
    CoinBaseIsBlock(1);
    CoinBaseConnects(2);
    CoinBaseConnects(3);
  }

  /** Genesis 1 with children 2 and 3, of which 3 has more work. */
  ghost predicate Three(t: Tree) {
    && t.nodes.Keys == t.st.Keys == {1, 2, 3} && t.nodes[1].prev == NULL && t.nodes[2].prev == t.nodes[3].prev == 1
    && t.nodes[3].work > t.nodes[2].work && t.st[1].Linked() && t.st[2].Linked() && t.st[3].Linked()
  }

  lemma {:induction false} ThreeMade(t1: Tree, t2: Tree, t3: Tree)
    requires Kept(t1, t2) && Kept(t2, t3) && WellFormed(t3) && t3.nodes.Keys == {1, 2, 3}
    requires 1 in t1.nodes && 1 in t1.st && t1.st[1].Linked() && t1.nodes[1].prev == NULL
    requires 2 in t2.nodes && 2 in t2.st && t2.st[2].Linked() && t2.nodes[2].prev == 1
    requires t3.st[3].Linked() && t3.nodes[3].prev == 1 && t3.nodes[3].work > t2.nodes[2].work
    ensures Three(t3)
  {
    hide Shaped, Kept;
    KeptAt(t1, t2, 1);
    KeptAt(t2, t3, 1);
    KeptAt(t2, t3, 2);
  }

  method GiveThree(t: BlockTree)
    requires t.Valid() && t.Coupled(false) && t.nodes == map[] && t.genesis == 1 && t.coins.w == WORLD
    modifies t`nodes, t`status, t`bestHeader, t`candidates, t`unlinked, t`nextSeq
    ensures t.Valid() && WellFormed(t.State()) && Three(t.State()) && t.Coupled(false)
  {
    hide CoreOk, Pruned, Shaped, Kept, Three, IsHeader, CoinsAt, World.Sensible, WellFormed;
    hide BlockTree.Valid, BlockTree.Placed, BlockTree.Coupled;
    WorldWorks();
    Give(t, 1, NULL, 1);
    ghost var t1 := t.State();
    Give(t, 2, 1, 1);
    ghost var t2 := t.State();
    KeptAt(t1, t2, 1);
    Give(t, 3, 1, 5);
    KeptAt(t2, t.State(), 1);
    ThreeMade(t1, t2, t.State());
  }

  method ThreeBlocks() returns (t: BlockTree)
    ensures fresh(t) && fresh(t.chainActive) && fresh(t.coins) && fresh(t.coins.view) && t.coins.view.lower == {}
    ensures t.Valid() && WellFormed(t.State()) && Three(t.State()) && t.Coupled(false)
    ensures t.genesis == 1 && t.chainActive.vChain == [] && t.connects(1) && t.connects(2) && t.connects(3)
  {
    hide CoreOk, Pruned, Shaped, CoinsAt, BlockTree.Placed, BlockTree.Coupled, CoinsTip.Valid, WellFormed;
    WorldWorks();
    var coins := NoCoins();
    t := new BlockTree(1, coins, 0);
    GiveThree(t);
    Verdict(t, 1);
    Verdict(t, 2);
    Verdict(t, 3);
  }

  lemma {:induction false} Verdict(t: BlockTree, b: Ptr)
    requires t.Valid() && b in t.nodes && t.coins.w == WORLD && CoinsAt(WORLD, b).Some?
    ensures t.connects(b)
  {
    PlacedAt(t.nodes, WORLD, t.connects, b);
  }

  method NoCoins() returns (coins: CoinsTip)
    ensures fresh(coins) && fresh(coins.view) && coins.view.lower == {} && coins.Valid() && coins.at == NULL
            && coins.w == WORLD
  {
    WorldWorks();
    var db := new CoinsViewDB(map[], 0);
    var view := new CoinsViewCache.OnDB(db);
    coins := new CoinsTip(view, WORLD);
  }

  /** 2 is active when 3 arrives, which has more work. */
  method TwoActive() returns (t: BlockTree)
    ensures fresh(t) && fresh(t.chainActive) && fresh(t.coins) && fresh(t.coins.view) && t.coins.view.lower == {}
    ensures t.Valid() && WellFormed(t.State()) && Three(t.State()) && t.Coupled(false) && t.chainActive.vChain == [1, 2]
  {
    hide CoreOk, Pruned, Shaped, BlockTree.Placed, BlockTree.Coupled;
    t := ThreeBlocks();
    Activate(t, 1);
    Activate(t, 2);
    assert t.chainActive.vChain == [1, 2];
  }

  /**
   * The step towards 3 disconnects 2 and then cannot read 3 from the disk: the check fails at the
   * tip that is left.
   */
  method CutShort() returns (t: BlockTree)
    ensures t.Valid() && t.chainActive.vChain == [1] && Three(t.State()) && t.Coupled(false)
    ensures Shaped(t.nodes) && t.status.Keys == t.nodes.Keys && !CandidateChecked(t.State(), 1)
  {
    hide CoreOk, Pruned, Shaped, CandidateChecked, BlockTree.Placed, BlockTree.Coupled;
    t := TwoActive();
    ghost var before := t.State();
    var done := t.DisconnectTip(Fine);
    assert [1, 2][..1] == [1];
    DisconnectFailsCheck(before, t.genesis, t.connects);
    assert t.State() == before.(chain := [1]);
    var r := t.ConnectTip(3, CannotRead);
    assert r == SystemError;
  }

  /** The disk is full just after the coins of 2 were taken back: the tip is 2, the coins are those of 1. */
  method FullDisk() returns (t: BlockTree)
    ensures t.Valid() && t.chainActive.vChain == [1, 2] && t.Adrift() && t.coins.at != 2
  {
    hide CoreOk, Pruned, Shaped, BlockTree.Placed;
    t := TwoActive();
    var done := t.DisconnectTip(CannotFlush);
  }
}
