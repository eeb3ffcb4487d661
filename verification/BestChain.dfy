/**
 * The block tree and the selection of the best chain: accepting headers and blocks, linking
 * blocks once their ancestors have data, and activating the chain with the most work.
 */
module BestChain {
  import opened Options
  import opened BlockNodes
  import opened Chain
  import opened BlockStatus
  import opened TreeSteps
  import opened TreeJudgement
  import opened FirstSeen
  import opened Sets
  import opened ChainCoins
  import opened TipCoins

  const MAX_REORG_DEPTH: nat := 100

  datatype StepResult = Stepped | TooDeep | Broken

  datatype Progress = Continue | Stop | Fail

  datatype Outcome = Connected | Invalid | SystemError

  /** What the disk does while the tip is moved: where it fails, if it does. */
  datatype Disk = Fine | CannotRead | CannotIndex | CannotFlush

  /** No header has more work. */
  ghost predicate MostWork(nodes: Nodes, best: Ptr) {
    if best == NULL then nodes == map[]
    else best in nodes && forall b | b in nodes :: nodes[b].work <= nodes[best].work
  }

  /** The first header seen with this work stays the best: a later one must have more. */
  ghost predicate MoreThan(nodes: Nodes, b: Ptr, other: Ptr) {
    b in nodes && b != NULL && (other == NULL || (other in nodes && nodes[b].work > nodes[other].work))
  }

  lemma {:induction false} MoreTrans(nodes: Nodes, a: Ptr, b: Ptr, c: Ptr)
    requires MoreThan(nodes, a, b) && (b == c || MoreThan(nodes, b, c))
    ensures MoreThan(nodes, a, c)
  {}

  /** A new header keeps the best one, or is it. */
  lemma {:induction false} MostWorkStays(nodes: Nodes, b: Ptr, n: Node, best: Ptr)
    requires MostWork(nodes, best) && b !in nodes && b != NULL
    ensures best == NULL || best in nodes
    ensures MostWork(nodes[b := n], if MoreThan(nodes[b := n], b, best) then b else best)
  {}

  /** One is the parent of the other. */
  ghost predicate Neighbours(nodes: Nodes, a: Ptr, b: Ptr) {
    (a in nodes && nodes[a].prev == b) || (b in nodes && nodes[b].prev == a)
  }

  /** The header that hashes to b. */
  ghost predicate IsHeader(w: World, b: Ptr, prev: Ptr, proof: nat) {
    && w.Sensible() && b in w.nodes && w.nodes[b].prev == prev
    && w.nodes[b].work == proof + if prev in w.nodes then w.nodes[prev].work else 0
  }

  lemma {:induction false} HeaderPlaced(nodes: Nodes, w: World, b: Ptr, prev: Ptr, proof: nat, n: Node)
    requires PartOf(nodes, w) && IsHeader(w, b, prev, proof) && n.prev == prev && (prev == NULL || prev in nodes)
    requires n.height == if prev == NULL then 0 else nodes[prev].height + 1
    requires n.work == proof + if prev == NULL then 0 else nodes[prev].work
    ensures PartOf(nodes[b := n], w)
  {}

  /** What the tree says of a block it is about to connect, the world says too. */
  lemma {:induction false} PlacedAt(nodes: Nodes, w: World, connects: Ptr -> bool, b: Ptr)
    requires PartOf(nodes, w) && Answers(w, connects) && b in nodes
    ensures b in w.nodes && w.nodes[b].prev == nodes[b].prev && connects(b) == CoinsAt(w, b).Some?
  {}

  /** The tree after ConnectTip. */
  ghost function AfterConnect(t: Tree, b: Ptr, r: Outcome, readOk: bool, connects: Ptr -> bool): Tree
    requires t.st.Keys == t.nodes.Keys && b in t.nodes && (t.floor == NULL || t.floor in t.nodes)
  {
    match r
    case Invalid => t.(st := WithFailedValid(t.st, b), cand := t.cand - {b})
    case SystemError => if readOk then t.(st := Raised(t, b)) else t
    case Connected => t.(st := Raised(t, b), chain := t.chain + [b], floor := BetterOf(t.(st := Raised(t, b)), b))
  }

  lemma {:induction false} ConnectIsJudging(t: Tree, b: Ptr, r: Outcome, readOk: bool, connects: Ptr -> bool)
    requires t.st.Keys == t.nodes.Keys && b in t.nodes && (t.floor == NULL || t.floor in t.nodes)
    ensures Judging(t, AfterConnect(t, b, r, readOk, connects))
  {
    hide BetterOf;
  }

  lemma {:induction false} ConnectJudges(t0: Tree, t: Tree, b: Ptr, r: Outcome, readOk: bool, connects: Ptr -> bool)
    requires t.st.Keys == t.nodes.Keys && b in t.nodes && (t.floor == NULL || t.floor in t.nodes) && Judging(t0, t)
    ensures Judging(t0, AfterConnect(t, b, r, readOk, connects))
    ensures r == Invalid && b in t0.st && !t0.st[b].failedValid
            ==> Advanced(t0, AfterConnect(t, b, r, readOk, connects))
  {
    hide BetterOf, MoreWork, Judging;
    var t' := AfterConnect(t, b, r, readOk, connects);
    ConnectIsJudging(t, b, r, readOk, connects);
    JudgingTrans(t0, t, t');
    assert r == Invalid ==> t'.st[b].failedValid;
  }

  /** Whatever becomes of the block, no candidate is lost that did not fail or sort below the tip. */
  lemma {:induction false} ConnectDrops(t0: Tree, t: Tree, b: Ptr, r: Outcome, readOk: bool, genesis: Ptr,
                                        connects: Ptr -> bool)
    requires CoreOk(t, [], genesis, connects) && Dropped(t0, t) && t.st.Keys == t.nodes.Keys
             && (t.floor == NULL || t.floor in t.nodes)
    requires b in t.nodes && b != NULL && t.st[b].Linked() && t.nodes[b].prev == TipOf(t.chain)
    requires if r == Invalid then !connects(b) else (r == SystemError && !readOk) || connects(b)
    ensures Dropped(t0, AfterConnect(t, b, r, readOk, connects))
  {
    hide CoreOk, Dropped, Judged, Raised, BetterOf, TipOf;
    match r
    case Invalid =>
      LinkedDataKnown(t, b, genesis, connects);
      MarkInvalid(t, b, genesis, connects);
      DroppedJudged(t0, t, WithFailedValid(t.st, b), t.cand - {b});
    case SystemError =>
      if readOk {
        RaiseKeepsCore(t, b, genesis, connects);
        DroppedJudged(t0, t, Raised(t, b), t.cand);
        assert t.(st := Raised(t, b), cand := t.cand) == t.(st := Raised(t, b));
      }
    case Connected =>
      RaiseKeepsCore(t, b, genesis, connects);
      DroppedJudged(t0, t, Raised(t, b), t.cand);
      ChainIsPath(t, genesis, connects);
      JudgedIsOnlyJudged(t.nodes, t.st, Raised(t, b), t.cand, t.cand);
      var u := t.(st := Raised(t, b));
      assert t.(st := Raised(t, b), cand := t.cand) == u;
      DroppedExtended(t0, u, b, BetterOf(u, b));
  }

  /** Is the header of b accepted? */
  ghost predicate HeaderAccepted(t: Tree, genesis: Ptr, b: Ptr, prev: Ptr, headerOk: bool) {
    if b in t.nodes then b in t.st && !t.st[b].Failed()
    else headerOk && (b == genesis || (prev in t.nodes && prev in t.st && !t.st[prev].Failed()))
  }

  /** b is the block of the path at this height. */
  ghost predicate AtHeight(nodes: Nodes, path: seq<Ptr>, b: Ptr, height: int) {
    0 <= height < |path| && b in nodes && nodes[b].height == height && b == path[height]
  }

  lemma {:induction false} OneDown(nodes: Nodes, path: seq<Ptr>, b: Ptr, height: int)
    requires Shaped(nodes) && IsPath(nodes, path) && AtHeight(nodes, path, b, height)
    ensures b == path[height]
    ensures if nodes[b].prev == NULL then height == 0 else AtHeight(nodes, path, nodes[b].prev, height - 1)
  {
    PathStep(nodes, path, height);
  }

  lemma {:induction false} NothingIsConsistent(genesis: Ptr, connects: Ptr -> bool)
    ensures TreeInv(Tree(map[], map[], {}, map[], 1, [], NULL), genesis, connects)
  {}

  lemma {:induction false} NoneIsSensible(coins: CoinsTip)
    requires coins.Valid()
    ensures coins.w.Sensible()
  {}

  class BlockTree {
    var nodes: Nodes
    var status: Statuses
    var candidates: set<Ptr>
    var unlinked: Multimap
    var nextSeq: nat
    var bestInvalid: Ptr
    var bestHeader: Ptr
    const chainActive: CChain
    const genesis: Ptr
    const coins: CoinsTip
    const lwma3ForkHeight: int
    ghost const connects: Ptr -> bool  // does ConnectBlock accept this block?
    ghost var floor: Ptr  // the best tip there ever was

    ghost function State(): Tree
      reads this, chainActive
    {
      Tree(nodes, status, candidates, unlinked, nextSeq, chainActive.vChain, floor)
    }

    ghost predicate BestOk()
      reads this
    {
      (bestInvalid == NULL || bestInvalid in nodes) && MostWork(nodes, bestHeader)
    }

    ghost predicate Valid()
      reads this, chainActive
    {
      TreeInv(State(), genesis, connects) && BestOk() && Placed()
    }

    /** The tree has real headers, and blocks connect as their transactions say. */
    ghost predicate Placed()
      reads this`nodes
    {
      PartOf(nodes, coins.w) && Answers(coins.w, connects)
    }

    /** The coins are those of the tip. */
    ghost predicate InStep()
      reads chainActive, coins, coins.view`cacheCoins, coins.view`hashBlock, coins.view`hasModifier
      reads coins.view.lower`cacheCoins, coins.view.lower`hashBlock, coins.view.db`coins, coins.view.db`best
    {
      coins.Valid() && coins.at == TipOf(chainActive.vChain)
    }

    /** The coins are those of a block next to the tip: they were moved, and then the disk failed. */
    ghost predicate Adrift()
      reads this`nodes, chainActive, coins, coins.view`cacheCoins, coins.view`hashBlock, coins.view`hasModifier
      reads coins.view.lower`cacheCoins, coins.view.lower`hashBlock, coins.view.db`coins, coins.view.db`best
    {
      coins.Valid() && coins.at != TipOf(chainActive.vChain) && Neighbours(nodes, coins.at, TipOf(chainActive.vChain))
    }

    ghost predicate Coupled(lost: bool)
      reads this`nodes, chainActive, coins, coins.view`cacheCoins, coins.view`hashBlock, coins.view`hasModifier
      reads coins.view.lower`cacheCoins, coins.view.lower`hashBlock, coins.view.db`coins, coins.view.db`best
    {
      if lost then Adrift() else InStep()
    }

    constructor (genesis: Ptr, coins: CoinsTip, lwma3ForkHeight: int)
      requires coins.Valid() && coins.at == NULL
      ensures Valid() && Coupled(false) && nodes == map[] && chainActive.vChain == [] && fresh(chainActive)
      ensures this.genesis == genesis && this.coins == coins && this.lwma3ForkHeight == lwma3ForkHeight
    {
      hide TreeInv, CoinsAt, CoinsTip.Valid;
      this.coins := coins;
      connects := b => coins.w.Sensible() && b in coins.w.nodes && CoinsAt(coins.w, b).Some?;
      nodes, status, candidates, unlinked := map[], map[], {}, map[];
      nextSeq, bestInvalid, bestHeader, floor := 1, NULL, NULL, NULL;
      chainActive := new CChain();
      this.genesis, this.lwma3ForkHeight := genesis, lwma3ForkHeight;
      new;
      NothingIsConsistent(genesis, connects);
      NoneIsSensible(coins);
    }

    lemma {:induction false} Keys()
      requires Valid()
      ensures status.Keys == nodes.Keys && NULL !in nodes && Shaped(nodes) && Skips(nodes)
      ensures IsPath(nodes, chainActive.vChain)
    {}

    // ---------- headers ----------

    /** AddToBlockIndex, for a header not known yet whose parent is (null for genesis). */
    method AddToBlockIndex(b: Ptr, prev: Ptr, proof: nat)
      requires Valid() && b != NULL && b !in nodes && proof > 0
      requires (if b == genesis then prev == NULL else prev in nodes) && IsHeader(coins.w, b, prev, proof)
      modifies this`nodes, this`status, this`bestHeader
      ensures Valid()
      ensures b in nodes && nodes == old(nodes)[b := nodes[b]]
      ensures nodes[b].prev == prev
      ensures nodes[b].height == if prev == NULL then 0 else old(nodes)[prev].height + 1
      ensures nodes[b].work == proof + if prev == NULL then 0 else old(nodes)[prev].work
      ensures status == old(status)[b := NEW_STATUS]
      ensures old(Stocked(State())) ==> Stocked(State())
      ensures bestHeader == old(bestHeader) || (bestHeader == b && MoreThan(nodes, b, old(bestHeader)))
    {
      hide TreeInv, Follows, Shaped, Stocked, PartOf, Answers, IsHeader, MostWork;
      Keys();
      var n := BuildNode(prev, proof);
      MostWorkStays(nodes, b, n, bestHeader);
      HeaderPlaced(nodes, coins.w, b, prev, proof, n);
      AddHeader(State(), b, n, genesis, connects);
      HeaderKeepsStocked(State(), b, n, genesis, connects);
      nodes := nodes[b := n];
      status := status[b := NEW_STATUS.(level := 0).Raise(VALID_TREE)];
      if bestHeader == NULL || nodes[bestHeader].work < nodes[b].work {
        bestHeader := b;
      }
    }

    /** The height, work and skip pointer of a new block. */
    method BuildNode(prev: Ptr, proof: nat) returns (n: Node)
      requires Valid() && proof > 0 && (prev == NULL || prev in nodes)
      ensures n.prev == prev && Shaped(nodes) && Follows(nodes, n)
      ensures n.height == if prev == NULL then 0 else nodes[prev].height + 1
      ensures n.work == proof + if prev == NULL then 0 else nodes[prev].work
    {
      hide Placed;
      n := Node(prev, NULL, 0, proof);
      if prev != NULL {
        var height := nodes[prev].height + 1;
        var skip := GetAncestor(nodes, prev, GetSkipHeight(height));
        n := Node(prev, skip, height, nodes[prev].work + proof);
      }
    }

    /** AcceptBlockHeader; headerOk stands for the checks on the header itself. */
    method AcceptBlockHeader(b: Ptr, prev: Ptr, proof: nat, headerOk: bool) returns (ok: bool)
      requires Valid() && b != NULL && proof > 0 && (b == genesis ==> prev == NULL) && (b != genesis ==> prev != NULL)
      requires IsHeader(coins.w, b, prev, proof)
      modifies this`nodes, this`status, this`bestHeader
      ensures Valid()
      ensures ok ==> b in nodes && b in status && !status[b].Failed()
      ensures ok == HeaderAccepted(old(State()), genesis, b, prev, headerOk)
      ensures b in old(nodes)
              ==> b in old(status) && (ok <==> !old(status)[b].failedValid && !old(status)[b].failedChild)
      ensures b !in old(nodes) && prev !in old(nodes) ==> (ok <==> headerOk && b == genesis)
      ensures b !in old(nodes) && prev in old(nodes) ==>
                prev in old(status)
                  && (ok <==> headerOk && !old(status)[prev].failedValid && !old(status)[prev].failedChild)
      ensures if ok && b !in old(nodes) then
                && b in nodes && nodes == old(nodes)[b := nodes[b]] && nodes[b].prev == prev
                && status == old(status)[b := NEW_STATUS]
                && (prev == NULL || prev in old(nodes))
                && nodes[b].work == proof + if prev == NULL then 0 else old(nodes)[prev].work
              else nodes == old(nodes) && status == old(status)
      ensures old(Stocked(State())) ==> Stocked(State())
      ensures bestHeader == old(bestHeader) || (bestHeader == b && MoreThan(nodes, b, old(bestHeader)))
    {
      Keys();
      hide Placed, TreeInv, Shaped, Skips, IsPath, Stocked;
      if b in nodes {
        return !status[b].Failed();
      }
      if !headerOk {
        return false;
      }
      if b != genesis && (prev !in nodes || status[prev].Failed()) {
        return false;
      }
      AddToBlockIndex(b, prev, proof);
      ok := true;
    }

    // ---------- blocks ----------

    /** The range of the unlinked multimap under p is moved to the caller, in order. */
    method TakeUnlinked(p: Ptr) returns (kids: seq<Ptr>)
      modifies this`unlinked
      ensures kids == Children(old(unlinked), p) && unlinked == old(unlinked) - {p}
    {
      kids := [];
      ghost var before := unlinked;
      while p in unlinked && unlinked[p] != []
        invariant kids + Children(unlinked, p) == Children(before, p)
        invariant unlinked - {p} == before - {p}
        decreases |Children(unlinked, p)|
      {
        kids := kids + [unlinked[p][0]];
        unlinked := unlinked[p := unlinked[p][1..]];
      }
      unlinked := unlinked - {p};
    }

    /** One round of the loop of ReceivedBlockTransactions. */
    method LinkBlock(pindex: Ptr, ghost queue: seq<Ptr>) returns (kids: seq<Ptr>)
      requires WellFormed(State()) && Ready(State(), queue) && queue[0] == pindex
      modifies this`status, this`candidates, this`unlinked, this`nextSeq
      ensures State() == LinkFirst(old(State()), queue) && kids == Children(old(unlinked), pindex)
    {
      hide Shaped;
      KnownPointers(State(), pindex);
      var prev := nodes[pindex].prev;
      var count := (if prev != NULL then status[prev].nChainTx else 0) + status[pindex].nTx;
      status := status[pindex := status[pindex].(nChainTx := count, seqId := nextSeq)];
      nextSeq := nextSeq + 1;
      if chainActive.Tip() == NULL || !Worse(nodes, status, pindex, chainActive.Tip()) {
        candidates := candidates + {pindex};
      }
      kids := TakeUnlinked(pindex);
    }

    /** The data of a block is stored; it and all that waited for it are linked if possible. */
    method ReceivedBlockTransactions(b: Ptr, nTx: nat)
      requires Valid() && WellFormed(State()) && CanReceive(State(), b, nTx)
      modifies this`status, this`candidates, this`unlinked, this`nextSeq
      ensures Valid() && Linking(old(Marked(State(), b, nTx)), State())
    {
      hide Placed, Shaped, CoreOk, Pruned, Linking, LinkFirst, First;
      MarkData(State(), b, nTx, genesis, connects);
      KnownPointers(State(), b);
      ghost var marked := Marked(State(), b, nTx);
      var queue: seq<Ptr> := [];
      var prev := nodes[b].prev;
      var ready := prev == NULL || status[prev].nChainTx != 0;
      status := status[b := status[b].(nTx := nTx, nChainTx := 0, haveData := true).Raise(VALID_TRANSACTIONS)];
      if ready {
        queue := [b];
      } else if !status[prev].Failed() {
        unlinked := Insert(unlinked, prev, b);
      }
      assert State() == marked;
      CoreIsKnown(marked, queue, genesis, connects);
      LinkQueue(queue);
    }

    /** Process the descendants that may now be eligible to be connected. */
    method LinkQueue(start: seq<Ptr>)
      requires CoreOk(State(), start, genesis, connects) && WellFormed(State()) && Pruned(State())
      modifies this`status, this`candidates, this`unlinked, this`nextSeq
      ensures CoreOk(State(), [], genesis, connects) && Pruned(State()) && Linking(old(State()), State())
    {
      hide Placed, Shaped, CoreOk, Pruned, Linking, LinkFirst, First;
      var queue := start;
      LinkingStarts(State());
      while queue != []
        invariant CoreOk(State(), queue, genesis, connects) && WellFormed(State()) && Pruned(State())
        invariant Linking(old(State()), State())
        decreases |StillUnlinked(nodes, status)|
      {
        ghost var t := State();
        QueueIsReady(t, queue, genesis, connects);
        LinkFirstKeepsCore(t, queue, genesis, connects);
        LinkingContinues(old(State()), t, queue);
        FewerUnlinked(t, queue);
        var kids := LinkBlock(queue[0], queue);
        queue := queue[1..] + kids;
        CoreIsKnown(State(), queue, genesis, connects);
      }
    }

    /**
     * AcceptBlock. blockOk stands for the context-free and contextual checks, corrupt for their
     * verdict that the data may just be damaged, stored for the disk.
     */
    method AcceptBlock(b: Ptr, prev: Ptr, proof: nat, nTx: nat, headerOk: bool, blockOk: bool, corrupt: bool,
                       stored: bool)
        returns (ok: bool)
      requires Valid() && b != NULL && proof > 0 && (b == genesis ==> prev == NULL) && (b != genesis ==> prev != NULL)
      requires IsHeader(coins.w, b, prev, proof)
      requires blockOk ==> nTx > 0
      modifies this`nodes, this`status, this`bestHeader, this`candidates, this`unlinked, this`nextSeq
      ensures Valid() && Kept(old(State()), State()) && (old(Stocked(State())) ==> Stocked(State()))
      ensures b in nodes ==> b in status
      ensures ok == (HeaderAccepted(old(State()), genesis, b, prev, headerOk)
                     && ((b in old(nodes) && b in old(status) && old(status)[b].haveData) || (blockOk && stored)))
      ensures ok ==> b in nodes && status[b].haveData && !status[b].Failed()
      ensures !ok && b in nodes && headerOk ==> status[b].Failed() || !status[b].haveData
      ensures ok && b !in old(nodes) ==>
                && nodes == old(nodes)[b := nodes[b]] && nodes[b].prev == prev
                && (prev == NULL || prev in old(nodes))
                && nodes[b].work == proof + if prev == NULL then 0 else old(nodes)[prev].work
    {
      ghost var t0 := State();
      hide Placed, TreeInv, Shaped, Skips, IsPath, Kept, Stocked;
      ok := AcceptBlockHeader(b, prev, proof, headerOk);
      ghost var t1 := State();
      Keys();
      assert Kept(t0, t1) by {
        if b !in t0.nodes && ok {
          KeptByAdding(t0, b, nodes[b]);
        } else {
          KeptByNothing(t0, t1);
        }
      }
      if ok && !status[b].haveData {
        ok := StoreBlock(b, nTx, blockOk, corrupt, stored);
        KeptTrans(t0, t1, State());
        Keys();
      }
    }

    /** The part of AcceptBlock for a block whose header is in and whose data is not. */
    method StoreBlock(b: Ptr, nTx: nat, blockOk: bool, corrupt: bool, stored: bool) returns (ok: bool)
      requires Valid() && b in nodes && b in status && !status[b].haveData && !status[b].Failed()
               && (blockOk ==> nTx > 0)
      modifies this`status, this`candidates, this`unlinked, this`nextSeq
      ensures Valid() && Kept(old(State()), State()) && nodes == old(nodes) && b in status
      ensures ok == (blockOk && stored) && status[b].haveData == ok
      ensures status[b].Failed() == (!blockOk && !corrupt)
      ensures old(Stocked(State())) ==> Stocked(State())
    {
      hide Placed, CoreOk, Pruned, Shaped, Skips, IsPath, Kept, Linking, Stocked;
      ghost var t0 := State();
      Keys();
      NoDataNotLinked(t0, b, genesis, connects);
      CoreIsKnown(t0, [], genesis, connects);
      ok := blockOk && stored;
      if ok {
        ReceivedBlockTransactions(b, nTx);
        KeptByLinking(t0, b, nTx, State());
        ReceivingKeepsStocked(t0, b, nTx, State());
        LinkedHasData(t0, b, nTx, State());
      } else if !blockOk && !corrupt {
        FailEarly(b);
        KeptByChange(t0, b, status[b]);
      } else {
        KeptByNothing(t0, State());
      }
    }

    /** A block that fails its checks before its data is stored. */
    method FailEarly(b: Ptr)
      requires Valid() && WellFormed(State()) && b in nodes && !status[b].haveData
      modifies this`status
      ensures Valid() && WellFormed(State()) && status == WithFailedValid(old(status), b) && !old(status)[b].Linked()
      ensures old(Stocked(State())) ==> Stocked(State())
    {
      hide Placed, CoreOk, Pruned, Shaped, Stocked;
      NoDataNoCandidate(State(), b, genesis, connects);
      MarkInvalid(State(), b, genesis, connects);
      status := status[b := status[b].(failedValid := true)];
      CoreIsKnown(State(), [], genesis, connects);
    }

    // ---------- the best candidate ----------

    /** The first failed block between a candidate and the chain, or null. */
    method FirstFailed(pindexNew: Ptr) returns (failed: Ptr)
      requires Valid() && WellFormed(State()) && pindexNew in candidates
      ensures pindexNew in nodes
      ensures failed == NULL ==> Clean(nodes, status, pindexNew)
      ensures failed != NULL ==> Below(State(), pindexNew, failed) && !Clean(nodes, status, failed)
      ensures pindexNew == TipOf(chainActive.vChain) && chainActive.vChain != [] ==> failed == NULL
    {
      hide Placed, CoreOk, Pruned, Shaped, Clean, Below, InPath;
      if chainActive.vChain != [] {
        TipInPath(State(), genesis, connects);
      }
      BelowStarts(State(), pindexNew, genesis, connects);
      BelowKnown(State(), pindexNew, pindexNew);
      var pindexTest := pindexNew;
      while pindexTest != NULL && !chainActive.Contains(nodes, pindexTest)
        invariant pindexTest != NULL ==> pindexTest in nodes && Below(State(), pindexNew, pindexTest)
        invariant (pindexTest == NULL || Clean(nodes, status, pindexTest)) ==> Clean(nodes, status, pindexNew)
        invariant pindexNew == TipOf(chainActive.vChain) && chainActive.vChain != [] ==> pindexTest == pindexNew
        decreases if pindexTest == NULL then 0 else nodes[pindexTest].height + 1
      {
        BelowStep(State(), pindexNew, pindexTest, genesis, connects);
        BelowKnown(State(), pindexNew, pindexTest);
        assert status[pindexTest].haveData;
        assert status[pindexTest].nChainTx != 0;
        if status[pindexTest].Failed() {
          return pindexTest;
        }
        pindexTest := nodes[pindexTest].prev;
      }
      if pindexTest != NULL {
        ChainClean(State(), pindexTest, genesis, connects);
      }
      failed := NULL;
    }

    /** Mark and drop everything from a candidate down to its failed ancestor. */
    method MarkFailed(pindexNew: Ptr, pindexTest: Ptr, ghost t0: Tree)
      requires Valid() && WellFormed(State()) && pindexNew in candidates
      requires Below(State(), pindexNew, pindexTest) && !Clean(nodes, status, pindexTest)
      requires Shaped(t0.nodes) && t0.st.Keys == t0.nodes.Keys && Winnowed(t0, State())
      modifies this`status, this`candidates
      ensures Valid() && WellFormed(State()) && Winnowed(t0, State())
      ensures candidates <= old(candidates) && pindexNew !in candidates
    {
      hide Placed, CoreOk, Pruned, Shaped, Clean, Below, InPath, Winnowed, Ancestor;
      var pindexFailed := pindexNew;
      BelowKnown(State(), pindexNew, pindexTest);
      BelowStarts(State(), pindexNew, genesis, connects);
      while pindexFailed != pindexTest
        invariant Valid() && WellFormed(State()) && Winnowed(t0, State()) && candidates <= old(candidates)
        invariant pindexTest in nodes && !Clean(nodes, status, pindexTest)
        invariant pindexFailed in nodes && Below(State(), pindexFailed, pindexTest)
        invariant pindexFailed == pindexNew || pindexNew !in candidates
        decreases nodes[pindexFailed].height
      {
        BelowParent(State(), pindexFailed, pindexTest, genesis, connects);
        MarkOne(pindexFailed, pindexTest, t0);
        pindexFailed := nodes[pindexFailed].prev;
      }
      BelowKnown(State(), pindexTest, pindexTest);
      WinnowedClean(t0, State(), pindexTest);
      WinnowedDrop(t0, State(), pindexTest);
      DropUnclean(State(), pindexTest, genesis, connects);
      candidates := candidates - {pindexTest};
    }

    method MarkOne(c: Ptr, ghost test: Ptr, ghost t0: Tree)
      requires Valid() && WellFormed(State()) && c in nodes && c in status && status[c].Linked()
      requires test in nodes && !Clean(nodes, status, test) && nodes[c].prev in nodes
               && Below(State(), nodes[c].prev, test)
      requires !Clean(nodes, status, c)
      requires Shaped(t0.nodes) && t0.st.Keys == t0.nodes.Keys && Winnowed(t0, State())
      modifies this`status, this`candidates
      ensures Valid() && WellFormed(State()) && Winnowed(t0, State()) && candidates == old(candidates) - {c}
      ensures !Clean(nodes, status, test) && Below(State(), nodes[c].prev, test)
    {
      hide Placed, CoreOk, Pruned, Shaped, Clean, InPath, Winnowed, Ancestor;
      WinnowedClean(t0, State(), c);
      WinnowedMark(t0, State(), c);
      MarkChild(State(), c, genesis, connects);
      status := status[c := status[c].(failedChild := true)];
      candidates := candidates - {c};
      CoreIsKnown(State(), [], genesis, connects);
    }

    /** The candidate with the most work that has no failed ancestor, null if there is none. */
    method FindMostWorkChain() returns (best: Ptr)
      requires Valid() && WellFormed(State())
      modifies this`status, this`candidates, this`bestInvalid
      ensures Valid() && WellFormed(State()) && Winnowed(old(State()), State())
      ensures best == NULL ==> candidates == {} && chainActive.vChain == []
      ensures best != NULL ==> IsBest(State(), best) && best in nodes && Clean(nodes, status, best)
      ensures best != NULL ==> FirstBest(State(), best)
      ensures old(Unbeaten(State())) ==> best == TipOf(chainActive.vChain) && State() == old(State())
      ensures bestInvalid == old(bestInvalid) || MoreThan(nodes, bestInvalid, old(bestInvalid))
    {
      ghost var t0 := State();
      hide Placed, CoreOk, Pruned, Shaped, Clean, Below, InPath, Winnowed, FirstBest, MostWork;
      WinnowedStarts(t0);
      best := NULL;
      while candidates != {}
        invariant Valid() && WellFormed(State()) && Winnowed(t0, State())
        invariant Unbeaten(t0) ==> State() == t0
        invariant bestInvalid == old(bestInvalid) || MoreThan(nodes, bestInvalid, old(bestInvalid))
        decreases |candidates|
      {
        CandidatesKnown(State(), genesis, connects);
        ghost var last := BestExists(nodes, status, candidates);
        var pindexNew :| pindexNew in candidates
            && forall c | c in candidates && c != pindexNew :: Worse(nodes, status, c, pindexNew);
        OneIsFirst(State(), pindexNew, genesis, connects);
        var pindexTest := FirstFailed(pindexNew);
        if pindexTest == NULL {
          return pindexNew;
        }
        if bestInvalid == NULL || nodes[pindexNew].work > nodes[bestInvalid].work {
          MoreTrans(nodes, pindexNew, bestInvalid, old(bestInvalid));
          bestInvalid := pindexNew;
        }
        ghost var before := candidates;
        MarkFailed(pindexNew, pindexTest, t0);
        SmallerSet(candidates, before, pindexNew);
      }
      NoCandidateNoChain(State(), genesis, connects);
    }

    /** Candidates worse than the tip go; some candidate is always left. */
    method PruneBlockIndexCandidates()
      requires CoreOk(State(), [], genesis, connects) && WellFormed(State()) && chainActive.vChain != [] && BestOk()
               && Placed()
      modifies this`candidates
      ensures Valid() && WellFormed(State()) && candidates != {}
      ensures TipOf(chainActive.vChain) in nodes && nodes.Keys == status.Keys
      ensures forall c ::
              c in candidates
              <==> c in old(candidates) && c in nodes && !Worse(nodes, status, c, TipOf(chainActive.vChain))
    {
      ghost var t0 := State();
      hide Placed, CoreOk, Shaped, TipOf, Worse, OnlyWorseGone;
      ChainIsPath(t0, genesis, connects);
      CandidatesKnown(t0, genesis, connects);
      EraseWorse();
      AllWorseGone(t0, candidates);
      PruneKeepsCore(t0, candidates, genesis, connects);
      assert State() == t0.(cand := candidates);
    }

    /** The loop of PruneBlockIndexCandidates: from the worst candidate up. */
    method EraseWorse()
      requires WellFormed(State()) && chainActive.vChain != [] && candidates <= nodes.Keys
      modifies this`candidates
      ensures OnlyWorseGone(old(State()), candidates)
      ensures forall c | c in candidates :: c in nodes && !Worse(nodes, status, c, TipOf(chainActive.vChain))
    {
      hide Shaped, Worse, OnlyWorseGone, Placed;
      ghost var t0 := State();
      var tip := chainActive.Tip();
      NothingGone(t0);
      var pruning := true;
      while pruning && candidates != {}
        invariant candidates <= nodes.Keys && OnlyWorseGone(t0, candidates)
        invariant !pruning ==> forall c | c in candidates :: !Worse(nodes, status, c, tip)
        decreases |candidates|, pruning
      {
        ghost var first := WorstExists(nodes, status, candidates);
        var it :| it in candidates && forall c | c in candidates && c != it :: Worse(nodes, status, it, c);
        if Worse(nodes, status, it, tip) {
          SmallerSet(candidates - {it}, candidates, it);
          OneMoreGone(t0, candidates, it);
          candidates := candidates - {it};
        } else {
          NoneBelow(nodes, status, candidates, it, tip);
          pruning := false;
        }
      }
    }

    // ---------- moving the tip ----------

    /** Disconnect the tip, first from the coins. The undo data is always right. */
    method DisconnectTip(disk: Disk) returns (done: bool)
      requires Valid() && WellFormed(State()) && |chainActive.vChain| > 1 && Coupled(false)
      modifies chainActive, coins, coins.view`cacheCoins, coins.view`hashBlock, coins.view.lower`cacheCoins
      ensures Valid() && WellFormed(State()) && done == disk.Fine? && Coupled(disk.CannotFlush?)
      ensures chainActive.vChain ==
              if done then old(chainActive.vChain)[..|old(chainActive.vChain)| - 1] else old(chainActive.vChain)
    {
      ghost var t0 := State();
      hide CoreOk, Shaped, Path, Pruned, PartOf, Answers, CoinsAt, CoinsTip.Valid;
      ChainIsPath(t0, genesis, connects);
      DisconnectKeepsCore(t0, genesis, connects);
      PathOfParent(nodes, t0.chain);
      TopOfChain(t0, genesis, connects);
      var tip := chainActive.Tip();
      PlacedAt(nodes, coins.w, connects, tip);
      if disk.CannotRead? || disk.CannotIndex? {
        return false;
      }
      coins.Disconnect(tip);
      if disk.CannotFlush? {
        return false;
      }
      chainActive.SetTip(nodes, nodes[tip].prev);
      assert State() == t0.(chain := t0.chain[..|t0.chain| - 1]);
      CoreIsKnown(State(), [], genesis, connects);
      done := true;
    }

    /** InvalidBlockFound: the block is marked and dropped. */
    method RefuseBlock(b: Ptr)
      requires Valid() && WellFormed(State()) && b in nodes && b in status && status[b].Linked() && !connects(b)
      modifies this`status, this`candidates, this`bestInvalid
      ensures Valid() && WellFormed(State())
      ensures State() == old(State()).(st := WithFailedValid(old(status), b), cand := old(candidates) - {b})
      ensures bestInvalid == if MoreThan(nodes, b, old(bestInvalid)) then b else old(bestInvalid)
    {
      hide MostWork, CoreOk, Pruned, Shaped, Placed;
      KnownPointers(State(), b);
      LinkedDataKnown(State(), b, genesis, connects);
      MarkInvalid(State(), b, genesis, connects);
      status := status[b := status[b].(failedValid := true)];
      candidates := candidates - {b};
      if bestInvalid == NULL || nodes[b].work > nodes[bestInvalid].work {
        bestInvalid := b;
      }
      CoreIsKnown(State(), [], genesis, connects);
    }

    /** The coins accept a block exactly when it connects, wherever that is asked. */
    method TryCoins(b: Ptr, keep: bool) returns (accepted: bool)
      requires Placed() && b in nodes && coins.Valid() && coins.at == nodes[b].prev
      modifies coins, coins.view`cacheCoins, coins.view`hashBlock, coins.view.lower`cacheCoins
      ensures coins.Valid() && accepted == connects(b) && coins.at == if accepted && keep then b else old(coins.at)
    {
      hide PartOf, Answers, CoinsAt, CoinsTip.Valid;
      PlacedAt(nodes, coins.w, connects, b);
      accepted := coins.Connect(b, keep);
    }

    /**
     * Connect a block on top of the tip, first to the coins. A block they refuse is marked and
     * dropped.
     */
    method ConnectTip(b: Ptr, disk: Disk) returns (r: Outcome)
      requires Valid() && WellFormed(State()) && b in nodes && b in status && status[b].Linked()
      requires nodes[b].prev == TipOf(chainActive.vChain) && Coupled(false)
      modifies this`status, this`candidates, this`bestInvalid, this`floor, chainActive
      modifies coins, coins.view`cacheCoins, coins.view`hashBlock, coins.view.lower`cacheCoins
      ensures CoreOk(State(), [], genesis, connects) && BestOk() && Placed() && WellFormed(State())
              && (r != Connected ==> Valid())
      ensures r ==
              if disk.CannotRead? then SystemError
              else if !connects(b) then Invalid
              else if disk.Fine? then Connected
              else SystemError
      ensures State() == AfterConnect(old(State()), b, r, !disk.CannotRead?, connects)
      ensures Coupled(r == SystemError && disk.CannotFlush?)
    {
      ghost var t0 := State();
      hide MostWork, CoreOk, Pruned, Shaped, Path, Raised, BetterOf, TipOf, Placed, CoinsTip.Valid;
      if disk.CannotRead? {
        return SystemError;
      }
      TipIsOther(t0, b, genesis, connects);
      var accepted := TryCoins(b, !disk.CannotIndex?);
      if !accepted {
        RefuseBlock(b);
        return Invalid;
      }
      ChainIsPath(t0, genesis, connects);
      RaiseKeepsCore(t0, b, genesis, connects);
      RaiseBlock(b);
      CoreIsKnown(State(), [], genesis, connects);
      r := SystemError;
      if disk.Fine? {
        Extend(b);
        TipOfMore(t0.chain, b);
        r := Connected;
      }
    }

    /** ConnectBlock raises the validity of a block, genesis apart. */
    method RaiseBlock(b: Ptr)
      requires WellFormed(State()) && b in nodes
      modifies this`status
      ensures State() == old(State()).(st := Raised(old(State()), b))
    {
      if nodes[b].prev != NULL && !(!status[b].Failed() && status[b].level >= VALID_SCRIPTS) {
        status := status[b := status[b].Raise(VALID_SCRIPTS)];
      } else {
        assert status == status[b := status[b]];
      }
    }

    /** UpdateTip. */
    method Extend(b: Ptr)
      requires CoreOk(State(), [], genesis, connects) && WellFormed(State()) && BestOk() && Next(State(), b, connects)
      requires chainActive.vChain != [] ==> status[b].level >= VALID_SCRIPTS
      requires floor == NULL || floor in nodes
      modifies this`floor, chainActive
      ensures CoreOk(State(), [], genesis, connects) && WellFormed(State()) && BestOk()
      ensures State() == old(State()).(chain := old(State()).chain + [b], floor := BetterOf(old(State()), b))
    {
      ghost var t0 := State();
      hide CoreOk, Pruned, Shaped, Path, BetterOf, IsPath;
      ChainIsPath(t0, genesis, connects);
      NextKnown(t0, b, connects);
      ConnectKeepsCore(t0, b, genesis, connects);
      PathOfChild(nodes, t0.chain, b);
      floor := BetterOf(t0, b);
      chainActive.SetTip(nodes, b);
      CoreIsKnown(State(), [], genesis, connects);
    }

    // ---------- one step towards a better chain ----------

    /** The chain is the first n blocks of v. */
    ghost predicate CutTo(v: seq<Ptr>, n: nat)
      reads chainActive
    {
      n <= |v| && chainActive.vChain == v[..n] && chainActive.Tip() == if n == 0 then NULL else v[n - 1]
    }

    /** One round of the loop of ActivateBestChainStep that disconnects blocks. */
    method DisconnectOne(ghost v: seq<Ptr>, ghost n: nat) returns (ok: bool, ghost lost: bool)
      requires Valid() && WellFormed(State()) && CutTo(v, n) && n > 1 && Coupled(false)
      modifies chainActive, coins, coins.view`cacheCoins, coins.view`hashBlock, coins.view.lower`cacheCoins
      ensures Valid() && WellFormed(State()) && CutTo(v, if ok then n - 1 else n) && Coupled(lost) && (lost ==> !ok)
    {
      var disk: Disk := *;
      hide Valid, WellFormed, Coupled;
      ok := DisconnectTip(disk);
      lost := disk.CannotFlush?;
      assert ok ==> v[..n][..n - 1] == v[..n - 1];
    }

    /** Disconnect the blocks above the fork point. */
    method DisconnectTo(fork: Ptr, ghost v: seq<Ptr>, ghost k: nat) returns (ok: bool, ghost n: nat, ghost lost: bool)
      requires Valid() && WellFormed(State()) && v == chainActive.vChain && k <= |v| && Coupled(false)
      requires if fork == NULL then k == 0 && v == [] else k > 0 && v[k - 1] == fork
      modifies chainActive, coins, coins.view`cacheCoins, coins.view`hashBlock, coins.view.lower`cacheCoins
      ensures Valid() && WellFormed(State()) && k <= n && CutTo(v, n) && (ok ==> n == k)
      ensures Coupled(lost) && (lost ==> !ok)
    {
      hide Placed, CoreOk, Shaped, Pruned, IsPath, Valid, WellFormed, Coupled;
      n, ok, lost := |v|, true, false;
      Keys();
      assert v[..n] == v;
      ghost var shape := nodes;
      while ok && chainActive.Tip() != NULL && chainActive.Tip() != fork
        invariant Valid() && WellFormed(State()) && k <= n && CutTo(v, n) && Coupled(lost) && (lost ==> !ok)
        decreases n, ok
      {
        AtFork(shape, v, n, k);
        ok, lost := DisconnectOne(v, n);
        n := if ok then n - 1 else n;
      }
      AtFork(shape, v, n, k);
    }

    /** The blocks from M's ancestor at `top` down to just above `bottom`. */
    method PathDown(M: Ptr, bottom: int, top: nat) returns (v: seq<Ptr>)
      requires Shaped(nodes) && Skips(nodes) && M in nodes && -1 <= bottom <= top <= nodes[M].height
      ensures |v| == top - bottom && Downwards(Path(nodes, M), top, v)
    {
      hide Placed, Path, Shaped, Ancestor, Skips, IsPath, Downwards;
      ghost var path := Path(nodes, M);
      PathIsPath(nodes, M);
      PathIsAncestors(nodes, M, top);
      NoNull(nodes);
      var pindexIter := GetAncestor(nodes, M, top);
      v := [];
      DownwardsStarts(path, top);
      while pindexIter != NULL && nodes[pindexIter].height != bottom
        invariant |v| <= top - bottom && Downwards(path, top, v)
        invariant if pindexIter == NULL then bottom == -1 && |v| == top + 1
                  else AtHeight(nodes, path, pindexIter, top - |v|)
        decreases top + 1 - |v|
      {
        OneDown(nodes, path, pindexIter, top - |v|);
        DownwardsStep(path, top, v);
        v := v + [pindexIter];
        pindexIter := nodes[pindexIter].prev;
      }
    }

    /** The chain is on its way along the path to the target; t0 and oldTip are where the step began. */
    ghost predicate Underway(oldTip: Ptr, t0: Tree, path: seq<Ptr>)
      reads this, chainActive
    {
      && Valid() && WellFormed(State())
      && Route(t0, path) && Judging(t0, State()) && Dropped(t0, State())
      && |chainActive.vChain| <= |path| && chainActive.vChain == path[..|chainActive.vChain|]
      && oldTip == TipOf(t0.chain) && (oldTip == NULL || oldTip in nodes) && (oldTip == NULL <==> t0.chain == [])
    }

    lemma {:induction false} UnderwayParts(oldTip: Ptr, t0: Tree, path: seq<Ptr>)
      ensures Underway(oldTip, t0, path) <==>
              && Valid() && WellFormed(State()) && Route(t0, path) && Judging(t0, State()) && Dropped(t0, State())
              && |chainActive.vChain| <= |path| && chainActive.vChain == path[..|chainActive.vChain|]
              && oldTip == TipOf(t0.chain) && (oldTip == NULL || oldTip in nodes)
              && (oldTip == NULL <==> t0.chain == [])
    {
      hide Placed, Valid, WellFormed, Route, Judging, Dropped, TipOf;
    }

    /** Prune, and see whether the tip is better than the one the step began with. */
    method PruneAndCompare(oldTip: Ptr, ghost t0: Tree) returns (better: bool)
      requires CoreOk(State(), [], genesis, connects) && WellFormed(State()) && chainActive.vChain != [] && BestOk()
               && Placed()
      requires Judging(t0, State()) && Dropped(t0, State())
      requires oldTip == TipOf(t0.chain) && (oldTip == NULL || oldTip in nodes) && (oldTip == NULL <==> t0.chain == [])
      modifies this`candidates
      ensures Valid() && WellFormed(State()) && Judging(t0, State()) && Dropped(t0, State())
              && (better ==> Advanced(t0, State()))
    {
      hide Placed, CoreOk, Shaped, Pruned, Judging, Dropped, MoreWork, Advanced, Worse;
      ghost var t := State();
      JudgedNodes(t0, t);
      PruneBlockIndexCandidates();
      PruningJudges(t0, t, candidates);
      DroppedPruned(t0, t, candidates);
      better := oldTip == NULL || nodes[chainActive.Tip()].work > nodes[oldTip].work;
      if better {
        MoreWorkIs(t0, State());
      }
    }

    /** Connect the next block, and prune. */
    method ConnectNext(b: Ptr, oldTip: Ptr, ghost t0: Tree, ghost path: seq<Ptr>)
      returns (r: Progress, ghost lost: bool)
      requires Underway(oldTip, t0, path) && Coupled(false) && |chainActive.vChain| < |path|
               && b == path[|chainActive.vChain|]
      modifies this`status, this`candidates, this`bestInvalid, this`floor, chainActive
      modifies coins, coins.view`cacheCoins, coins.view`hashBlock, coins.view.lower`cacheCoins
      ensures Underway(oldTip, t0, path) && Coupled(lost) && (lost ==> r == Fail)
      ensures |old(chainActive.vChain)| <= |chainActive.vChain|
      ensures r == Continue ==> |chainActive.vChain| == |old(chainActive.vChain)| + 1
      ensures r == Stop ==> Advanced(t0, State())
    {
      hide Placed, Coupled, Underway, CoreOk, Shaped, Pruned, Route, Judging, Dropped, TipOf, Raised, BetterOf,
           MoreWork, Advanced;
      ghost var t := State();
      UnderwayParts(oldTip, t0, path);
      RouteStep(t0, t, path, |t.chain|);
      ChainIsPath(t, genesis, connects);
      TipOfPrefix(path, |t.chain|);
      var disk: Disk := *;
      var outcome := ConnectTip(b, disk);
      lost := outcome == SystemError && disk.CannotFlush?;
      ConnectJudges(t0, t, b, outcome, !disk.CannotRead?, connects);
      ConnectDrops(t0, t, b, outcome, !disk.CannotRead?, genesis, connects);
      r := Continue;
      if outcome == Connected {
        TipOfPrefix(path, |chainActive.vChain|);
        var better := PruneAndCompare(oldTip, t0);
        r := if better then Stop else Continue;
      } else {
        r := if outcome == Invalid then Stop else Fail;
      }
      UnderwayParts(oldTip, t0, path);
    }

    /** The inner loop: connect a batch, lowest block first. */
    method ConnectBatch(v: seq<Ptr>, oldTip: Ptr, ghost top: nat, ghost t0: Tree, ghost path: seq<Ptr>)
      returns (r: Progress, ghost lost: bool)
      requires Underway(oldTip, t0, path) && Coupled(false) && Downwards(path, top, v)
               && |chainActive.vChain| + |v| == top + 1
      modifies this`status, this`candidates, this`bestInvalid, this`floor, chainActive
      modifies coins, coins.view`cacheCoins, coins.view`hashBlock, coins.view.lower`cacheCoins
      ensures Underway(oldTip, t0, path) && Coupled(lost) && (lost ==> r == Fail)
      ensures |old(chainActive.vChain)| <= |chainActive.vChain|
      ensures r == Continue ==> |chainActive.vChain| == top + 1
      ensures r == Stop ==> Advanced(t0, State())
    {
      hide Coupled, Underway, Valid, CoreOk, Pruned, WellFormed, Route, Judging, TipOf, Advanced, Downwards, Shaped;
      ghost var bottom := |chainActive.vChain|;
      r, lost := Continue, false;
      var i := |v|;
      while i > 0 && r == Continue
        invariant Underway(oldTip, t0, path) && Coupled(lost) && (lost ==> r == Fail)
        invariant 0 <= i <= |v| && bottom <= |chainActive.vChain|
        invariant r == Continue ==> |chainActive.vChain| + i == top + 1
        invariant r == Stop ==> Advanced(t0, State())
      {
        i := i - 1;
        DownwardsAt(path, top, v, i);
        r, lost := ConnectNext(v[i], oldTip, t0, path);
      }
    }

    /** Connect the blocks up to M, at most 32 at a time, until things got better. */
    method ConnectPath(M: Ptr, start: int, oldTip: Ptr, ghost t0: Tree, ghost path: seq<Ptr>)
      returns (r: Progress, ghost lost: bool)
      requires Underway(oldTip, t0, path) && Coupled(false) && start + 1 == |chainActive.vChain|
      requires Shaped(nodes) && Skips(nodes) && M in nodes && path == Path(nodes, M)
      modifies this`status, this`candidates, this`bestInvalid, this`floor, chainActive
      modifies coins, coins.view`cacheCoins, coins.view`hashBlock, coins.view.lower`cacheCoins
      ensures Underway(oldTip, t0, path) && Coupled(lost) && (lost ==> r == Fail)
      ensures |old(chainActive.vChain)| <= |chainActive.vChain|
      ensures r == Continue ==> |chainActive.vChain| == |path|
      ensures r == Stop ==> Advanced(t0, State())
    {
      hide Coupled, Underway, Valid, CoreOk, Pruned, WellFormed, Route, Judging, TipOf, Advanced, Downwards, Shaped,
           Skips, Path;
      ghost var bottom := |chainActive.vChain|;
      UnderwayParts(oldTip, t0, path);
      r, lost := Continue, false;
      var nHeight := start;
      while r == Continue && nHeight != nodes[M].height
        invariant Underway(oldTip, t0, path) && nodes == old(nodes) && Coupled(lost) && (lost ==> r == Fail)
        invariant bottom <= |chainActive.vChain| && -1 <= nHeight <= nodes[M].height
        invariant r == Continue ==> |chainActive.vChain| == nHeight + 1
        invariant r == Stop ==> Advanced(t0, State())
        decreases nodes[M].height - nHeight
      {
        var nTargetHeight := if nHeight + 32 < nodes[M].height then nHeight + 32 else nodes[M].height;
        var vpindexToConnect := PathDown(M, nHeight, nTargetHeight);
        nHeight := nTargetHeight;
        r, lost := ConnectBatch(vpindexToConnect, oldTip, nTargetHeight, t0, path);
      }
    }

    /** The reorganisation would undo a block buried too deep. */
    ghost predicate TooDeepFor(M: Ptr)
      requires Shaped(nodes) && M in nodes
      reads this, chainActive
    {
      && chainActive.vChain != [] && |chainActive.vChain| - 1 >= lwma3ForkHeight
      && |chainActive.vChain| - CommonLen(chainActive.vChain, Path(nodes, M)) > MAX_REORG_DEPTH
    }

    /**
     * Refused is exactly what would undo the block 100 below the tip: one M does not descend from, though
     * the chain is that long and has reached the height from which the rule holds.
     */
    lemma {:induction false} TooDeepExactly(M: Ptr)
      requires Shaped(nodes) && M in nodes
      ensures TooDeepFor(M) <==>
              && |chainActive.vChain| > lwma3ForkHeight && |chainActive.vChain| > 100
              && !KeepsFirst(chainActive.vChain, Path(nodes, M), |chainActive.vChain| - 100)
    {
      hide Shaped, Path, KeepsFirst;
      if |chainActive.vChain| > 100 {
        CommonExactly(chainActive.vChain, Path(nodes, M), |chainActive.vChain| - 100);
      }
    }

    /** Some progress towards making M the tip, unless that is a reorganisation too deep. */
    method ActivateBestChainStep(M: Ptr) returns (r: StepResult, ghost lost: bool)
      requires Valid() && WellFormed(State()) && M in candidates && M in nodes && Clean(nodes, status, M)
               && Coupled(false)
      modifies this`status, this`candidates, this`bestInvalid, this`floor, chainActive
      modifies coins, coins.view`cacheCoins, coins.view`hashBlock, coins.view.lower`cacheCoins
      ensures KeepsFirst(old(chainActive.vChain), chainActive.vChain,
                         CommonLen(old(chainActive.vChain), Path(nodes, M)))
      ensures r == TooDeep <==> old(TooDeepFor(M))
      ensures r == TooDeep ==> State() == old(State())
      ensures Coupled(lost) && (lost ==> r == Broken)
      ensures Valid() && WellFormed(State()) && Judging(old(State()), State()) && Dropped(old(State()), State())
      ensures old(Stocked(State())) ==> (Stocked(State()) <==> TipNotBelow(old(State()), State()))
      ensures r == Stepped ==> Advanced(old(State()), State()) || TipOf(chainActive.vChain) == M
      ensures |old(chainActive.vChain)| - 1 >= lwma3ForkHeight && |old(chainActive.vChain)| >= MAX_REORG_DEPTH ==>
                KeepsFirst(old(chainActive.vChain), chainActive.vChain, |old(chainActive.vChain)| - MAX_REORG_DEPTH)
    {
      hide Placed, CoreOk, Pruned, Shaped, Skips, Clean, CommonLen, Path, IsFork, Apart, Route, Judging, Dropped,
           Advanced, IsPath, KeepsFirst;
      hide Stocked, TipNotBelow, Coupled;
      ghost var t0, path := State(), Path(nodes, M);
      var pindexOldTip := chainActive.Tip();
      ChainIsPath(t0, genesis, connects);
      RouteTo(t0, M, genesis, connects);
      PathIsPath(nodes, M);
      var pindexFork := chainActive.FindFork(nodes, M);
      ForkLength(t0, M, pindexFork, genesis, connects);
      var refuse := ReorgTooDeep(M, pindexFork, pindexOldTip);
      JudgingStarts(t0);
      DroppedNothing(t0, t0, genesis, connects);
      KeepsAll(t0.chain);
      KeepsFewer(t0.chain, t0.chain, |t0.chain|, CommonLen(t0.chain, path));
      r, lost := TooDeep, false;
      ghost var k := |t0.chain|;
      if !refuse {
        k := CommonLen(t0.chain, path);
        r, lost := Reorganize(M, pindexFork, pindexOldTip, t0, path);
      }
      assert KeepsFirst(t0.chain, chainActive.vChain, k);
      if |t0.chain| - 1 >= lwma3ForkHeight && |t0.chain| >= MAX_REORG_DEPTH {
        KeepsFewer(t0.chain, chainActive.vChain, k, |t0.chain| - MAX_REORG_DEPTH);
      }
      if Stocked(t0) {
        StockedExactly(t0, State(), genesis, connects);
      }
    }

    /** The fork rule at the head of ActivateBestChainStep. */
    method ReorgTooDeep(M: Ptr, pindexFork: Ptr, pindexOldTip: Ptr) returns (b: bool)
      requires Shaped(nodes) && IsPath(nodes, chainActive.vChain) && M in nodes
               && pindexOldTip == TipOf(chainActive.vChain)
      requires var k := CommonLen(chainActive.vChain, Path(nodes, M));
               if pindexFork == NULL then chainActive.vChain == []
               else chainActive.vChain != [] && pindexFork in nodes && k == nodes[pindexFork].height + 1
      ensures b == TooDeepFor(M)
    {
      b := false;
      if pindexFork != NULL && pindexOldTip != NULL && nodes[pindexOldTip].height >= lwma3ForkHeight {
        var reorgDepth := nodes[pindexOldTip].height - nodes[pindexFork].height;
        b := reorgDepth > MAX_REORG_DEPTH;
      }
    }

    /** The rest of ActivateBestChainStep: disconnect down to the fork, connect up towards M. */
    method Reorganize(M: Ptr, pindexFork: Ptr, pindexOldTip: Ptr, ghost t0: Tree, ghost path: seq<Ptr>)
        returns (r: StepResult, ghost lost: bool)
      requires Valid() && WellFormed(State()) && Shaped(nodes) && Skips(nodes) && Coupled(false)
      requires M in nodes && t0 == State() && path == Path(nodes, M) && Route(t0, path)
      requires pindexOldTip == TipOf(t0.chain) && (pindexOldTip == NULL || pindexOldTip in nodes)
               && (pindexOldTip == NULL <==> t0.chain == [])
      requires var k := CommonLen(t0.chain, path);
               && KeepsFirst(t0.chain, path, k)
               && if pindexFork == NULL then k == 0 && t0.chain == []
                  else pindexFork in nodes && k == nodes[pindexFork].height + 1 && t0.chain[k - 1] == pindexFork
      modifies this`status, this`candidates, this`bestInvalid, this`floor, chainActive
      modifies coins, coins.view`cacheCoins, coins.view`hashBlock, coins.view.lower`cacheCoins
      ensures Coupled(lost) && (lost ==> r == Broken)
      ensures Valid() && WellFormed(State()) && Judging(t0, State()) && Dropped(t0, State()) && r != TooDeep
      ensures t0.chain != [] ==> chainActive.vChain != []
      ensures KeepsFirst(t0.chain, chainActive.vChain, CommonLen(t0.chain, path))
      ensures r == Stepped ==> Advanced(t0, State()) || TipOf(chainActive.vChain) == M
    {
      hide Placed, CoreOk, Pruned, Valid, WellFormed, Shaped, Skips, CommonLen, Path, Route, Judging, Dropped, Advanced,
           TipOf, Underway, Coupled;
      ghost var k := CommonLen(t0.chain, path);
      var ok: bool;
      ghost var n: nat;
      ok, n, lost := DisconnectTo(pindexFork, t0.chain, k);
      MovingJudges(t0, State());
      MovingDrops(t0);
      PrefixKept(t0.chain, chainActive.vChain, n, k);
      r := Broken;
      if ok {
        PrefixKept(path, chainActive.vChain, k, k);
        UnderwayParts(pindexOldTip, t0, path);
        var p: Progress;
        p, lost := ConnectPath(M, if pindexFork != NULL then nodes[pindexFork].height else -1, pindexOldTip, t0, path);
        UnderwayParts(pindexOldTip, t0, path);
        TipOfPath(nodes, M);
        if p != Fail {
          r := Stepped;
        }
      }
    }

    lemma {:induction false} MovingDrops(t0: Tree)
      requires Valid() && t0.cand == candidates
      ensures Dropped(t0, State())
    {
      hide Placed, CoreOk, Pruned, Dropped;
      DroppedNothing(t0, State(), genesis, connects);
    }

    // ---------- the whole activation ----------

    /** FindMostWorkChain and one step towards what it found. */
    method ActivateRound() returns (ok: bool, done: bool, ghost lost: bool)
      requires Valid() && WellFormed(State()) && Coupled(false)
      modifies this`status, this`candidates, this`bestInvalid, this`floor, chainActive
      modifies coins, coins.view`cacheCoins, coins.view`hashBlock, coins.view.lower`cacheCoins
      ensures Coupled(lost) && (lost ==> done && !ok)
      ensures Valid() && WellFormed(State()) && Judging(old(State()), State())
      ensures done && ok ==> Active(State()) && (chainActive.vChain == [] || Unbeaten(State()))
      ensures !done ==> ok && Closer(old(State()), State())
      ensures old(Unbeaten(State())) ==> done && ok && State() == old(State())
    {
      hide CoreOk, Pruned, WellFormed, Shaped, Clean, Judging, Winnowed, Advanced, IsBest, CommonLen, Path, TipOf,
           Active, Closer, Worse;
      hide Coupled, Placed, Unbeaten, FirstBest;
      ghost var t0 := State();
      ChainIsPath(t0, genesis, connects);
      ok, done, lost := true, true, false;
      var pindexMostWork := FindMostWorkChain();
      ghost var t1 := State();
      WinnowedMeasure(t0, t1);
      TipNow();
      if pindexMostWork == NULL {
        NothingIsActive(t1, genesis, connects);
      } else if pindexMostWork == chainActive.Tip() {
        JudgingStarts(t1);
        BestIsActive(t1, t1, genesis, connects);
        BestIsUnbeaten(t1, t1, genesis, connects);
      } else {
        BestIsCandidate(t1, pindexMostWork);
        var r: StepResult;
        r, lost := ActivateBestChainStep(pindexMostWork);
        JudgingTrans(t0, t1, State());
        TipNow();
        ok := r == Stepped;
        if ok && chainActive.Tip() == pindexMostWork {
          BestIsActive(t1, State(), genesis, connects);
          BestIsUnbeaten(t1, State(), genesis, connects);
        } else if ok {
          done := false;
          ChainIsPath(t1, genesis, connects);
          CloserBy(t0, t1, State());
        }
      }
    }

    lemma {:induction false} AllThere()
      requires Valid() && Active(State())
      ensures Stocked(State())
    {
      hide Placed, CoreOk, Pruned, Active, Stocked;
      ActiveIsStocked(State(), genesis, connects);
    }

    /**
     * What an active chain and coins in step with it are: the coins are what replaying the chain
     * makes, and no block of which the same can be said, with all data there, has more work.
     */
    lemma {:induction false} ActiveCoins()
      requires Valid() && Coupled(false) && Active(State()) && chainActive.vChain != []
      ensures var tip := TipOf(chainActive.vChain);
              && tip in nodes && tip in coins.w.nodes && coins.w.Sensible() && coins.view.Valid()
              && coins.view.Best() == tip
              && CoinsAt(coins.w, tip) == Some(coins.view.Utxo())
              && status.Keys == nodes.Keys && PartOf(nodes, coins.w)
              && forall b | b in nodes && status[b].Linked() && CoinsAt(coins.w, b).Some? ::
                 nodes[b].work <= nodes[tip].work
    {
      hide CoreOk, Pruned, Active, CoinsAt;
      TipConnects(State(), genesis, connects);
      TipIsSet();
      ActiveChainIsBestValid(State(), coins.w, genesis, connects);
    }

    lemma {:induction false} TipIsSet()
      requires Valid() && chainActive.vChain != []
      ensures TipOf(chainActive.vChain) != NULL
    {
      hide CoreOk, Pruned, Placed;
      ChainIsPath(State(), genesis, connects);
    }

    /**
     * Coins adrift stop the node: the assertion of ConnectBlock that the view is at the parent fails
     * for every block on the tip, and that of DisconnectBlock fails for the tip itself.
     */
    lemma {:induction false} AdriftStops(b: Ptr)
      requires Valid() && Adrift() && b in nodes && nodes[b].prev == TipOf(chainActive.vChain)
      ensures coins.view.Valid() && coins.view.Best() != nodes[b].prev && coins.view.Best() != TipOf(chainActive.vChain)
    {}

    lemma {:induction false} TipNow()
      ensures chainActive.Tip() == TipOf(chainActive.vChain)
      ensures chainActive.Tip() != NULL ==> chainActive.vChain != []
    {}

    /**
     * Activate the best chain. It terminates, and when it succeeds the tip is the best block
     * whose data is complete and none of whose ancestors failed. A tip that no candidate beats
     * stays. The coins are those of the tip, unless the disk failed between moving them and
     * moving the tip.
     */
    method ActivateBestChain() returns (ok: bool, ghost lost: bool)
      requires Valid() && WellFormed(State()) && Coupled(false)
      modifies this`status, this`candidates, this`bestInvalid, this`floor, chainActive
      modifies coins, coins.view`cacheCoins, coins.view`hashBlock, coins.view.lower`cacheCoins
      ensures Coupled(lost) && (lost ==> !ok)
      ensures Valid() && WellFormed(State()) && Judging(old(State()), State())
      ensures ok ==> Active(State()) && Stocked(State()) && (chainActive.vChain == [] || Unbeaten(State()))
      ensures old(Unbeaten(State())) ==> State() == old(State())
    {
      hide Valid, WellFormed, Judging, Active, Closer, Stocked, Coupled, Unbeaten;
      ghost var t0 := State();
      JudgingStarts(t0);
      ok, lost := true, false;
      var done := false;
      while !done
        invariant Valid() && WellFormed(State()) && Judging(t0, State())
        invariant done && ok ==> Active(State()) && (chainActive.vChain == [] || Unbeaten(State()))
        invariant Unbeaten(t0) ==> State() == t0
        invariant Coupled(lost) && (lost ==> done && !ok)
        decreases !done, |NotFailed(State())|, |Heavier(State())|
      {
        ghost var t := State();
        ok, done, lost := ActivateRound();
        JudgingTrans(t0, t, State());
        CloserDecreases(t, State());
      }
      if ok {
        AllThere();
      }
      var flushed: bool := *;
      ok := ok && flushed;
    }
  }
}
