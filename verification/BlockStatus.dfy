/**
 * What the block tree knows about its blocks besides their shape, and the invariants that
 * tie it together: transaction counts, blocks waiting for a parent, failure flags, the order
 * candidates are sorted in.
 */
module BlockStatus {
  import opened BlockNodes
  import opened Chain

  const VALID_TREE: nat := 2
  const VALID_TRANSACTIONS: nat := 3
  const VALID_CHAIN: nat := 4
  const VALID_SCRIPTS: nat := 5

  /** The fields of CBlockIndex that change; nStatus is split into its parts. */
  datatype Status = Status(nTx: nat, nChainTx: nat, seqId: nat, haveData: bool, level: nat, failedValid: bool,
                           failedChild: bool)
  {
    predicate Failed() {
      failedValid || failedChild
    }

    predicate Linked() {
      nChainTx > 0
    }

    /** CBlockIndex::RaiseValidity. */
    function Raise(upTo: nat): Status {
      if !Failed() && level < upTo then this.(level := upTo) else this
    }
  }

  type Statuses = map<Ptr, Status>

  // ---------- the order of setBlockIndexCandidates ----------

  /** CBlockIndexWorkComparator: less work, or received later, or a higher address. */
  predicate Worse(nodes: Nodes, st: Statuses, a: Ptr, b: Ptr)
    requires a in nodes && b in nodes && a in st && b in st
  {
    if nodes[a].work != nodes[b].work then nodes[a].work < nodes[b].work
    else if st[a].seqId != st[b].seqId then st[a].seqId > st[b].seqId
    else a > b
  }

  lemma {:induction false} WorseIsTotalOrder(nodes: Nodes, st: Statuses, a: Ptr, b: Ptr, c: Ptr)
    requires {a, b, c} <= nodes.Keys && {a, b, c} <= st.Keys
    ensures a == b || Worse(nodes, st, a, b) || Worse(nodes, st, b, a)
    ensures !(Worse(nodes, st, a, b) && Worse(nodes, st, b, a))
    ensures Worse(nodes, st, a, b) && Worse(nodes, st, b, c) ==> Worse(nodes, st, a, c)
    ensures !Worse(nodes, st, a, b) && !Worse(nodes, st, b, c) ==> !Worse(nodes, st, a, c)
    ensures nodes[a].work < nodes[b].work ==> Worse(nodes, st, a, b)
    ensures nodes[a].work == nodes[b].work && st[a].seqId > st[b].seqId ==> Worse(nodes, st, a, b)
    ensures nodes[a].work == nodes[b].work && st[a].seqId == st[b].seqId && a > b ==> Worse(nodes, st, a, b)
  {}

  /** A nonempty set of blocks has a best one. */
  lemma {:induction false} BestExists(nodes: Nodes, st: Statuses, s: set<Ptr>) returns (best: Ptr)
    requires s != {} && s <= nodes.Keys && s <= st.Keys
    ensures best in s && forall c | c in s && c != best :: Worse(nodes, st, c, best)
    decreases |s|
  {
    var b :| b in s;
    if s == {b} {
      best := b;
    } else {
      var rest := s - {b};
      best := BestExists(nodes, st, rest);
      var other := best;
      if Worse(nodes, st, best, b) {
        best := b;
      }
      forall c | c in s && c != best
        ensures Worse(nodes, st, c, best)
      {
        WorseIsTotalOrder(nodes, st, c, other, b);
      }
    }
  }

  // ---------- transaction data ----------

  ghost predicate TreeOk(nodes: Nodes, st: Statuses, genesis: Ptr) {
    && Shaped(nodes) && Skips(nodes)
    && st.Keys == nodes.Keys
    && forall b {:trigger nodes[b].prev} | b in nodes :: nodes[b].prev == NULL <==> b == genesis
  }

  ghost predicate ParentLinked(nodes: Nodes, st: Statuses, b: Ptr)
    requires Shaped(nodes) && st.Keys == nodes.Keys && b in nodes
  {
    nodes[b].prev == NULL || st[nodes[b].prev].Linked()
  }

  /** nChainTx counts the transactions up to a block once all data up to it is there. */
  ghost predicate CountOk(nodes: Nodes, st: Statuses, b: Ptr)
    requires Shaped(nodes) && st.Keys == nodes.Keys && b in nodes
  {
    st[b].nChainTx ==
    if st[b].haveData && ParentLinked(nodes, st, b)
    then (if nodes[b].prev == NULL then 0 else st[nodes[b].prev].nChainTx) + st[b].nTx
    else 0
  }

  /** A block about to be linked. */
  ghost predicate Waiting(nodes: Nodes, st: Statuses, b: Ptr)
    requires Shaped(nodes) && st.Keys == nodes.Keys && b in nodes
  {
    st[b].haveData && !st[b].Linked() && ParentLinked(nodes, st, b)
  }

  /** No two linked blocks have the same sequence number. */
  ghost predicate Numbered(nodes: Nodes, st: Statuses)
    requires st.Keys == nodes.Keys
  {
    forall b, c | b in nodes && c in nodes && st[b].Linked() && st[c].Linked() && st[b].seqId == st[c].seqId :: b == c
  }

  /** The data part of CheckBlockIndex, but for the blocks of a work queue. */
  ghost predicate DataOk(nodes: Nodes, st: Statuses, nextSeq: nat, queue: set<Ptr>)
    requires Shaped(nodes) && st.Keys == nodes.Keys
  {
    && queue <= nodes.Keys
    && (forall b | b in nodes ::
          && (st[b].haveData <==> st[b].nTx > 0)
          && st[b].level >= VALID_TREE
          && (st[b].level >= VALID_TRANSACTIONS <==> st[b].nTx > 0)
          && (!st[b].Linked() ==> st[b].seqId == 0)
          && st[b].seqId < nextSeq)
    && Numbered(nodes, st)
    && (forall b | b in queue :: Waiting(nodes, st, b))
    && forall b {:trigger CountOk(nodes, st, b)} | b in nodes && b !in queue :: CountOk(nodes, st, b)
  }

  /** Every ancestor has its transactions. */
  ghost predicate AllData(nodes: Nodes, st: Statuses, b: Ptr)
    requires Shaped(nodes) && st.Keys == nodes.Keys && b in nodes
    decreases nodes[b].height
  {
    st[b].haveData && (nodes[b].prev == NULL || AllData(nodes, st, nodes[b].prev))
  }

  /** nChainTx is nonzero exactly when the block and all its ancestors have data. */
  lemma {:induction false} LinkedMeansAllData(nodes: Nodes, st: Statuses, nextSeq: nat, b: Ptr)
    requires Shaped(nodes) && st.Keys == nodes.Keys && DataOk(nodes, st, nextSeq, {}) && b in nodes
    ensures st[b].Linked() <==> AllData(nodes, st, b)
    decreases nodes[b].height
  {
    assert CountOk(nodes, st, b);
    if nodes[b].prev != NULL {
      LinkedMeansAllData(nodes, st, nextSeq, nodes[b].prev);
    }
  }

  /** Transactions of a block and all its ancestors. */
  ghost function TotalTx(nodes: Nodes, st: Statuses, b: Ptr): nat
    requires Shaped(nodes) && st.Keys == nodes.Keys && b in nodes
    decreases nodes[b].height
  {
    st[b].nTx + if nodes[b].prev == NULL then 0 else TotalTx(nodes, st, nodes[b].prev)
  }

  /** ... and then it is the number of transactions of the chain up to the block. */
  lemma {:induction false} LinkedCountsTransactions(nodes: Nodes, st: Statuses, nextSeq: nat, b: Ptr)
    requires Shaped(nodes) && st.Keys == nodes.Keys && DataOk(nodes, st, nextSeq, {}) && b in nodes
    requires st[b].Linked()
    ensures st[b].nChainTx == TotalTx(nodes, st, b)
    decreases nodes[b].height
  {
    assert CountOk(nodes, st, b);
    if nodes[b].prev != NULL {
      LinkedCountsTransactions(nodes, st, nextSeq, nodes[b].prev);
    }
  }

  /** A linked block has linked ancestors. */
  lemma {:induction false} LinkedAncestors(nodes: Nodes, st: Statuses, nextSeq: nat, b: Ptr, h: nat)
    requires Shaped(nodes) && st.Keys == nodes.Keys && DataOk(nodes, st, nextSeq, {}) && b in nodes
    requires st[b].Linked() && h <= nodes[b].height
    ensures st[Path(nodes, b)[h]].Linked()
    decreases nodes[b].height
  {
    assert CountOk(nodes, st, b);
    if h < nodes[b].height {
      LinkedAncestors(nodes, st, nextSeq, nodes[b].prev, h);
    }
  }

  // ---------- mapBlocksUnlinked ----------

  /** A multimap from parent to children, the children of one parent in insertion order. */
  type Multimap = map<Ptr, seq<Ptr>>

  ghost predicate Distinct(s: seq<Ptr>) {
    forall i, j | 0 <= i < j < |s| :: s[i] != s[j]
  }

  function Children(m: Multimap, p: Ptr): seq<Ptr> {
    if p in m then m[p] else []
  }

  /**
   * The unlinked multimap holds only blocks with data and a missing ancestor, each once and
   * under its parent, and it holds all of them whose parent can still get data.
   */
  ghost predicate UnlinkedOk(nodes: Nodes, st: Statuses, m: Multimap, queue: set<Ptr>)
    requires Shaped(nodes) && st.Keys == nodes.Keys
  {
    Listed(nodes, st, m, queue) && AllListed(nodes, st, m, queue)
  }

  ghost predicate Listed(nodes: Nodes, st: Statuses, m: Multimap, queue: set<Ptr>)
    requires Shaped(nodes) && st.Keys == nodes.Keys
  {
    && (forall p | p in m :: Distinct(m[p]))
    && forall p, c | p in m && c in m[p] ::
         c in nodes && nodes[c].prev == p && p != NULL && st[c].haveData && !st[c].Linked() && c !in queue
  }

  ghost predicate AllListed(nodes: Nodes, st: Statuses, m: Multimap, queue: set<Ptr>)
    requires Shaped(nodes) && st.Keys == nodes.Keys
  {
    forall c {:trigger nodes[c].prev} | c in nodes && st[c].haveData && !st[c].Linked() && c !in queue ::
      && nodes[c].prev != NULL
      && (c in Children(m, nodes[c].prev) || (st[nodes[c].prev].Failed() && !st[nodes[c].prev].haveData))
  }

  // ---------- failures ----------

  /** No ancestor failed validation. */
  ghost predicate Clean(nodes: Nodes, st: Statuses, b: Ptr)
    requires Shaped(nodes) && st.Keys == nodes.Keys && b in nodes
    decreases nodes[b].height
  {
    !st[b].failedValid && (nodes[b].prev == NULL || Clean(nodes, st, nodes[b].prev))
  }

  /** ConnectBlock accepts the block and all its ancestors. */
  ghost predicate AllConnect(nodes: Nodes, connects: Ptr -> bool, b: Ptr)
    requires Shaped(nodes) && b in nodes
    decreases nodes[b].height
  {
    connects(b) && (nodes[b].prev == NULL || AllConnect(nodes, connects, nodes[b].prev))
  }

  ghost predicate FailOk(nodes: Nodes, st: Statuses, connects: Ptr -> bool)
    requires Shaped(nodes) && st.Keys == nodes.Keys
  {
    forall b | b in nodes ::
      && (st[b].Failed() && st[b].haveData ==> st[b].Linked())
      && (st[b].failedValid && st[b].haveData ==> !connects(b))
      && (st[b].failedChild ==> !Clean(nodes, st, b))
  }

  /** Blocks that connect are never flagged. */
  lemma {:induction false} ConnectingIsClean(nodes: Nodes, st: Statuses, nextSeq: nat, connects: Ptr -> bool, b: Ptr)
    requires Shaped(nodes) && st.Keys == nodes.Keys && FailOk(nodes, st, connects) && DataOk(nodes, st, nextSeq, {})
    requires b in nodes && st[b].Linked() && AllConnect(nodes, connects, b)
    ensures Clean(nodes, st, b) && !st[b].Failed()
    decreases nodes[b].height
  {
    assert CountOk(nodes, st, b);
    if nodes[b].prev != NULL {
      ConnectingIsClean(nodes, st, nextSeq, connects, nodes[b].prev);
    }
  }

  /** st' judges more blocks than st and is otherwise the same. */
  ghost predicate OnlyJudged(st: Statuses, st': Statuses) {
    && st.Keys == st'.Keys
    && forall b | b in st ::
         && st'[b] ==
            st[b].(level := st'[b].level, failedValid := st'[b].failedValid, failedChild := st'[b].failedChild)
         && (st[b].failedValid ==> st'[b].failedValid)
         && (st[b].failedChild ==> st'[b].failedChild)
         && st[b].level <= st'[b].level
  }

  lemma {:induction false} CleanShrinks(nodes: Nodes, st: Statuses, st': Statuses, b: Ptr)
    requires Shaped(nodes) && st.Keys == nodes.Keys && OnlyJudged(st, st') && b in nodes
    ensures Clean(nodes, st', b) ==> Clean(nodes, st, b)
    decreases nodes[b].height
  {
    if nodes[b].prev != NULL {
      CleanShrinks(nodes, st, st', nodes[b].prev);
    }
  }

  /** Clean depends on nothing but the validity failures. */
  lemma {:induction false} CleanSame(nodes: Nodes, st: Statuses, st': Statuses, b: Ptr)
    requires Shaped(nodes) && st.Keys == nodes.Keys == st'.Keys && b in nodes
    requires forall c | c in st :: st'[c].failedValid == st[c].failedValid
    ensures Clean(nodes, st', b) == Clean(nodes, st, b)
    decreases nodes[b].height
  {
    if nodes[b].prev != NULL {
      CleanSame(nodes, st, st', nodes[b].prev);
    }
  }

  lemma {:induction false} CleanAncestors(nodes: Nodes, st: Statuses, b: Ptr, h: nat)
    requires Shaped(nodes) && st.Keys == nodes.Keys && b in nodes && h <= nodes[b].height
    requires Clean(nodes, st, b)
    ensures Clean(nodes, st, Path(nodes, b)[h])
    decreases nodes[b].height
  {
    if h < nodes[b].height {
      CleanAncestors(nodes, st, nodes[b].prev, h);
    }
  }

  // ---------- the active chain and the candidates ----------

  ghost predicate ChainOk(nodes: Nodes, st: Statuses, v: seq<Ptr>, connects: Ptr -> bool)
    requires Shaped(nodes) && st.Keys == nodes.Keys
  {
    && IsPath(nodes, v)
    && forall i | 0 <= i < |v| :: st[v[i]].Linked() && connects(v[i]) && (i > 0 ==> st[v[i]].level >= VALID_SCRIPTS)
  }

  /** A block known to be connectable has ancestors known to be, genesis apart. */
  ghost predicate LevelsOk(nodes: Nodes, st: Statuses)
    requires Shaped(nodes) && st.Keys == nodes.Keys
  {
    forall b {:trigger nodes[b].prev} | b in nodes && st[b].level >= VALID_CHAIN && nodes[b].prev != NULL ::
      nodes[nodes[b].prev].prev == NULL || st[nodes[b].prev].level >= VALID_SCRIPTS
  }

  lemma {:induction false} ChainConnects(nodes: Nodes, st: Statuses, v: seq<Ptr>, connects: Ptr -> bool, i: nat)
    requires Shaped(nodes) && st.Keys == nodes.Keys && ChainOk(nodes, st, v, connects) && i < |v|
    ensures AllConnect(nodes, connects, v[i])
  {
    if i > 0 {
      ChainConnects(nodes, st, v, connects, i - 1);
    }
  }

  /** Every candidate is linked and sorts no worse than the tip (null if there is none). */
  ghost predicate NoneWorse(nodes: Nodes, st: Statuses, cand: set<Ptr>, tip: Ptr)
    requires st.Keys == nodes.Keys && (tip == NULL || tip in nodes)
  {
    && (forall c | c in cand :: c in nodes && st[c].Linked())
    && (tip != NULL ==> forall c | c in cand :: !Worse(nodes, st, c, tip))
  }

  /** Every linked block without failed ancestors that is as good as `floor` is a candidate. */
  ghost predicate Complete(nodes: Nodes, st: Statuses, cand: set<Ptr>, floor: Ptr)
    requires Shaped(nodes) && st.Keys == nodes.Keys && (floor == NULL || floor in nodes)
  {
    forall b | b in nodes && st[b].Linked() && Clean(nodes, st, b) ::
      b in cand || (floor != NULL && Worse(nodes, st, b, floor))
  }

  /** The best tip there ever was: connectable, and never worse than the current one. */
  ghost predicate FloorOk(nodes: Nodes, st: Statuses, tip: Ptr, floor: Ptr, connects: Ptr -> bool)
    requires Shaped(nodes) && st.Keys == nodes.Keys && (tip == NULL || tip in nodes)
  {
    && (floor == NULL <==> tip == NULL)
    && (floor != NULL ==>
          && floor in nodes && st[floor].Linked() && AllConnect(nodes, connects, floor)
          && !Worse(nodes, st, floor, tip))
  }

  // ---------- the whole state ----------

  /** All that is known about the tree, as one value. */
  datatype Tree = Tree(nodes: Nodes, st: Statuses, cand: set<Ptr>, m: Multimap, nextSeq: nat, chain: seq<Ptr>,
                       floor: Ptr)

  function TipOf(chain: seq<Ptr>): Ptr {
    if chain == [] then NULL else chain[|chain| - 1]
  }

  function Elements(s: seq<Ptr>): set<Ptr> {
    set p | p in s
  }

  /**
   * The invariant, except that the blocks of a work queue are still to be linked and that
   * candidates worse than the tip may remain to be pruned.
   */
  ghost predicate CoreOk(t: Tree, queue: seq<Ptr>, genesis: Ptr, connects: Ptr -> bool) {
    && TreeOk(t.nodes, t.st, genesis)
    && t.nextSeq > 0
    && Distinct(queue)
    && DataOk(t.nodes, t.st, t.nextSeq, Elements(queue))
    && UnlinkedOk(t.nodes, t.st, t.m, Elements(queue))
    && FailOk(t.nodes, t.st, connects)
    && LevelsOk(t.nodes, t.st)
    && SelectionOk(t, connects)
  }

  ghost predicate SelectionOk(t: Tree, connects: Ptr -> bool)
    requires Shaped(t.nodes) && t.st.Keys == t.nodes.Keys
  {
    && ChainOk(t.nodes, t.st, t.chain, connects)
    && FloorOk(t.nodes, t.st, TipOf(t.chain), t.floor, connects)
    && Complete(t.nodes, t.st, t.cand, t.floor)
    && NoneWorse(t.nodes, t.st, t.cand, NULL)
  }

  ghost predicate Pruned(t: Tree)
    requires t.st.Keys == t.nodes.Keys && (t.chain == [] || TipOf(t.chain) in t.nodes)
  {
    NoneWorse(t.nodes, t.st, t.cand, TipOf(t.chain))
  }

  /** Every linked block without failed ancestors that is as good as the tip is a candidate. */
  ghost predicate Stocked(t: Tree) {
    && Shaped(t.nodes) && t.st.Keys == t.nodes.Keys && (t.chain != [] ==> TipOf(t.chain) in t.nodes)
    && forall b | b in t.nodes && t.st[b].Linked() && Clean(t.nodes, t.st, b) ::
         b in t.cand || (t.chain != [] && Worse(t.nodes, t.st, b, TipOf(t.chain)))
  }

  /** The invariant of the tree whenever the lock on it is free. */
  ghost predicate TreeInv(t: Tree, genesis: Ptr, connects: Ptr -> bool) {
    CoreOk(t, [], genesis, connects) && Pruned(t)
  }
}
