/**
 * CheckBlockIndex, the list of consistency checks the node can run on the whole block tree, and
 * the proof that the invariant makes all of them hold.
 */
module TreeCheck {
  import opened BlockNodes
  import opened Chain
  import opened BlockStatus
  import opened TreeJudgement

  /** The first block on the path from genesis to b with some property, null if there is none. */
  ghost function First(nodes: Nodes, b: Ptr, p: Ptr -> bool): Ptr
    requires Shaped(nodes) && b in nodes
    decreases nodes[b].height
  {
    var above := if nodes[b].prev == NULL then NULL else First(nodes, nodes[b].prev, p);
    if above != NULL then above else if p(b) then b else NULL
  }

  ghost function Invalid(st: Statuses): Ptr -> bool {
    b => b in st && st[b].failedValid
  }

  ghost function Missing(st: Statuses): Ptr -> bool {
    b => b in st && !st[b].haveData
  }

  ghost function NotValid(nodes: Nodes, st: Statuses, level: nat): Ptr -> bool {
    b => b in nodes && b in st && nodes[b].prev != NULL && st[b].level < level
  }

  /** The fields of one block fit together and fit its parent's. */
  ghost predicate FieldsChecked(t: Tree, b: Ptr, genesis: Ptr)
    requires Shaped(t.nodes) && t.st.Keys == t.nodes.Keys && b in t.nodes
  {
    var n, s := t.nodes[b], t.st[b];
    && (n.prev == NULL ==> b == genesis && t.chain != [] && b == t.chain[0])
    && (!s.haveData <==> s.nTx == 0)
    && (s.level >= VALID_TRANSACTIONS <==> s.nTx > 0)
    && (s.nChainTx == 0 ==> s.seqId == 0)
    && n.height == |Path(t.nodes, b)| - 1
    && (n.prev != NULL ==> n.work >= t.nodes[n.prev].work)
    && (n.height >= 2 ==> n.skip in t.nodes && t.nodes[n.skip].height < n.height)
  }

  /** What the path from genesis to the block says about it. */
  ghost predicate PathChecked(t: Tree, b: Ptr)
    requires Shaped(t.nodes) && t.st.Keys == t.nodes.Keys && b in t.nodes
  {
    var s := t.st[b];
    && (First(t.nodes, b, Missing(t.st)) != NULL <==> s.nChainTx == 0)
    && First(t.nodes, b, NotValid(t.nodes, t.st, VALID_TREE)) == NULL
    && (s.level >= VALID_CHAIN ==> First(t.nodes, b, NotValid(t.nodes, t.st, VALID_CHAIN)) == NULL)
    && (s.level >= VALID_SCRIPTS ==> First(t.nodes, b, NotValid(t.nodes, t.st, VALID_SCRIPTS)) == NULL)
    && (First(t.nodes, b, Invalid(t.st)) == NULL ==> !s.Failed())
  }

  /** Which blocks are candidates. */
  ghost predicate CandidateChecked(t: Tree, b: Ptr)
    requires Shaped(t.nodes) && t.st.Keys == t.nodes.Keys && b in t.nodes && TipOf(t.chain) in t.nodes
  {
    if !Worse(t.nodes, t.st, b, TipOf(t.chain)) && First(t.nodes, b, Missing(t.st)) == NULL
    then First(t.nodes, b, Invalid(t.st)) == NULL ==> b in t.cand
    else b !in t.cand
  }

  /** Which blocks wait for the data of an ancestor. */
  ghost predicate UnlinkedChecked(t: Tree, b: Ptr)
    requires Shaped(t.nodes) && t.st.Keys == t.nodes.Keys && b in t.nodes
  {
    var found := b in Children(t.m, t.nodes[b].prev);
    if t.nodes[b].prev != NULL && t.st[b].haveData && First(t.nodes, b, Missing(t.st)) != NULL
    then First(t.nodes, b, Invalid(t.st)) == NULL ==> found
    else !found
  }

  lemma {:induction false} FirstInvalidIs(nodes: Nodes, st: Statuses, b: Ptr)
    requires Shaped(nodes) && st.Keys == nodes.Keys && b in nodes
    ensures First(nodes, b, Invalid(st)) == NULL <==> Clean(nodes, st, b)
    decreases nodes[b].height
  {
    if nodes[b].prev != NULL {
      FirstInvalidIs(nodes, st, nodes[b].prev);
    }
  }

  lemma {:induction false} FirstMissingIs(nodes: Nodes, st: Statuses, b: Ptr)
    requires Shaped(nodes) && st.Keys == nodes.Keys && b in nodes
    ensures First(nodes, b, Missing(st)) == NULL <==> AllData(nodes, st, b)
    decreases nodes[b].height
  {
    if nodes[b].prev != NULL {
      FirstMissingIs(nodes, st, nodes[b].prev);
    }
  }

  // ---------- what the check sees ----------

  /** All blocks on the path but genesis have this level. */
  ghost predicate AllAtLeast(nodes: Nodes, st: Statuses, b: Ptr, level: nat)
    requires Shaped(nodes) && st.Keys == nodes.Keys && b in nodes
    decreases nodes[b].height
  {
    nodes[b].prev == NULL || (st[b].level >= level && AllAtLeast(nodes, st, nodes[b].prev, level))
  }

  lemma {:induction false} FirstNotValidIs(nodes: Nodes, st: Statuses, b: Ptr, level: nat)
    requires Shaped(nodes) && st.Keys == nodes.Keys && b in nodes
    ensures First(nodes, b, NotValid(nodes, st, level)) == NULL <==> AllAtLeast(nodes, st, b, level)
    decreases nodes[b].height
  {
    if nodes[b].prev != NULL {
      FirstNotValidIs(nodes, st, nodes[b].prev, level);
    }
  }

  /**
   * The assertions on one block in any state, consistent or not, without the five walks: nChainTx is set
   * exactly if all data up to the block is there; what is valid to some level has ancestors that are; a
   * failed block has a failed one on its path; candidates have all data and are as good as the tip, and
   * those that in addition have no failed ancestor are candidates; what waits has data and an ancestor
   * without, and that in addition without a failed ancestor waits.
   */
  lemma {:induction false} PassesExactly(t: Tree, b: Ptr)
    requires Shaped(t.nodes) && t.st.Keys == t.nodes.Keys && b in t.nodes && TipOf(t.chain) in t.nodes
    ensures var s := t.st[b];
            PathChecked(t, b) <==>
            && (s.nChainTx > 0 <==> AllData(t.nodes, t.st, b)) && AllAtLeast(t.nodes, t.st, b, 2)
            && (s.level >= 4 ==> AllAtLeast(t.nodes, t.st, b, 4)) && (s.level >= 5 ==> AllAtLeast(t.nodes, t.st, b, 5))
            && (s.failedValid || s.failedChild ==> !Clean(t.nodes, t.st, b))
    ensures var good := !Worse(t.nodes, t.st, b, TipOf(t.chain)) && AllData(t.nodes, t.st, b);
            CandidateChecked(t, b) <==>
            (b in t.cand ==> good) && (good && Clean(t.nodes, t.st, b) ==> b in t.cand)
    ensures var waits := t.nodes[b].prev != NULL && t.st[b].haveData && !AllData(t.nodes, t.st, b);
            var found := b in Children(t.m, t.nodes[b].prev);
            UnlinkedChecked(t, b) <==> (found ==> waits) && (waits && Clean(t.nodes, t.st, b) ==> found)
  {
    hide First, AllData, Clean, AllAtLeast, Worse, TipOf;
    FirstMissingIs(t.nodes, t.st, b);
    FirstInvalidIs(t.nodes, t.st, b);
    FirstNotValidIs(t.nodes, t.st, b, 2);
    FirstNotValidIs(t.nodes, t.st, b, 4);
    FirstNotValidIs(t.nodes, t.st, b, 5);
  }

  lemma {:induction false} AllTreeValid(nodes: Nodes, st: Statuses, b: Ptr)
    requires Shaped(nodes) && st.Keys == nodes.Keys && b in nodes
    requires forall c | c in st :: st[c].level >= VALID_TREE
    ensures First(nodes, b, NotValid(nodes, st, VALID_TREE)) == NULL
    decreases nodes[b].height
  {
    if nodes[b].prev != NULL {
      AllTreeValid(nodes, st, nodes[b].prev);
    }
  }

  lemma {:induction false} AncestorsValid(nodes: Nodes, st: Statuses, b: Ptr, level: nat)
    requires Shaped(nodes) && st.Keys == nodes.Keys && b in nodes && LevelsOk(nodes, st)
    requires level == VALID_CHAIN || level == VALID_SCRIPTS
    requires st[b].level >= level || nodes[b].prev == NULL
    ensures First(nodes, b, NotValid(nodes, st, level)) == NULL
    decreases nodes[b].height
  {
    if nodes[b].prev != NULL {
      AncestorsValid(nodes, st, nodes[b].prev, level);
    }
  }

  lemma {:induction false} FieldsAreChecked(t: Tree, b: Ptr, genesis: Ptr)
    requires TreeOk(t.nodes, t.st, genesis) && DataOk(t.nodes, t.st, t.nextSeq, {}) && b in t.nodes
    requires t.chain != [] && IsPath(t.nodes, t.chain)
    ensures FieldsChecked(t, b, genesis)
  {
    PathStep(t.nodes, t.chain, 0);
    assert t.nodes[t.chain[0]].prev == NULL;
  }

  lemma {:induction false} PathIsChecked(t: Tree, b: Ptr, connects: Ptr -> bool)
    requires Shaped(t.nodes) && t.st.Keys == t.nodes.Keys && DataOk(t.nodes, t.st, t.nextSeq, {}) && b in t.nodes
    requires FailOk(t.nodes, t.st, connects) && LevelsOk(t.nodes, t.st)
    ensures PathChecked(t, b)
  {
    hide First, AllData, Clean, LevelsOk, FailOk, Shaped;
    FirstMissingIs(t.nodes, t.st, b);
    LinkedMeansAllData(t.nodes, t.st, t.nextSeq, b);
    AllTreeValid(t.nodes, t.st, b);
    if t.st[b].level >= VALID_CHAIN {
      AncestorsValid(t.nodes, t.st, b, VALID_CHAIN);
    }
    if t.st[b].level >= VALID_SCRIPTS {
      AncestorsValid(t.nodes, t.st, b, VALID_SCRIPTS);
    }
    FirstInvalidIs(t.nodes, t.st, b);
    CleanIsNotFailed(t.nodes, t.st, b, connects);
  }

  lemma {:induction false} CleanIsNotFailed(nodes: Nodes, st: Statuses, b: Ptr, connects: Ptr -> bool)
    requires Shaped(nodes) && st.Keys == nodes.Keys && b in nodes && FailOk(nodes, st, connects)
    ensures Clean(nodes, st, b) ==> !st[b].Failed()
  {}

  /** The assertion on one block, without the walk to genesis. */
  lemma {:induction false} CandidateIsChecked(t: Tree, b: Ptr, genesis: Ptr, connects: Ptr -> bool)
    requires TreeInv(t, genesis, connects) && Shaped(t.nodes) && t.st.Keys == t.nodes.Keys && b in t.nodes
    requires t.chain != [] && TipOf(t.chain) in t.nodes
    ensures CandidateChecked(t, b) <==>
            (t.st[b].Linked() && Clean(t.nodes, t.st, b) && !Worse(t.nodes, t.st, b, TipOf(t.chain)) ==> b in t.cand)
  {
    hide UnlinkedOk, FailOk, LevelsOk, Skips, Elements, Distinct, ChainOk, FloorOk, Complete, Clean, TipOf, Worse;
    NothingQueued();
    FirstMissingIs(t.nodes, t.st, b);
    LinkedMeansAllData(t.nodes, t.st, t.nextSeq, b);
    FirstInvalidIs(t.nodes, t.st, b);
  }

  /** The assertions on candidates, for all blocks. */
  ghost predicate CandidatesChecked(t: Tree)
    requires Shaped(t.nodes) && t.st.Keys == t.nodes.Keys && TipOf(t.chain) in t.nodes
  {
    forall b | b in t.nodes :: CandidateChecked(t, b)
  }

  lemma {:induction false} CandidatesAreChecked(t: Tree, genesis: Ptr, connects: Ptr -> bool)
    requires TreeInv(t, genesis, connects) && t.chain != []
    ensures Shaped(t.nodes) && t.st.Keys == t.nodes.Keys && TipOf(t.chain) in t.nodes
    ensures CandidatesChecked(t) <==> Stocked(t)
  {
    hide CoreOk, Pruned, CandidateChecked, Clean, TipOf, Worse, Shaped;
    ChainIsPath(t, genesis, connects);
    forall b | b in t.nodes
      ensures CandidateChecked(t, b) <==>
              (t.st[b].Linked() && Clean(t.nodes, t.st, b) && !Worse(t.nodes, t.st, b, TipOf(t.chain)) ==> b in t.cand)
    {
      CandidateIsChecked(t, b, genesis, connects);
    }
  }

  lemma {:induction false} UnlinkedIsChecked(t: Tree, b: Ptr, connects: Ptr -> bool)
    requires Shaped(t.nodes) && t.st.Keys == t.nodes.Keys && DataOk(t.nodes, t.st, t.nextSeq, {}) && b in t.nodes
    requires UnlinkedOk(t.nodes, t.st, t.m, {}) && FailOk(t.nodes, t.st, connects)
    ensures UnlinkedChecked(t, b)
  {
    FirstMissingIs(t.nodes, t.st, b);
    LinkedMeansAllData(t.nodes, t.st, t.nextSeq, b);
    FirstInvalidIs(t.nodes, t.st, b);
  }

  /**
   * Every assertion of CheckBlockIndex holds for every block whenever the tree is consistent,
   * except that those on candidates hold exactly if no block as good as the tip is missing there.
   */
  lemma {:induction false} CheckBlockIndexHolds(t: Tree, genesis: Ptr, connects: Ptr -> bool)
    requires TreeInv(t, genesis, connects) && t.chain != []
    ensures Shaped(t.nodes) && t.st.Keys == t.nodes.Keys && TipOf(t.chain) in t.nodes
    ensures forall b | b in t.nodes :: FieldsChecked(t, b, genesis) && PathChecked(t, b) && UnlinkedChecked(t, b)
    ensures CandidatesChecked(t) <==> Stocked(t)
  {
    hide DataOk, UnlinkedOk, FailOk, LevelsOk, SelectionOk, Pruned, Elements, Distinct, TipOf, Stocked,
         CandidatesChecked;
    hide FieldsChecked, PathChecked, UnlinkedChecked;
    NothingQueued();
    ChainIsPath(t, genesis, connects);
    CandidatesAreChecked(t, genesis, connects);
    forall b | b in t.nodes
      ensures FieldsChecked(t, b, genesis) && PathChecked(t, b) && UnlinkedChecked(t, b)
    {
      FieldsAreChecked(t, b, genesis);
      PathIsChecked(t, b, connects);
      UnlinkedIsChecked(t, b, connects);
    }
  }

  /**
   * A step of activation, finished or cut short, begun where the check passes: it passes
   * afterwards exactly if the tip does not sort below the one the step began with.
   */
  lemma {:induction false} CheckAfterStep(t0: Tree, t: Tree, genesis: Ptr, connects: Ptr -> bool)
    requires TreeInv(t0, genesis, connects) && TreeInv(t, genesis, connects) && t0.chain != [] && t.chain != []
    requires Shaped(t0.nodes) && t0.st.Keys == t0.nodes.Keys && TipOf(t0.chain) in t0.nodes && CandidatesChecked(t0)
    requires Judging(t0, t) && Dropped(t0, t)
    ensures Shaped(t.nodes) && t.st.Keys == t.nodes.Keys && TipOf(t.chain) in t.nodes && TipOf(t0.chain) in t.nodes
    ensures CandidatesChecked(t) <==> !Worse(t.nodes, t.st, TipOf(t.chain), TipOf(t0.chain))
  {
    hide CoreOk, Pruned, Dropped, Stocked, CandidatesChecked, TipOf, Worse, Shaped;
    CandidatesAreChecked(t0, genesis, connects);
    CandidatesAreChecked(t, genesis, connects);
    StockedExactly(t0, t, genesis, connects);
  }

  /** Whatever the state: after a DisconnectTip the check fails at the new tip, until more is done. */
  lemma {:induction false} DisconnectFailsCheck(t: Tree, genesis: Ptr, connects: Ptr -> bool)
    requires TreeInv(t, genesis, connects) && |t.chain| > 1
    ensures var t' := t.(chain := t.chain[..|t.chain| - 1]);
            && TreeInv(t', genesis, connects) && Shaped(t'.nodes) && t'.st.Keys == t'.nodes.Keys
            && TipOf(t'.chain) in t'.nodes
            && !CandidateChecked(t', TipOf(t'.chain))
  {
    hide DataOk, UnlinkedOk, FailOk, LevelsOk, Shaped, Skips, Elements, Distinct, CandidateChecked, Clean, TipOf, Worse,
         SelectionOk, Pruned, Judging;
    var t' := t.(chain := t.chain[..|t.chain| - 1]);
    ChainIsPath(t, genesis, connects);
    DisconnectKeepsCore(t, genesis, connects);
    DisconnectSelection(t, connects);
    MovingJudges(t, t');
    LowerTipIsMissing(t, t', genesis, connects);
    CandidateIsChecked(t', TipOf(t'.chain), genesis, connects);
    WorseIsTotalOrder(t'.nodes, t'.st, TipOf(t'.chain), TipOf(t'.chain), TipOf(t'.chain));
  }
}
