/**
 * Of two chains with the same work, the one whose data was complete first stays the best.
 */
module FirstSeen {
  import opened BlockNodes
  import opened Chain
  import opened BlockStatus
  import opened TreeSteps
  import opened TreeJudgement

  /** Every other candidate has less work, or as much and was linked later. */
  ghost predicate FirstBest(t: Tree, best: Ptr) {
    && best in t.nodes && best in t.st
    && forall c | c in t.cand && c != best ::
         && c in t.nodes && c in t.st
         && (t.nodes[c].work < t.nodes[best].work
             || (t.nodes[c].work == t.nodes[best].work && t.st[c].seqId > t.st[best].seqId))
  }

  /** No candidate is better than the tip. */
  ghost predicate Unbeaten(t: Tree) {
    t.chain != [] && TipOf(t.chain) in t.cand && FirstBest(t, TipOf(t.chain))
  }

  lemma {:induction false} CandidatesNumbered(t: Tree, genesis: Ptr, connects: Ptr -> bool)
    requires CoreOk(t, [], genesis, connects)
    ensures t.cand <= t.nodes.Keys == t.st.Keys && Numbered(t.nodes, t.st)
    ensures forall c | c in t.cand :: t.st[c].Linked()
    ensures forall c | c in t.nodes :: t.st[c].seqId < t.nextSeq
  {
    hide UnlinkedOk, FailOk, LevelsOk, Skips, Elements, Distinct, ChainOk, FloorOk, Complete, CountOk;
  }

  /** The best candidate in the order of the candidates is the best one by work and number. */
  lemma {:induction false} BestIsFirst(t: Tree, best: Ptr, genesis: Ptr, connects: Ptr -> bool)
    requires CoreOk(t, [], genesis, connects) && best in t.cand
    ensures IsBest(t, best) <==> FirstBest(t, best)
  {
    hide CoreOk;
    CandidatesNumbered(t, genesis, connects);
  }

  /** There is only one. */
  lemma {:induction false} OneIsFirst(t: Tree, best: Ptr, genesis: Ptr, connects: Ptr -> bool)
    requires CoreOk(t, [], genesis, connects) && IsBest(t, best)
    ensures FirstBest(t, best) && (Unbeaten(t) ==> best == TipOf(t.chain))
  {
    hide CoreOk, TipOf;
    CandidatesNumbered(t, genesis, connects);
    BestIsFirst(t, best, genesis, connects);
  }

  lemma {:induction false} TipInPath(t: Tree, genesis: Ptr, connects: Ptr -> bool)
    requires CoreOk(t, [], genesis, connects) && t.chain != []
    ensures TipOf(t.chain) in t.nodes && TipOf(t.chain) != NULL && InPath(t.nodes, t.chain, TipOf(t.chain))
  {
    ChainIsPath(t, genesis, connects);
    PathStep(t.nodes, t.chain, |t.chain| - 1);
  }

  /** Activation ends with a tip that is first seen. */
  lemma {:induction false} BestIsUnbeaten(t0: Tree, t: Tree, genesis: Ptr, connects: Ptr -> bool)
    requires CoreOk(t, [], genesis, connects) && Judging(t0, t)
    requires t.chain != [] && IsBest(t0, TipOf(t.chain))
    ensures Unbeaten(t)
  {
    hide CoreOk, Worse, TipOf, Clean;
    var tip := TipOf(t.chain);
    CandidatesNumbered(t, genesis, connects);
    BestIsActive(t0, t, genesis, connects);
    FloorIsCandidate(t, genesis, connects);
    forall c | c in t.cand && c != tip
      ensures Worse(t.nodes, t.st, c, tip)
    {
      SameOrder(t0, t, c, tip);
    }
    BestIsFirst(t, tip, genesis, connects);
  }

  /** Headers and blocks that come in later do not beat the tip unless they bring more work. */
  lemma {:induction false} LaterIsNotBetter(t0: Tree, t: Tree, genesis: Ptr, connects: Ptr -> bool)
    requires CoreOk(t0, [], genesis, connects) && Unbeaten(t0) && Kept(t0, t)
    requires forall c | c in t.cand && c in t.nodes && c !in t0.cand ::
             t.nodes[c].work <= t0.nodes[TipOf(t0.chain)].work
    ensures Unbeaten(t)
  {
    hide CoreOk;
    CandidatesNumbered(t0, genesis, connects);
  }
}
