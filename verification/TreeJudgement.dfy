/**
 * The changes made to the block tree while the best chain is looked for and activated: blocks
 * are judged, candidates dropped, the tip moved. Each is proved to keep the invariant.
 */
module TreeJudgement {
  import opened BlockNodes
  import opened Chain
  import opened BlockStatus
  import opened Sets

  // ---------- judging blocks ----------

  /** Some blocks are judged; candidates are only dropped when one of their ancestors failed. */
  ghost predicate Judged(nodes: Nodes, st: Statuses, st': Statuses, cand: set<Ptr>, cand': set<Ptr>)
    requires Shaped(nodes) && st.Keys == nodes.Keys
  {
    && OnlyJudged(st, st')
    && (forall b | b in st && st'[b].level > st[b].level :: st[b].haveData && st[b].level >= VALID_TRANSACTIONS)
    && cand' <= cand
    && forall c | c in cand && c !in cand' && c in nodes :: !Clean(nodes, st', c)
  }

  lemma {:induction false} JudgedData(nodes: Nodes, st: Statuses, st': Statuses, cand: set<Ptr>, cand': set<Ptr>,
                                      nextSeq: nat)
    requires Shaped(nodes) && st.Keys == nodes.Keys && DataOk(nodes, st, nextSeq, {})
             && Judged(nodes, st, st', cand, cand')
    ensures DataOk(nodes, st', nextSeq, {})
  {
    forall b | b in nodes
      ensures CountOk(nodes, st', b)
    {
      assert CountOk(nodes, st, b);
      assert st'[b] ==
             st[b].(level := st'[b].level, failedValid := st'[b].failedValid, failedChild := st'[b].failedChild);
    }
  }

  lemma {:induction false} JudgedUnlinked(nodes: Nodes, st: Statuses, st': Statuses, m: Multimap)
    requires Shaped(nodes) && st.Keys == nodes.Keys && UnlinkedOk(nodes, st, m, {}) && OnlyJudged(st, st')
    ensures UnlinkedOk(nodes, st', m, {})
  {}

  lemma {:induction false} JudgedChain(nodes: Nodes, st: Statuses, st': Statuses, chain: seq<Ptr>, floor: Ptr,
                                       connects: Ptr -> bool)
    requires Shaped(nodes) && st.Keys == nodes.Keys && OnlyJudged(st, st')
    requires ChainOk(nodes, st, chain, connects) && FloorOk(nodes, st, TipOf(chain), floor, connects)
    ensures ChainOk(nodes, st', chain, connects) && FloorOk(nodes, st', TipOf(chain), floor, connects)
  {}

  lemma {:induction false} JudgedCandidates(nodes: Nodes, st: Statuses, st': Statuses, cand: set<Ptr>, cand': set<Ptr>,
                                            floor: Ptr)
    requires Shaped(nodes) && st.Keys == nodes.Keys && Judged(nodes, st, st', cand, cand')
    requires (floor == NULL || floor in nodes) && Complete(nodes, st, cand, floor)
    ensures Complete(nodes, st', cand', floor)
  {
    forall b | b in nodes && st'[b].Linked() && Clean(nodes, st', b)
      ensures b in cand' || (floor != NULL && Worse(nodes, st', b, floor))
    {
      CleanShrinks(nodes, st, st', b);
    }
  }

  lemma {:induction false} JudgedNoneWorse(nodes: Nodes, st: Statuses, st': Statuses, cand: set<Ptr>, cand': set<Ptr>,
                                           tip: Ptr)
    requires Shaped(nodes) && st.Keys == nodes.Keys && Judged(nodes, st, st', cand, cand')
    requires (tip == NULL || tip in nodes) && NoneWorse(nodes, st, cand, tip)
    ensures NoneWorse(nodes, st', cand', tip)
  {}

  lemma {:induction false} JudgedKeepsCore(t: Tree, st': Statuses, cand': set<Ptr>, genesis: Ptr, connects: Ptr -> bool)
    requires CoreOk(t, [], genesis, connects) && Judged(t.nodes, t.st, st', t.cand, cand')
    requires FailOk(t.nodes, st', connects) && LevelsOk(t.nodes, st')
    ensures CoreOk(t.(st := st', cand := cand'), [], genesis, connects)
    ensures Pruned(t) ==> Pruned(t.(st := st', cand := cand'))
  {
    hide DataOk, UnlinkedOk, FailOk, LevelsOk, ChainOk, FloorOk, Complete, NoneWorse, Shaped, Skips, OnlyJudged, Judged;
    hide TipOf, Elements, Distinct, Clean, Worse;
    NothingQueued();
    TipKnown(t, connects);
    JudgedIsOnlyJudged(t.nodes, t.st, st', t.cand, cand');
    JudgedData(t.nodes, t.st, st', t.cand, cand', t.nextSeq);
    JudgedUnlinked(t.nodes, t.st, st', t.m);
    JudgedChain(t.nodes, t.st, st', t.chain, t.floor, connects);
    JudgedCandidates(t.nodes, t.st, st', t.cand, cand', t.floor);
    JudgedNoneWorse(t.nodes, t.st, st', t.cand, cand', NULL);
    if Pruned(t) {
      JudgedNoneWorse(t.nodes, t.st, st', t.cand, cand', TipOf(t.chain));
    }
  }

  lemma {:induction false} NothingQueued()
    ensures Elements([]) == {} && Distinct([])
  {}

  lemma {:induction false} JudgedIsOnlyJudged(nodes: Nodes, st: Statuses, st': Statuses, cand: set<Ptr>,
                                              cand': set<Ptr>)
    requires Shaped(nodes) && st.Keys == nodes.Keys && Judged(nodes, st, st', cand, cand')
    ensures OnlyJudged(st, st') && st'.Keys == st.Keys
  {}

  lemma {:induction false} TipKnown(t: Tree, connects: Ptr -> bool)
    requires Shaped(t.nodes) && t.st.Keys == t.nodes.Keys && SelectionOk(t, connects)
    ensures if t.chain == [] then TipOf(t.chain) == NULL else TipOf(t.chain) != NULL && TipOf(t.chain) in t.nodes
    ensures t.floor == NULL || t.floor in t.nodes
  {}

  /** Marking a descendant of a failed block, or a failed block itself. */
  function WithFailedChild(st: Statuses, c: Ptr): Statuses
    requires c in st
  {
    st[c := st[c].(failedChild := true)]
  }

  function WithFailedValid(st: Statuses, c: Ptr): Statuses
    requires c in st
  {
    st[c := st[c].(failedValid := true)]
  }

  lemma {:induction false} MarkChildClean(nodes: Nodes, st: Statuses, c: Ptr)
    requires Shaped(nodes) && st.Keys == nodes.Keys && c in nodes
    ensures forall b | b in nodes :: Clean(nodes, WithFailedChild(st, c), b) == Clean(nodes, st, b)
  {
    forall b | b in nodes
      ensures Clean(nodes, WithFailedChild(st, c), b) == Clean(nodes, st, b)
    {
      CleanSame(nodes, st, WithFailedChild(st, c), b);
    }
  }

  lemma {:induction false} MarkChildFlags(nodes: Nodes, st: Statuses, cand: set<Ptr>, c: Ptr, connects: Ptr -> bool)
    requires Shaped(nodes) && st.Keys == nodes.Keys && c in nodes && FailOk(nodes, st, connects) && LevelsOk(nodes, st)
    requires st[c].Linked() && !Clean(nodes, st, c)
    ensures FailOk(nodes, WithFailedChild(st, c), connects) && LevelsOk(nodes, WithFailedChild(st, c))
    ensures Judged(nodes, st, WithFailedChild(st, c), cand, cand - {c})
  {
    hide Clean;
    MarkChildClean(nodes, st, c);
  }

  /** FindMostWorkChain marks a linked descendant of a failed block and drops it. */
  lemma {:induction false} MarkChild(t: Tree, c: Ptr, genesis: Ptr, connects: Ptr -> bool)
    requires CoreOk(t, [], genesis, connects) && c in t.nodes && t.st[c].Linked() && !Clean(t.nodes, t.st, c)
    ensures var t' := t.(st := WithFailedChild(t.st, c), cand := t.cand - {c});
            && CoreOk(t', [], genesis, connects) && (Pruned(t) ==> Pruned(t'))
            && forall b | b in t.nodes :: Clean(t'.nodes, t'.st, b) == Clean(t.nodes, t.st, b)
  {
    hide DataOk, UnlinkedOk, FailOk, LevelsOk, SelectionOk, Shaped, Skips, Judged, Pruned, Elements, Distinct, Clean;
    MarkChildClean(t.nodes, t.st, c);
    MarkChildFlags(t.nodes, t.st, t.cand, c, connects);
    JudgedKeepsCore(t, WithFailedChild(t.st, c), t.cand - {c}, genesis, connects);
  }

  lemma {:induction false} MarkInvalidClean(nodes: Nodes, st: Statuses, c: Ptr)
    requires Shaped(nodes) && st.Keys == nodes.Keys && c in nodes
    ensures !Clean(nodes, WithFailedValid(st, c), c)
    ensures forall b | b in nodes && Clean(nodes, WithFailedValid(st, c), b) :: Clean(nodes, st, b)
  {
    forall b | b in nodes && Clean(nodes, WithFailedValid(st, c), b)
      ensures Clean(nodes, st, b)
    {
      CleanShrinks(nodes, st, WithFailedValid(st, c), b);
    }
  }

  lemma {:induction false} MarkInvalidFlags(nodes: Nodes, st: Statuses, cand: set<Ptr>, c: Ptr, connects: Ptr -> bool)
    requires Shaped(nodes) && st.Keys == nodes.Keys && c in nodes && FailOk(nodes, st, connects) && LevelsOk(nodes, st)
    requires st[c].haveData ==> st[c].Linked() && !connects(c)
    ensures FailOk(nodes, WithFailedValid(st, c), connects) && LevelsOk(nodes, WithFailedValid(st, c))
    ensures Judged(nodes, st, WithFailedValid(st, c), cand, cand - {c})
  {
    hide Clean;
    MarkInvalidClean(nodes, st, c);
  }

  /** A block fails validation: a linked one because ConnectBlock rejects it, one without data early. */
  lemma {:induction false} MarkInvalid(t: Tree, c: Ptr, genesis: Ptr, connects: Ptr -> bool)
    requires CoreOk(t, [], genesis, connects) && c in t.nodes
    requires t.st[c].haveData ==> t.st[c].Linked() && !connects(c)
    ensures var t' := t.(st := WithFailedValid(t.st, c), cand := t.cand - {c});
            CoreOk(t', [], genesis, connects) && (Pruned(t) ==> Pruned(t')) && (Stocked(t) ==> Stocked(t'))
    ensures Judged(t.nodes, t.st, WithFailedValid(t.st, c), t.cand, t.cand - {c})
  {
    hide DataOk, UnlinkedOk, FailOk, LevelsOk, SelectionOk, Shaped, Skips, Judged, Pruned, Elements, Distinct, Clean,
         Stocked;
    if Stocked(t) {
      MarkInvalidFlags(t.nodes, t.st, t.cand, c, connects);
      StockedJudged(t, WithFailedValid(t.st, c), t.cand - {c});
    }
    MarkInvalidFlags(t.nodes, t.st, t.cand, c, connects);
    JudgedKeepsCore(t, WithFailedValid(t.st, c), t.cand - {c}, genesis, connects);
  }

  /** A block without data is not a candidate, so dropping it changes nothing. */
  lemma {:induction false} NoDataNoCandidate(t: Tree, c: Ptr, genesis: Ptr, connects: Ptr -> bool)
    requires CoreOk(t, [], genesis, connects) && c in t.nodes && !t.st[c].haveData
    ensures t.cand - {c} == t.cand && !t.st[c].Linked()
  {
    hide UnlinkedOk, FailOk, LevelsOk, Shaped, Skips, Clean, ChainOk, FloorOk, Complete;
    assert CountOk(t.nodes, t.st, c);
  }

  // ---------- moving the tip ----------

  /** Candidates worse than the tip go. */
  ghost predicate OnlyWorseGone(t: Tree, cand': set<Ptr>)
    requires t.st.Keys == t.nodes.Keys && TipOf(t.chain) in t.nodes
  {
    cand' <= t.cand && forall c | c in t.cand && c !in cand' && c in t.nodes :: Worse(t.nodes, t.st, c, TipOf(t.chain))
  }

  lemma {:induction false} FloorIsCandidate(t: Tree, genesis: Ptr, connects: Ptr -> bool)
    requires CoreOk(t, [], genesis, connects) && t.chain != []
    ensures t.floor in t.cand && t.floor in t.nodes && t.floor != NULL && TipOf(t.chain) in t.nodes
    ensures !Worse(t.nodes, t.st, t.floor, TipOf(t.chain)) && Clean(t.nodes, t.st, t.floor)
  {
    hide DataOk, UnlinkedOk, FailOk, LevelsOk, Shaped, Skips, Clean, ChainOk, NoneWorse, Elements, Distinct, Worse;
    hide TipOf;
    NothingQueued();
    TipKnown(t, connects);
    WorseIsTotalOrder(t.nodes, t.st, t.floor, t.floor, t.floor);
    ConnectingIsClean(t.nodes, t.st, t.nextSeq, connects, t.floor);
  }

  lemma {:induction false} NothingGone(t: Tree)
    requires t.st.Keys == t.nodes.Keys && TipOf(t.chain) in t.nodes
    ensures OnlyWorseGone(t, t.cand)
  {}

  lemma {:induction false} OneMoreGone(t: Tree, cand': set<Ptr>, it: Ptr)
    requires t.st.Keys == t.nodes.Keys && TipOf(t.chain) in t.nodes && OnlyWorseGone(t, cand')
    requires it in t.nodes && Worse(t.nodes, t.st, it, TipOf(t.chain))
    ensures OnlyWorseGone(t, cand' - {it})
  {}

  /** When nothing worse is left either, exactly the worse ones are gone. */
  lemma {:induction false} AllWorseGone(t: Tree, cand': set<Ptr>)
    requires t.st.Keys == t.nodes.Keys && TipOf(t.chain) in t.nodes && OnlyWorseGone(t, cand') && t.cand <= t.nodes.Keys
    requires forall c | c in cand' :: !Worse(t.nodes, t.st, c, TipOf(t.chain))
    ensures forall c :: c in cand' <==> c in t.cand && c in t.nodes && !Worse(t.nodes, t.st, c, TipOf(t.chain))
  {
    hide Worse;
  }

  lemma {:induction false} PruneSelection(t: Tree, cand': set<Ptr>, connects: Ptr -> bool)
    requires Shaped(t.nodes) && t.st.Keys == t.nodes.Keys && TipOf(t.chain) in t.nodes && OnlyWorseGone(t, cand')
    requires SelectionOk(t, connects) && t.floor in t.nodes && t.floor != NULL
    requires !Worse(t.nodes, t.st, t.floor, TipOf(t.chain))
    ensures SelectionOk(t.(cand := cand'), connects)
  {
    hide Shaped, ChainOk, FloorOk, Clean, Worse, TipOf;
    forall b | b in t.nodes && t.st[b].Linked() && Clean(t.nodes, t.st, b)
      ensures b in cand' || Worse(t.nodes, t.st, b, t.floor)
    {
      WorseIsTotalOrder(t.nodes, t.st, b, TipOf(t.chain), t.floor);
      WorseIsTotalOrder(t.nodes, t.st, t.floor, TipOf(t.chain), b);
    }
  }

  /** Pruning keeps the invariant, and the best tip there ever was keeps the set nonempty. */
  lemma {:induction false} PruneKeepsCore(t: Tree, cand': set<Ptr>, genesis: Ptr, connects: Ptr -> bool)
    requires CoreOk(t, [], genesis, connects) && t.chain != [] && TipOf(t.chain) in t.nodes && OnlyWorseGone(t, cand')
    ensures CoreOk(t.(cand := cand'), [], genesis, connects) && t.floor in cand'
  {
    hide DataOk, UnlinkedOk, FailOk, LevelsOk, SelectionOk, Shaped, Skips, Elements, Distinct, Clean, TipOf, Worse;
    FloorIsCandidate(t, genesis, connects);
    PruneSelection(t, cand', connects);
  }

  /** b can be put on top of the chain. */
  ghost predicate Next(t: Tree, b: Ptr, connects: Ptr -> bool)
    requires t.st.Keys == t.nodes.Keys
  {
    b in t.nodes && t.nodes[b].prev == TipOf(t.chain) && t.st[b].Linked() && connects(b)
  }

  function Raised(t: Tree, b: Ptr): Statuses
    requires t.st.Keys == t.nodes.Keys && b in t.nodes
  {
    if t.nodes[b].prev == NULL then t.st else t.st[b := t.st[b].Raise(VALID_SCRIPTS)]
  }

  /** The chain is that of its tip, so a block on top of it connects with all its ancestors. */
  lemma {:induction false} NextConnects(t: Tree, b: Ptr, genesis: Ptr, connects: Ptr -> bool)
    requires CoreOk(t, [], genesis, connects) && Next(t, b, connects)
    ensures AllConnect(t.nodes, connects, b) && Clean(t.nodes, t.st, b) && !t.st[b].Failed()
    ensures t.st[b].haveData && t.st[b].level >= VALID_TRANSACTIONS
    ensures t.chain != [] ==> t.nodes[b].prev in t.nodes
    ensures t.chain != [] ==> t.nodes[t.nodes[b].prev].prev == NULL || t.st[t.nodes[b].prev].level >= VALID_SCRIPTS
  {
    hide UnlinkedOk, FailOk, LevelsOk, FloorOk, Complete, NoneWorse, Skips, Clean, Distinct, Elements;
    NothingQueued();
    if t.chain != [] {
      ChainConnects(t.nodes, t.st, t.chain, connects, |t.chain| - 1);
    }
    assert CountOk(t.nodes, t.st, b);
    ConnectingIsClean(t.nodes, t.st, t.nextSeq, connects, b);
  }

  lemma {:induction false} RaiseFlags(nodes: Nodes, st: Statuses, st': Statuses, cand: set<Ptr>, b: Ptr,
                                      connects: Ptr -> bool)
    requires Shaped(nodes) && st.Keys == nodes.Keys && b in nodes && FailOk(nodes, st, connects) && LevelsOk(nodes, st)
    requires st' == st || st' == st[b := st[b].Raise(VALID_SCRIPTS)]
    requires st[b].haveData && st[b].level >= VALID_TRANSACTIONS
    requires nodes[b].prev != NULL ==> nodes[nodes[b].prev].prev == NULL || st[nodes[b].prev].level >= VALID_SCRIPTS
    ensures FailOk(nodes, st', connects) && LevelsOk(nodes, st') && Judged(nodes, st, st', cand, cand)
  {
    hide Clean;
    forall c | c in nodes
      ensures Clean(nodes, st', c) == Clean(nodes, st, c)
    {
      CleanSame(nodes, st, st', c);
    }
  }

  /** ConnectBlock records that the block's scripts are valid. */
  lemma {:induction false} RaiseKeepsCore(t: Tree, b: Ptr, genesis: Ptr, connects: Ptr -> bool)
    requires CoreOk(t, [], genesis, connects) && Next(t, b, connects)
    ensures CoreOk(t.(st := Raised(t, b)), [], genesis, connects)
    ensures Pruned(t) ==> Pruned(t.(st := Raised(t, b)))
    ensures Raised(t, b)[b].Linked() && (t.chain != [] ==> Raised(t, b)[b].level >= VALID_SCRIPTS)
    ensures Judged(t.nodes, t.st, Raised(t, b), t.cand, t.cand)
  {
    hide DataOk, UnlinkedOk, FailOk, LevelsOk, SelectionOk, Shaped, Skips, Judged, Pruned, Elements, Distinct, Clean,
         AllConnect;
    NextConnects(t, b, genesis, connects);
    TipKnown(t, connects);
    hide TipOf;
    RaiseFlags(t.nodes, t.st, Raised(t, b), t.cand, b, connects);
    JudgedKeepsCore(t, Raised(t, b), t.cand, genesis, connects);
    assert t.cand - {} == t.cand;
  }

  ghost function BetterOf(t: Tree, b: Ptr): Ptr
    requires t.st.Keys == t.nodes.Keys && b in t.nodes && (t.floor == NULL || t.floor in t.nodes)
  {
    if t.floor == NULL || Worse(t.nodes, t.st, t.floor, b) then b else t.floor
  }

  lemma {:induction false} ExtendChain(t: Tree, b: Ptr, connects: Ptr -> bool)
    requires Shaped(t.nodes) && t.st.Keys == t.nodes.Keys && ChainOk(t.nodes, t.st, t.chain, connects)
             && Next(t, b, connects)
    requires t.chain != [] ==> t.st[b].level >= VALID_SCRIPTS
    ensures ChainOk(t.nodes, t.st, t.chain + [b], connects) && TipOf(t.chain + [b]) == b
  {
    if t.chain != [] {
      PathStep(t.nodes, t.chain, |t.chain| - 1);
    }
  }

  lemma {:induction false} ExtendSelection(t: Tree, b: Ptr, connects: Ptr -> bool)
    requires Shaped(t.nodes) && t.st.Keys == t.nodes.Keys && SelectionOk(t, connects) && Next(t, b, connects)
    requires t.chain != [] ==> t.st[b].level >= VALID_SCRIPTS
    requires AllConnect(t.nodes, connects, b) && b != NULL && (t.floor == NULL || t.floor in t.nodes)
    ensures SelectionOk(t.(chain := t.chain + [b], floor := BetterOf(t, b)), connects)
  {
    hide Shaped, ChainOk, Clean, Worse, TipOf, AllConnect;
    ExtendChain(t, b, connects);
    WorseIsTotalOrder(t.nodes, t.st, b, b, b);
    if t.floor != NULL {
      forall c | c in t.nodes
        ensures Worse(t.nodes, t.st, c, t.floor) ==> Worse(t.nodes, t.st, c, BetterOf(t, b))
      {
        WorseIsTotalOrder(t.nodes, t.st, c, t.floor, b);
      }
    }
  }

  /** ConnectTip: the chain grows, and so may the best tip there ever was. */
  lemma {:induction false} ConnectKeepsCore(t: Tree, b: Ptr, genesis: Ptr, connects: Ptr -> bool)
    requires CoreOk(t, [], genesis, connects) && Next(t, b, connects)
             && (t.chain != [] ==> t.st[b].level >= VALID_SCRIPTS)
    ensures t.floor == NULL || t.floor in t.nodes
    ensures CoreOk(t.(chain := t.chain + [b], floor := BetterOf(t, b)), [], genesis, connects)
  {
    hide DataOk, UnlinkedOk, FailOk, LevelsOk, SelectionOk, Skips, Elements, Distinct, Clean, TipOf, Worse, AllConnect,
         Next, BetterOf;
    NextConnects(t, b, genesis, connects);
    TipKnown(t, connects);
    NextKnown(t, b, connects);
    ExtendSelection(t, b, connects);
  }

  lemma {:induction false} NextKnown(t: Tree, b: Ptr, connects: Ptr -> bool)
    requires Shaped(t.nodes) && t.st.Keys == t.nodes.Keys && Next(t, b, connects)
    ensures b in t.nodes && b != NULL
  {}

  /** The tip is worse than none of what is not worse than the block on top of it. */
  lemma {:induction false} ShorterChain(nodes: Nodes, st: Statuses, chain: seq<Ptr>, connects: Ptr -> bool)
    requires Shaped(nodes) && st.Keys == nodes.Keys && ChainOk(nodes, st, chain, connects) && |chain| > 1
    ensures var v := chain[..|chain| - 1];
            ChainOk(nodes, st, v, connects) && v != [] && TipOf(v) in nodes && TipOf(v) != NULL
            && TipOf(chain) in nodes && Worse(nodes, st, TipOf(v), TipOf(chain))
  {
    PathStep(nodes, chain, |chain| - 1);
  }

  lemma {:induction false} DisconnectSelection(t: Tree, connects: Ptr -> bool)
    requires Shaped(t.nodes) && t.st.Keys == t.nodes.Keys && SelectionOk(t, connects) && |t.chain| > 1
    ensures var t' := t.(chain := t.chain[..|t.chain| - 1]);
            SelectionOk(t', connects) && TipOf(t'.chain) in t.nodes && TipOf(t'.chain) != NULL
            && TipOf(t.chain) in t.nodes && Worse(t.nodes, t.st, TipOf(t'.chain), TipOf(t.chain))
  {
    hide ChainOk, Complete, Clean, AllConnect, NoneWorse, Worse, TipOf;
    ShorterChain(t.nodes, t.st, t.chain, connects);
    WorseIsTotalOrder(t.nodes, t.st, t.floor, TipOf(t.chain[..|t.chain| - 1]), TipOf(t.chain));
  }

  lemma {:induction false} DisconnectKeepsCore(t: Tree, genesis: Ptr, connects: Ptr -> bool)
    requires CoreOk(t, [], genesis, connects) && |t.chain| > 1 && TipOf(t.chain) in t.nodes && Pruned(t)
    ensures var t' := t.(chain := t.chain[..|t.chain| - 1]);
            CoreOk(t', [], genesis, connects) && TipOf(t'.chain) in t.nodes && Pruned(t')
  {
    hide DataOk, UnlinkedOk, FailOk, LevelsOk, SelectionOk, Shaped, Skips, Elements, Distinct, Clean, TipOf, Worse;
    TipKnown(t, connects);
    DisconnectSelection(t, connects);
    var below := TipOf(t.chain[..|t.chain| - 1]);
    forall c | c in t.cand
      ensures !Worse(t.nodes, t.st, c, below)
    {
      WorseIsTotalOrder(t.nodes, t.st, c, below, TipOf(t.chain));
    }
  }

  // ---------- runs of changes ----------

  /** Only judgements and the tip differ, and no candidate was added. */
  ghost predicate Judging(t0: Tree, t: Tree) {
    t.nodes == t0.nodes && t.m == t0.m && t.nextSeq == t0.nextSeq && OnlyJudged(t0.st, t.st) && t.cand <= t0.cand
  }

  lemma {:induction false} JudgingStarts(t: Tree)
    ensures Judging(t, t)
  {}

  lemma {:induction false} JudgingTrans(a: Tree, b: Tree, c: Tree)
    requires Judging(a, b) && Judging(b, c)
    ensures Judging(a, c)
  {}

  lemma {:induction false} JudgedNodes(t0: Tree, t: Tree)
    requires Judging(t0, t)
    ensures t.nodes == t0.nodes
  {}

  /** The best candidate. */
  ghost predicate IsBest(t: Tree, best: Ptr) {
    && t.st.Keys == t.nodes.Keys && t.cand <= t.nodes.Keys && best in t.cand
    && forall c | c in t.cand && c != best :: Worse(t.nodes, t.st, c, best)
  }

  /** What FindMostWorkChain may do: drop candidates with a failed ancestor, and say so. */
  ghost predicate Winnowed(t0: Tree, t: Tree)
    requires Shaped(t0.nodes) && t0.st.Keys == t0.nodes.Keys
  {
    && Judging(t0, t) && t.chain == t0.chain && t.floor == t0.floor
    && (forall b | b in t0.st :: t.st[b].failedValid == t0.st[b].failedValid && t.st[b].level == t0.st[b].level)
    && forall c | c in t0.cand && c !in t.cand && c in t0.nodes :: !Clean(t0.nodes, t0.st, c)
  }

  lemma {:induction false} WinnowedStarts(t: Tree)
    requires Shaped(t.nodes) && t.st.Keys == t.nodes.Keys
    ensures Winnowed(t, t)
  {}

  lemma {:induction false} WinnowedClean(t0: Tree, t: Tree, b: Ptr)
    requires Shaped(t0.nodes) && t0.st.Keys == t0.nodes.Keys && Winnowed(t0, t) && b in t.nodes
    ensures t.nodes == t0.nodes && t.st.Keys == t0.st.Keys == t.nodes.Keys
    ensures Clean(t.nodes, t.st, b) == Clean(t0.nodes, t0.st, b)
  {
    CleanSame(t0.nodes, t0.st, t.st, b);
  }

  lemma {:induction false} WinnowedMark(t0: Tree, t: Tree, c: Ptr)
    requires Shaped(t0.nodes) && t0.st.Keys == t0.nodes.Keys && Winnowed(t0, t)
    requires t.st.Keys == t.nodes.Keys && c in t.nodes && !Clean(t.nodes, t.st, c)
    ensures Winnowed(t0, t.(st := WithFailedChild(t.st, c), cand := t.cand - {c}))
  {
    hide Shaped, Clean;
    WinnowedClean(t0, t, c);
  }

  lemma {:induction false} WinnowedDrop(t0: Tree, t: Tree, c: Ptr)
    requires Shaped(t0.nodes) && t0.st.Keys == t0.nodes.Keys && Winnowed(t0, t)
    requires t.st.Keys == t.nodes.Keys && c in t.nodes && !Clean(t.nodes, t.st, c)
    ensures Winnowed(t0, t.(cand := t.cand - {c}))
  {
    hide Shaped, Clean, OnlyJudged;
    WinnowedClean(t0, t, c);
  }

  /** An unclean block can be dropped without marking it. */
  lemma {:induction false} DropUnclean(t: Tree, c: Ptr, genesis: Ptr, connects: Ptr -> bool)
    requires CoreOk(t, [], genesis, connects) && c in t.nodes && !Clean(t.nodes, t.st, c)
    ensures CoreOk(t.(cand := t.cand - {c}), [], genesis, connects)
    ensures Pruned(t) ==> Pruned(t.(cand := t.cand - {c}))
  {
    hide DataOk, UnlinkedOk, FailOk, LevelsOk, SelectionOk, Shaped, Skips, Pruned, Elements, Distinct, Clean;
    JudgedKeepsCore(t, t.st, t.cand - {c}, genesis, connects);
    assert t.(st := t.st, cand := t.cand - {c}) == t.(cand := t.cand - {c});
  }

  // ---------- walking down from a candidate ----------

  /** `test` is an ancestor of `top`, or top itself, with all its data. */
  ghost predicate Below(t: Tree, top: Ptr, test: Ptr) {
    && Shaped(t.nodes) && t.st.Keys == t.nodes.Keys && top in t.nodes && test in t.nodes
    && t.nodes[test].height <= t.nodes[top].height
    && test == Ancestor(t.nodes, top, t.nodes[test].height)
    && t.st[test].Linked() && t.st[top].Linked()
  }

  lemma {:induction false} BelowStarts(t: Tree, c: Ptr, genesis: Ptr, connects: Ptr -> bool)
    requires CoreOk(t, [], genesis, connects) && c in t.cand
    ensures Below(t, c, c)
  {
    hide DataOk, UnlinkedOk, FailOk, LevelsOk, Skips, Elements, Distinct, ChainOk, FloorOk, Complete;
  }

  lemma {:induction false} BelowStep(t: Tree, top: Ptr, test: Ptr, genesis: Ptr, connects: Ptr -> bool)
    requires CoreOk(t, [], genesis, connects) && Below(t, top, test)
    ensures t.st[test].haveData
    ensures t.nodes[test].prev != NULL ==> t.nodes[test].prev in t.nodes && Below(t, top, t.nodes[test].prev)
    ensures !Clean(t.nodes, t.st, test)
            ==> t.st[test].failedValid || (t.nodes[test].prev != NULL && !Clean(t.nodes, t.st, t.nodes[test].prev))
    ensures t.st[test].Failed() ==> !Clean(t.nodes, t.st, test)
  {
    hide UnlinkedOk, LevelsOk, Skips, Distinct, SelectionOk;
    var p := t.nodes[test].prev;
    assert CountOk(t.nodes, t.st, test);
    if p != NULL {
      AncestorOfAncestor(t.nodes, top, t.nodes[test].height, t.nodes[p].height);
    }
  }

  /** A block strictly above an unclean ancestor is unclean, and its parent is above it too. */
  lemma {:induction false} BelowParent(t: Tree, c: Ptr, test: Ptr, genesis: Ptr, connects: Ptr -> bool)
    requires CoreOk(t, [], genesis, connects) && Below(t, c, test) && test != c && !Clean(t.nodes, t.st, test)
    ensures c in t.nodes && c in t.st && t.st[c].Linked() && t.nodes[c].prev in t.nodes
            && Below(t, t.nodes[c].prev, test)
    ensures !Clean(t.nodes, t.st, c) && t.nodes[t.nodes[c].prev].height < t.nodes[c].height
  {
    hide UnlinkedOk, FailOk, LevelsOk, SelectionOk, Skips, Clean, Distinct;
    BelowUnclean(t, c, test);
    assert CountOk(t.nodes, t.st, c);
  }

  lemma {:induction false} CandidatesKnown(t: Tree, genesis: Ptr, connects: Ptr -> bool)
    requires CoreOk(t, [], genesis, connects)
    ensures t.cand <= t.nodes.Keys == t.st.Keys && NULL !in t.cand
    ensures forall c | c in t.cand :: t.st[c].Linked()
  {
    hide DataOk, UnlinkedOk, FailOk, LevelsOk, Skips, Elements, Distinct, ChainOk, FloorOk, Complete;
  }

  lemma {:induction false} NoCandidateNoChain(t: Tree, genesis: Ptr, connects: Ptr -> bool)
    requires CoreOk(t, [], genesis, connects) && t.cand == {}
    ensures t.chain == []
  {
    hide CoreOk;
    if t.chain != [] {
      FloorIsCandidate(t, genesis, connects);
      assert false;
    }
  }

  lemma {:induction false} BelowKnown(t: Tree, top: Ptr, test: Ptr)
    requires Below(t, top, test)
    ensures top in t.nodes && test in t.nodes && test != NULL && test in t.st && t.st[test].Linked()
            && t.st[top].Linked()
    ensures t.nodes[test].prev != NULL
            ==> t.nodes[test].prev in t.nodes && t.nodes[t.nodes[test].prev].height < t.nodes[test].height
  {}

  /** A block with a failed ancestor has that failure. */
  lemma {:induction false} BelowUnclean(t: Tree, top: Ptr, test: Ptr)
    requires Below(t, top, test) && !Clean(t.nodes, t.st, test)
    ensures !Clean(t.nodes, t.st, top)
  {
    if Clean(t.nodes, t.st, top) {
      CleanAncestors(t.nodes, t.st, top, t.nodes[test].height);
      PathIsAncestors(t.nodes, top, t.nodes[test].height);
    }
  }

  /** Blocks of the chain are clean. */
  lemma {:induction false} ChainClean(t: Tree, b: Ptr, genesis: Ptr, connects: Ptr -> bool)
    requires CoreOk(t, [], genesis, connects) && b in t.nodes && InPath(t.nodes, t.chain, b)
    ensures Clean(t.nodes, t.st, b)
  {
    hide UnlinkedOk, LevelsOk, Skips, Distinct, Elements, FloorOk, Complete, NoneWorse, FailOk, DataOk;
    NothingQueued();
    ChainConnects(t.nodes, t.st, t.chain, connects, t.nodes[b].height);
    ConnectingIsClean(t.nodes, t.st, t.nextSeq, connects, b);
  }

  // ---------- activation ----------

  lemma {:induction false} ChainIsPath(t: Tree, genesis: Ptr, connects: Ptr -> bool)
    requires CoreOk(t, [], genesis, connects)
    ensures Shaped(t.nodes) && Skips(t.nodes) && IsPath(t.nodes, t.chain) && t.st.Keys == t.nodes.Keys
    ensures if t.chain == [] then TipOf(t.chain) == NULL else TipOf(t.chain) in t.nodes && TipOf(t.chain) != NULL
    ensures NULL !in t.nodes && (t.floor == NULL || t.floor in t.nodes)
  {
    hide DataOk, UnlinkedOk, FailOk, LevelsOk, Elements, Distinct, Complete, NoneWorse, AllConnect;
  }

  /** The blocks from genesis to a clean candidate, as they were when the step towards it began. */
  ghost predicate Route(t0: Tree, path: seq<Ptr>) {
    && Shaped(t0.nodes) && t0.st.Keys == t0.nodes.Keys && IsPath(t0.nodes, path)
    && forall i | 0 <= i < |path| :: t0.st[path[i]].Linked() && !t0.st[path[i]].failedValid
  }

  lemma {:induction false} RouteTo(t: Tree, best: Ptr, genesis: Ptr, connects: Ptr -> bool)
    requires CoreOk(t, [], genesis, connects) && Shaped(t.nodes) && t.st.Keys == t.nodes.Keys
    requires best in t.cand && best in t.nodes && Clean(t.nodes, t.st, best)
    ensures Route(t, Path(t.nodes, best))
  {
    hide UnlinkedOk, FailOk, LevelsOk, Skips, Distinct, Elements, ChainOk, FloorOk, Complete;
    NothingQueued();
    PathIsPath(t.nodes, best);
    forall i | 0 <= i <= t.nodes[best].height
      ensures t.st[Path(t.nodes, best)[i]].Linked() && !t.st[Path(t.nodes, best)[i]].failedValid
    {
      LinkedAncestors(t.nodes, t.st, t.nextSeq, best, i);
      CleanAncestors(t.nodes, t.st, best, i);
    }
  }

  lemma {:induction false} RouteStep(t0: Tree, t: Tree, path: seq<Ptr>, i: nat)
    requires Route(t0, path) && Judging(t0, t) && i < |path|
    ensures path[i] in t.nodes && path[i] in t.st && t.st[path[i]].Linked() && t.nodes == t0.nodes && path[i] in t0.st
    ensures t.nodes[path[i]].prev == if i == 0 then NULL else path[i - 1]
    ensures !t0.st[path[i]].failedValid && path[i] != NULL && t.nodes[path[i]].height == i
  {
    PathStep(t0.nodes, path, i);
  }

  /** A step got somewhere: another block is known to be invalid, or the tip has more work. */
  ghost predicate Advanced(t0: Tree, t: Tree) {
    || (exists b :: b in t.st && b in t0.st && t.st[b].failedValid && !t0.st[b].failedValid)
    || MoreWork(t0, t)
  }

  ghost predicate MoreWork(t0: Tree, t: Tree) {
    && t.chain != [] && TipOf(t.chain) in t.nodes
    && (t0.chain != [] ==> TipOf(t0.chain) in t0.nodes && t.nodes[TipOf(t.chain)].work > t0.nodes[TipOf(t0.chain)].work)
  }

  ghost function NotFailed(t: Tree): set<Ptr> {
    set b | b in t.st && !t.st[b].failedValid
  }

  ghost function Heavier(t: Tree): set<Ptr> {
    set b | b in t.nodes && (TipOf(t.chain) !in t.nodes || t.nodes[b].work > t.nodes[TipOf(t.chain)].work)
  }

  /** That cannot go on for ever. */
  lemma {:induction false} AdvancedTerminates(t0: Tree, t: Tree)
    requires Judging(t0, t) && Advanced(t0, t) && (t0.chain == [] ==> TipOf(t0.chain) !in t0.nodes)
    ensures |NotFailed(t)| <= |NotFailed(t0)|
    ensures |NotFailed(t)| < |NotFailed(t0)| || |Heavier(t)| < |Heavier(t0)|
  {
    SubsetSize(NotFailed(t), NotFailed(t0));
    if b :| b in t.st && b in t0.st && t.st[b].failedValid && !t0.st[b].failedValid {
      SmallerSet(NotFailed(t), NotFailed(t0), b);
    } else {
      SmallerSet(Heavier(t), Heavier(t0), TipOf(t.chain));
    }
  }

  /** FindMostWorkChain changes none of this. */
  lemma {:induction false} WinnowedMeasure(t0: Tree, t: Tree)
    requires Shaped(t0.nodes) && t0.st.Keys == t0.nodes.Keys && Winnowed(t0, t)
    ensures NotFailed(t) == NotFailed(t0) && Heavier(t) == Heavier(t0) && Judging(t0, t)
  {}

  /** The best chain is active: the tip is the best block there is data for and nothing against. */
  ghost predicate Active(t: Tree) {
    && Shaped(t.nodes) && t.st.Keys == t.nodes.Keys && (t.chain != [] ==> TipOf(t.chain) in t.nodes)
    && t.floor == TipOf(t.chain)
    && forall b | b in t.nodes && t.st[b].Linked() && Clean(t.nodes, t.st, b) ::
         t.chain != [] && (b == TipOf(t.chain) || Worse(t.nodes, t.st, b, TipOf(t.chain)))
  }

  lemma {:induction false} SameOrder(t0: Tree, t: Tree, a: Ptr, b: Ptr)
    requires Judging(t0, t) && {a, b} <= t0.nodes.Keys == t0.st.Keys
    ensures {a, b} <= t.nodes.Keys == t.st.Keys && Worse(t.nodes, t.st, a, b) == Worse(t0.nodes, t0.st, a, b)
  {}

  /** Candidates are still in order and the best one is the tip, so nothing sorts above it. */
  lemma {:induction false} BestIsActive(t0: Tree, t: Tree, genesis: Ptr, connects: Ptr -> bool)
    requires CoreOk(t, [], genesis, connects) && Judging(t0, t)
    requires t.chain != [] && IsBest(t0, TipOf(t.chain))
    ensures Active(t)
  {
    hide DataOk, UnlinkedOk, FailOk, LevelsOk, Shaped, Skips, Elements, Distinct, ChainOk, NoneWorse, Clean, Worse,
         TipOf, FloorOk;
    var tip := TipOf(t.chain);
    FloorIsCandidate(t, genesis, connects);
    SameOrder(t0, t, t.floor, tip);
    forall b | b in t.nodes && t.st[b].Linked() && Clean(t.nodes, t.st, b)
      ensures b == tip || Worse(t.nodes, t.st, b, tip)
    {
      if b in t.cand {
        SameOrder(t0, t, b, tip);
      }
    }
  }

  lemma {:induction false} NothingIsActive(t: Tree, genesis: Ptr, connects: Ptr -> bool)
    requires CoreOk(t, [], genesis, connects) && t.chain == [] && t.cand == {}
    ensures Active(t)
  {
    hide DataOk, UnlinkedOk, FailOk, LevelsOk, Shaped, Skips, Elements, Distinct, ChainOk, NoneWorse, Clean, Worse;
  }

  /** A nonempty set of blocks has a worst one. */
  lemma {:induction false} WorstExists(nodes: Nodes, st: Statuses, s: set<Ptr>) returns (worst: Ptr)
    requires s != {} && s <= nodes.Keys && s <= st.Keys
    ensures worst in s && forall c | c in s && c != worst :: Worse(nodes, st, worst, c)
    decreases |s|
  {
    var b :| b in s;
    if s == {b} {
      worst := b;
    } else {
      var rest := s - {b};
      worst := WorstExists(nodes, st, rest);
      var other := worst;
      if Worse(nodes, st, b, worst) {
        worst := b;
      }
      forall c | c in s && c != worst
        ensures Worse(nodes, st, worst, c)
      {
        WorseIsTotalOrder(nodes, st, b, other, c);
      }
    }
  }

  lemma {:induction false} NoneBelow(nodes: Nodes, st: Statuses, s: set<Ptr>, worst: Ptr, tip: Ptr)
    requires s <= nodes.Keys == st.Keys && tip in nodes && worst in s && !Worse(nodes, st, worst, tip)
    requires forall c | c in s && c != worst :: Worse(nodes, st, worst, c)
    ensures forall c | c in s :: !Worse(nodes, st, c, tip)
  {
    hide Worse;
    forall c | c in s
      ensures !Worse(nodes, st, c, tip)
    {
      WorseIsTotalOrder(nodes, st, worst, c, tip);
    }
  }

  lemma {:induction false} LinkedDataKnown(t: Tree, b: Ptr, genesis: Ptr, connects: Ptr -> bool)
    requires CoreOk(t, [], genesis, connects) && b in t.nodes
    ensures t.st.Keys == t.nodes.Keys && (t.st[b].Linked() ==> t.st[b].haveData)
  {
    hide UnlinkedOk, FailOk, LevelsOk, SelectionOk, Skips, Shaped;
    assert CountOk(t.nodes, t.st, b);
  }

  lemma {:induction false} AtFork(nodes: Nodes, v: seq<Ptr>, n: nat, k: nat)
    requires Shaped(nodes) && IsPath(nodes, v) && k <= n <= |v|
    ensures n > 0 && k > 0 && v[n - 1] == v[k - 1] ==> n == k
    ensures n > 0 ==> v[n - 1] != NULL
  {}

  /** v goes down the path from `top`. */
  ghost predicate Downwards(path: seq<Ptr>, top: nat, v: seq<Ptr>) {
    |v| <= top + 1 <= |path| && forall i | 0 <= i < |v| :: v[i] == path[top - i]
  }

  lemma {:induction false} DownwardsStarts(path: seq<Ptr>, top: nat)
    requires top < |path|
    ensures Downwards(path, top, [])
  {}

  lemma {:induction false} DownwardsAt(path: seq<Ptr>, top: nat, v: seq<Ptr>, i: nat)
    requires Downwards(path, top, v) && i < |v|
    ensures top < |path| && i <= top && v[i] == path[top - i]
  {}

  lemma {:induction false} DownwardsStep(path: seq<Ptr>, top: nat, v: seq<Ptr>)
    requires Downwards(path, top, v) && |v| <= top < |path|
    ensures Downwards(path, top, v + [path[top - |v|]])
  {}

  lemma {:induction false} TipOfPrefix(path: seq<Ptr>, k: nat)
    requires k <= |path|
    ensures TipOf(path[..k]) == if k == 0 then NULL else path[k - 1]
    ensures k < |path| ==> path[..k] + [path[k]] == path[..k + 1]
  {}

  lemma {:induction false} PruningJudges(t0: Tree, t: Tree, cand': set<Ptr>)
    requires Judging(t0, t) && cand' <= t.cand
    ensures Judging(t0, t.(cand := cand'))
  {}

  lemma {:induction false} MoreWorkIs(t0: Tree, t: Tree)
    requires t.nodes == t0.nodes && t.chain != [] && TipOf(t.chain) in t.nodes
    requires t0.chain != []
             ==> TipOf(t0.chain) in t0.nodes && t.nodes[TipOf(t.chain)].work > t0.nodes[TipOf(t0.chain)].work
    ensures MoreWork(t0, t) && Advanced(t0, t)
  {}

  /** The first k blocks are the same. */
  ghost predicate KeepsFirst(v: seq<Ptr>, w: seq<Ptr>, k: nat) {
    k <= |v| && k <= |w| && v[..k] == w[..k]
  }

  lemma {:induction false} KeepsAll(v: seq<Ptr>)
    ensures KeepsFirst(v, v, |v|)
  {}

  lemma {:induction false} KeepsFewer(v: seq<Ptr>, w: seq<Ptr>, k: nat, j: nat)
    requires KeepsFirst(v, w, k) && j <= k
    ensures KeepsFirst(v, w, j)
  {
    assert v[..j] == v[..k][..j] == w[..k][..j] == w[..j];
  }

  lemma {:induction false} CommonExactly(v: seq<Ptr>, w: seq<Ptr>, k: nat)
    ensures KeepsFirst(v, w, k) <==> k <= CommonLen(v, w)
    decreases |v|
  {
    if k > 0 && v != [] && w != [] {
      CommonExactly(v[1..], w[1..], k - 1);
      if k <= |v| && k <= |w| {
        assert v[..k] == w[..k] ==> v[0] == v[..k][0] == w[..k][0] == w[0];
        assert v[..k] == [v[0]] + v[1..][..k - 1] && w[..k] == [w[0]] + w[1..][..k - 1];
      }
    }
  }

  lemma {:induction false} MovingJudges(t0: Tree, t: Tree)
    requires t0 == t.(chain := t0.chain)
    ensures Judging(t0, t)
  {}

  lemma {:induction false} NeverApart(t: Tree, b: Ptr, genesis: Ptr, connects: Ptr -> bool)
    requires CoreOk(t, [], genesis, connects) && Shaped(t.nodes) && IsPath(t.nodes, t.chain) && b in t.nodes
    requires t.chain != []
    ensures !Apart(t.chain, Path(t.nodes, b), 0)
  {
    hide DataOk, UnlinkedOk, FailOk, LevelsOk, SelectionOk, Skips, Elements, Distinct;
    PathIsPath(t.nodes, b);
    PathStep(t.nodes, t.chain, 0);
    PathStep(t.nodes, Path(t.nodes, b), 0);
  }

  /** There is one genesis, so a chain that is not empty forks from every path somewhere. */
  lemma {:induction false} ForkLength(t: Tree, b: Ptr, fork: Ptr, genesis: Ptr, connects: Ptr -> bool)
    requires CoreOk(t, [], genesis, connects) && Shaped(t.nodes) && IsPath(t.nodes, t.chain) && b in t.nodes
    requires if fork == NULL then Apart(t.chain, Path(t.nodes, b), 0) else IsFork(t.nodes, t.chain, b, fork)
    ensures var k := CommonLen(t.chain, Path(t.nodes, b));
            && KeepsFirst(t.chain, Path(t.nodes, b), k) && k <= |t.chain|
            && if fork == NULL then k == 0 && t.chain == []
               else t.chain != [] && fork in t.nodes && k == t.nodes[fork].height + 1 && t.chain[k - 1] == fork
  {
    hide DataOk, UnlinkedOk, FailOk, LevelsOk, SelectionOk, Skips, Elements, Distinct;
    if fork == NULL {
      PathIsPath(t.nodes, b);
      if t.chain != [] {
        NeverApart(t, b, genesis, connects);
      }
    } else {
      ForkIsCommon(t.nodes, t.chain, b, fork);
    }
  }

  lemma {:induction false} PrefixKept(v: seq<Ptr>, w: seq<Ptr>, n: nat, k: nat)
    requires k <= n <= |v| && w == v[..n]
    ensures KeepsFirst(v, w, k)
  {}

  lemma {:induction false} TipOfPath(nodes: Nodes, b: Ptr)
    requires Shaped(nodes) && b in nodes
    ensures TipOf(Path(nodes, b)) == b && Path(nodes, b)[..|Path(nodes, b)|] == Path(nodes, b)
  {}

  lemma {:induction false} BestIsCandidate(t: Tree, best: Ptr)
    requires IsBest(t, best)
    ensures best in t.cand
  {}

  /** The measure of activation went down. */
  ghost predicate Closer(t0: Tree, t: Tree) {
    |NotFailed(t)| < |NotFailed(t0)| || (|NotFailed(t)| == |NotFailed(t0)| && |Heavier(t)| < |Heavier(t0)|)
  }

  lemma {:induction false} CloserDecreases(t0: Tree, t: Tree)
    ensures Closer(t0, t) <==>
            |NotFailed(t)| < |NotFailed(t0)| || (|NotFailed(t)| == |NotFailed(t0)| && |Heavier(t)| < |Heavier(t0)|)
  {
    hide NotFailed, Heavier;
  }

  lemma {:induction false} CloserBy(t0: Tree, t1: Tree, t: Tree)
    requires NotFailed(t1) == NotFailed(t0) && Heavier(t1) == Heavier(t0)
    requires Judging(t1, t) && Advanced(t1, t) && NULL !in t1.nodes
    ensures Closer(t0, t)
  {
    hide NotFailed, Heavier, Judging, Advanced;
    AdvancedTerminates(t1, t);
  }

  // ---------- what an active chain is ----------

  /** No block that would connect, with all its ancestors' data, has more work than the active tip. */
  lemma {:induction false} ActiveIsBest(t: Tree, b: Ptr, genesis: Ptr, connects: Ptr -> bool)
    requires CoreOk(t, [], genesis, connects) && Active(t) && b in t.nodes && t.st[b].Linked()
             && AllConnect(t.nodes, connects, b)
    ensures t.chain != [] && TipOf(t.chain) in t.nodes && t.nodes[b].work <= t.nodes[TipOf(t.chain)].work
    ensures b == TipOf(t.chain) || Worse(t.nodes, t.st, b, TipOf(t.chain))
    ensures AllConnect(t.nodes, connects, TipOf(t.chain)) && t.st[TipOf(t.chain)].Linked()
  {
    hide UnlinkedOk, LevelsOk, Skips, Elements, Distinct, FloorOk, Complete, NoneWorse, FailOk, Clean, DataOk;
    NothingQueued();
    ConnectingIsClean(t.nodes, t.st, t.nextSeq, connects, b);
    ChainConnects(t.nodes, t.st, t.chain, connects, |t.chain| - 1);
  }

  /**
   * Two nodes that got the same blocks, in whatever order and through whatever detours, agree
   * on the work of their tips once both have activated their best chain.
   */
  lemma {:induction false} SameBlocksSameWork(t: Tree, u: Tree, genesis: Ptr, connects: Ptr -> bool)
    requires CoreOk(t, [], genesis, connects) && CoreOk(u, [], genesis, connects) && Active(t) && Active(u)
    requires t.nodes == u.nodes && forall b | b in t.nodes :: t.st[b].Linked() == u.st[b].Linked()
    ensures t.chain == [] <==> u.chain == []
    ensures t.chain != [] ==> TipOf(t.chain) in t.nodes && TipOf(u.chain) in t.nodes
    ensures t.chain != [] ==> t.nodes[TipOf(t.chain)].work == t.nodes[TipOf(u.chain)].work
  {
    hide CoreOk, Active, Shaped;
    TipConnects(t, genesis, connects);
    TipConnects(u, genesis, connects);
    if t.chain != [] {
      ActiveIsBest(u, TipOf(t.chain), genesis, connects);
    }
    if u.chain != [] {
      ActiveIsBest(t, TipOf(u.chain), genesis, connects);
    }
  }

  lemma {:induction false} TipConnects(t: Tree, genesis: Ptr, connects: Ptr -> bool)
    requires CoreOk(t, [], genesis, connects)
    ensures t.st.Keys == t.nodes.Keys && Shaped(t.nodes)
    ensures t.chain != [] ==> TipOf(t.chain) in t.nodes && t.st[TipOf(t.chain)].Linked()
    ensures t.chain != [] ==> AllConnect(t.nodes, connects, TipOf(t.chain))
  {
    hide DataOk, UnlinkedOk, FailOk, LevelsOk, Skips, Elements, Distinct, FloorOk, Complete, NoneWorse;
    if t.chain != [] {
      ChainConnects(t.nodes, t.st, t.chain, connects, |t.chain| - 1);
    }
  }

  // ---------- are all candidates there? ----------

  /** They are while the best tip there ever was is the active one. */
  lemma {:induction false} BestTipIsStocked(t: Tree, genesis: Ptr, connects: Ptr -> bool)
    requires CoreOk(t, [], genesis, connects) && t.floor == TipOf(t.chain)
    ensures Stocked(t)
  {
    hide DataOk, UnlinkedOk, FailOk, LevelsOk, Skips, Elements, Distinct, ChainOk, FloorOk, Clean, Worse, NoneWorse;
    ChainIsPath(t, genesis, connects);
  }

  /** A judgement takes nothing from the candidates but what failed. */
  lemma {:induction false} StockedJudged(t: Tree, st': Statuses, cand': set<Ptr>)
    requires Stocked(t) && Judged(t.nodes, t.st, st', t.cand, cand')
    ensures Stocked(t.(st := st', cand := cand'))
  {
    hide Clean, Shaped, TipOf;
    JudgedIsOnlyJudged(t.nodes, t.st, st', t.cand, cand');
    forall b | b in t.nodes && Clean(t.nodes, st', b)
      ensures Clean(t.nodes, t.st, b)
    {
      CleanShrinks(t.nodes, t.st, st', b);
    }
  }

  /** Candidates that are gone failed, or sort below the tip. */
  ghost predicate Dropped(t0: Tree, t: Tree) {
    && Shaped(t.nodes) && t.st.Keys == t.nodes.Keys && (t.chain != [] ==> TipOf(t.chain) in t.nodes)
    && forall c | c in t0.cand && c !in t.cand && c in t.nodes ::
         !Clean(t.nodes, t.st, c) || (t.chain != [] && Worse(t.nodes, t.st, c, TipOf(t.chain)))
  }

  lemma {:induction false} DroppedNothing(t0: Tree, t: Tree, genesis: Ptr, connects: Ptr -> bool)
    requires CoreOk(t, [], genesis, connects) && t.cand == t0.cand
    ensures Dropped(t0, t)
  {
    hide CoreOk, Shaped, TipOf;
    ChainIsPath(t, genesis, connects);
  }

  /** Judging blocks and dropping a failed one. */
  lemma {:induction false} DroppedJudged(t0: Tree, t: Tree, st': Statuses, cand': set<Ptr>)
    requires Dropped(t0, t) && Judged(t.nodes, t.st, st', t.cand, cand')
    ensures Dropped(t0, t.(st := st', cand := cand'))
  {
    hide Clean, Shaped, TipOf;
    JudgedIsOnlyJudged(t.nodes, t.st, st', t.cand, cand');
    forall c | c in t0.cand && c !in t.cand && c in t.nodes
      ensures Clean(t.nodes, st', c) ==> Clean(t.nodes, t.st, c)
    {
      CleanShrinks(t.nodes, t.st, st', c);
    }
  }

  /** A better tip. */
  lemma {:induction false} DroppedExtended(t0: Tree, t: Tree, b: Ptr, floor: Ptr)
    requires Dropped(t0, t) && b in t.nodes && t.nodes[b].prev == TipOf(t.chain) && b != NULL
    ensures Dropped(t0, t.(chain := t.chain + [b], floor := floor))
  {
    hide Clean;
  }

  lemma {:induction false} DroppedPruned(t0: Tree, t: Tree, cand': set<Ptr>)
    requires Dropped(t0, t) && t.chain != [] && TipOf(t.chain) in t.nodes
    requires forall c | c in t.cand && c !in cand' && c in t.nodes :: Worse(t.nodes, t.st, c, TipOf(t.chain))
    ensures Dropped(t0, t.(cand := cand'))
  {
    hide Clean, Shaped, TipOf, Worse;
  }

  /** The tip does not sort below the one before. */
  ghost predicate TipNotBelow(t0: Tree, t: Tree) {
    t0.chain != [] ==>
      && t.chain != [] && TipOf(t0.chain) in t.nodes && TipOf(t.chain) in t.nodes && t.st.Keys == t.nodes.Keys
      && !Worse(t.nodes, t.st, TipOf(t.chain), TipOf(t0.chain))
  }

  /** A tip that is not below the one before leaves nothing out ... */
  lemma {:induction false} StockedAfter(t0: Tree, t: Tree, genesis: Ptr, connects: Ptr -> bool)
    requires CoreOk(t0, [], genesis, connects) && CoreOk(t, [], genesis, connects)
    requires Judging(t0, t) && Dropped(t0, t) && Stocked(t0) && TipNotBelow(t0, t)
    ensures Stocked(t)
  {
    hide CoreOk, Clean, Shaped, TipOf, Worse;
    ChainIsPath(t, genesis, connects);
    ChainIsPath(t0, genesis, connects);
    forall b | b in t.nodes && t.st[b].Linked() && Clean(t.nodes, t.st, b)
      ensures b in t.cand || (t.chain != [] && Worse(t.nodes, t.st, b, TipOf(t.chain)))
    {
      CleanShrinks(t.nodes, t0.st, t.st, b);
      if t0.chain != [] {
        SameOrder(t0, t, b, TipOf(t0.chain));
        WorseIsTotalOrder(t.nodes, t.st, b, TipOf(t.chain), TipOf(t0.chain));
      }
    }
  }

  /** ... and one that is below it is itself missing. */
  lemma {:induction false} LowerTipIsMissing(t0: Tree, t: Tree, genesis: Ptr, connects: Ptr -> bool)
    requires TreeInv(t0, genesis, connects) && CoreOk(t, [], genesis, connects)
    requires Judging(t0, t) && t.chain != [] && !TipNotBelow(t0, t)
    ensures !Stocked(t) && TipOf(t.chain) in t.nodes && TipOf(t.chain) !in t.cand
    ensures t.st.Keys == t.nodes.Keys && Shaped(t.nodes)
    ensures t.st[TipOf(t.chain)].Linked() && Clean(t.nodes, t.st, TipOf(t.chain))
  {
    hide DataOk, UnlinkedOk, FailOk, LevelsOk, Shaped, Skips, Elements, Distinct, ChainOk, FloorOk, Complete, Clean,
         Worse, TipOf;
    var tip := TipOf(t.chain);
    ChainIsPath(t, genesis, connects);
    ChainIsPath(t0, genesis, connects);
    TipIsClean(t, genesis, connects);
    SameOrder(t0, t, tip, TipOf(t0.chain));
    WorseIsTotalOrder(t.nodes, t.st, tip, tip, tip);
  }

  lemma {:induction false} TipIsClean(t: Tree, genesis: Ptr, connects: Ptr -> bool)
    requires CoreOk(t, [], genesis, connects) && t.chain != []
    ensures Shaped(t.nodes) && t.st.Keys == t.nodes.Keys && TipOf(t.chain) in t.nodes
    ensures t.st[TipOf(t.chain)].Linked() && Clean(t.nodes, t.st, TipOf(t.chain))
  {
    hide UnlinkedOk, LevelsOk, Skips, Distinct, Elements, FloorOk, Complete, NoneWorse, FailOk, DataOk, Clean;
    NothingQueued();
    ChainConnects(t.nodes, t.st, t.chain, connects, |t.chain| - 1);
    ConnectingIsClean(t.nodes, t.st, t.nextSeq, connects, TipOf(t.chain));
  }

  /**
   * When one step of activation moved the tip, from a state in which no candidate was missing, none
   * is missing afterwards exactly if the new tip does not sort below the old one.
   */
  lemma {:induction false} StockedExactly(t0: Tree, t: Tree, genesis: Ptr, connects: Ptr -> bool)
    requires TreeInv(t0, genesis, connects) && TreeInv(t, genesis, connects)
    requires Judging(t0, t) && Dropped(t0, t) && Stocked(t0) && (t0.chain != [] ==> t.chain != [])
    ensures Stocked(t) <==> TipNotBelow(t0, t)
  {
    hide CoreOk, Pruned, Judging, Dropped, Stocked, TipNotBelow;
    if TipNotBelow(t0, t) {
      StockedAfter(t0, t, genesis, connects);
    } else {
      NotBelowEmpty(t0, t);
      LowerTipIsMissing(t0, t, genesis, connects);
    }
  }

  lemma {:induction false} NotBelowEmpty(t0: Tree, t: Tree)
    requires !TipNotBelow(t0, t)
    ensures t0.chain != []
  {}

  /** What activation has when it succeeds. */
  lemma {:induction false} ActiveIsStocked(t: Tree, genesis: Ptr, connects: Ptr -> bool)
    requires CoreOk(t, [], genesis, connects) && Active(t)
    ensures Stocked(t)
  {
    hide CoreOk, Shaped, Clean, Worse;
    BestTipIsStocked(t, genesis, connects);
  }

  // ---------- the two blocks on top ----------

  ghost predicate OnTop(t: Tree, tip: Ptr, p: Ptr) {
    && |t.chain| > 1 && TipOf(t.chain) == tip && TipOf(t.chain[..|t.chain| - 1]) == p
    && tip in t.nodes && t.nodes[tip].prev == p && p in t.nodes && p != NULL && p != tip
  }

  lemma {:induction false} TopOfChain(t: Tree, genesis: Ptr, connects: Ptr -> bool)
    requires CoreOk(t, [], genesis, connects) && |t.chain| > 1
    ensures OnTop(t, TipOf(t.chain), TipOf(t.chain[..|t.chain| - 1]))
  {
    hide CoreOk, Shaped, IsPath;
    ChainIsPath(t, genesis, connects);
    PathStep(t.nodes, t.chain, |t.chain| - 1);
    PathStep(t.nodes, t.chain, |t.chain| - 2);
  }

  lemma {:induction false} TipIsOther(t: Tree, b: Ptr, genesis: Ptr, connects: Ptr -> bool)
    requires CoreOk(t, [], genesis, connects) && b in t.nodes && t.nodes[b].prev == TipOf(t.chain)
    ensures b != TipOf(t.chain) && b != NULL
  {
    hide DataOk, UnlinkedOk, FailOk, LevelsOk, SelectionOk, Skips, Elements, Distinct;
  }

  lemma {:induction false} TipOfMore(chain: seq<Ptr>, b: Ptr)
    ensures TipOf(chain + [b]) == b
  {}
}
