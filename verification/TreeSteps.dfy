/**
 * The single changes made to the block tree, each proved to keep the invariant.
 */
module TreeSteps {
  import opened BlockNodes
  import opened BlockStatus

  const NEW_STATUS := Status(0, 0, 0, false, VALID_TREE, false, false)

  // ---------- a new header ----------

  lemma {:induction false} ExtendClean(nodes: Nodes, st: Statuses, more: Nodes, st': Statuses, c: Ptr)
    requires Shaped(nodes) && Shaped(more) && st.Keys == nodes.Keys && st'.Keys == more.Keys && c in nodes
    requires forall d | d in nodes :: d in more && more[d] == nodes[d] && st'[d] == st[d]
    ensures Clean(more, st', c) == Clean(nodes, st, c)
    decreases nodes[c].height
  {
    if nodes[c].prev != NULL {
      ExtendClean(nodes, st, more, st', nodes[c].prev);
    }
  }

  lemma {:induction false} ExtendAllConnect(nodes: Nodes, more: Nodes, connects: Ptr -> bool, c: Ptr)
    requires Shaped(nodes) && Shaped(more) && c in nodes
    requires forall d | d in nodes :: d in more && more[d] == nodes[d]
    ensures AllConnect(more, connects, c) == AllConnect(nodes, connects, c)
    decreases nodes[c].height
  {
    if nodes[c].prev != NULL {
      ExtendAllConnect(nodes, more, connects, nodes[c].prev);
    }
  }

  lemma {:induction false} AddHeaderNumbered(nodes: Nodes, st: Statuses, b: Ptr, n: Node)
    requires st.Keys == nodes.Keys && Numbered(nodes, st) && b !in nodes
    ensures Numbered(nodes[b := n], st[b := NEW_STATUS])
  {}

  lemma {:induction false} AddHeaderData(nodes: Nodes, st: Statuses, b: Ptr, n: Node, nextSeq: nat)
    requires Shaped(nodes) && Shaped(nodes[b := n]) && st.Keys == nodes.Keys && b != NULL && b !in nodes
    requires DataOk(nodes, st, nextSeq, {}) && nextSeq > 0
    ensures DataOk(nodes[b := n], st[b := NEW_STATUS], nextSeq, {})
  {
    hide Numbered;
    AddHeaderNumbered(nodes, st, b, n);
    forall c | c in nodes
      ensures CountOk(nodes[b := n], st[b := NEW_STATUS], c)
    {
      assert CountOk(nodes, st, c);
    }
  }

  lemma {:induction false} AddHeaderUnlinked(nodes: Nodes, st: Statuses, b: Ptr, n: Node, m: Multimap)
    requires Shaped(nodes) && Shaped(nodes[b := n]) && st.Keys == nodes.Keys && b != NULL && b !in nodes
    requires UnlinkedOk(nodes, st, m, {})
    ensures UnlinkedOk(nodes[b := n], st[b := NEW_STATUS], m, {})
  {}

  lemma {:induction false} AddHeaderFlags(nodes: Nodes, st: Statuses, b: Ptr, n: Node, connects: Ptr -> bool)
    requires Shaped(nodes) && Shaped(nodes[b := n]) && st.Keys == nodes.Keys && b != NULL && b !in nodes
    requires FailOk(nodes, st, connects) && LevelsOk(nodes, st)
    ensures FailOk(nodes[b := n], st[b := NEW_STATUS], connects)
    ensures LevelsOk(nodes[b := n], st[b := NEW_STATUS])
  {
    forall c | c in nodes
      ensures Clean(nodes[b := n], st[b := NEW_STATUS], c) == Clean(nodes, st, c)
    {
      ExtendClean(nodes, st, nodes[b := n], st[b := NEW_STATUS], c);
    }
  }

  lemma {:induction false} AddHeaderSelection(t: Tree, b: Ptr, n: Node, connects: Ptr -> bool)
    requires Shaped(t.nodes) && Shaped(t.nodes[b := n]) && t.st.Keys == t.nodes.Keys && b != NULL && b !in t.nodes
    requires SelectionOk(t, connects) && (t.chain == [] || TipOf(t.chain) in t.nodes) && Pruned(t)
    ensures var t' := t.(nodes := t.nodes[b := n], st := t.st[b := NEW_STATUS]); SelectionOk(t', connects) && Pruned(t')
  {
    AddHeaderChain(t, b, n, connects);
    AddHeaderCandidates(t, b, n);
  }

  lemma {:induction false} AddHeaderChain(t: Tree, b: Ptr, n: Node, connects: Ptr -> bool)
    requires Shaped(t.nodes) && Shaped(t.nodes[b := n]) && t.st.Keys == t.nodes.Keys && b != NULL && b !in t.nodes
    requires ChainOk(t.nodes, t.st, t.chain, connects) && FloorOk(t.nodes, t.st, TipOf(t.chain), t.floor, connects)
    ensures ChainOk(t.nodes[b := n], t.st[b := NEW_STATUS], t.chain, connects)
    ensures FloorOk(t.nodes[b := n], t.st[b := NEW_STATUS], TipOf(t.chain), t.floor, connects)
  {
    if t.floor != NULL {
      ExtendAllConnect(t.nodes, t.nodes[b := n], connects, t.floor);
    }
  }

  lemma {:induction false} AddHeaderCandidates(t: Tree, b: Ptr, n: Node)
    requires Shaped(t.nodes) && Shaped(t.nodes[b := n]) && t.st.Keys == t.nodes.Keys && b != NULL && b !in t.nodes
    requires (t.chain == [] || TipOf(t.chain) in t.nodes) && (t.floor == NULL || t.floor in t.nodes)
    requires Complete(t.nodes, t.st, t.cand, t.floor) && NoneWorse(t.nodes, t.st, t.cand, NULL) && Pruned(t)
    ensures var t' := t.(nodes := t.nodes[b := n], st := t.st[b := NEW_STATUS]);
            Complete(t'.nodes, t'.st, t'.cand, t'.floor) && NoneWorse(t'.nodes, t'.st, t'.cand, NULL) && Pruned(t')
  {
    forall c | c in t.nodes
      ensures Clean(t.nodes[b := n], t.st[b := NEW_STATUS], c) == Clean(t.nodes, t.st, c)
    {
      ExtendClean(t.nodes, t.st, t.nodes[b := n], t.st[b := NEW_STATUS], c);
    }
  }

  lemma {:induction false} TipInNodes(t: Tree, connects: Ptr -> bool)
    requires Shaped(t.nodes) && t.st.Keys == t.nodes.Keys && SelectionOk(t, connects)
    ensures t.chain != [] ==> TipOf(t.chain) in t.nodes
  {}

  lemma {:induction false} AddHeaderShape(nodes: Nodes, st: Statuses, b: Ptr, n: Node, genesis: Ptr)
    requires TreeOk(nodes, st, genesis) && b != NULL && b !in nodes && (n.prev == NULL <==> b == genesis)
    requires Follows(nodes, n)
    ensures Shaped(nodes) && Shaped(nodes[b := n]) && st.Keys == nodes.Keys
    ensures TreeOk(nodes[b := n], st[b := NEW_STATUS], genesis)
  {
    AddNodeKeepsShape(nodes, b, n);
  }

  /** n is what a header on top of n.prev becomes. */
  ghost predicate Follows(nodes: Nodes, n: Node)
    requires Shaped(nodes)
  {
    if n.prev == NULL then n.height == 0 else
      && n.prev in nodes
      && n.height == nodes[n.prev].height + 1
      && n.work > nodes[n.prev].work
      && n.skip == Ancestor(nodes, n.prev, GetSkipHeight(n.height))
  }

  lemma {:induction false} AddHeader(t: Tree, b: Ptr, n: Node, genesis: Ptr, connects: Ptr -> bool)
    requires TreeInv(t, genesis, connects) && b != NULL && b !in t.nodes && (n.prev == NULL <==> b == genesis)
    requires Follows(t.nodes, n)
    ensures TreeInv(t.(nodes := t.nodes[b := n], st := t.st[b := NEW_STATUS]), genesis, connects)
  {
    assert Elements([]) == {};
    AddHeaderShape(t.nodes, t.st, b, n, genesis);
    TipInNodes(t, connects);
    hide TreeOk, Shaped, DataOk, UnlinkedOk, FailOk, LevelsOk, SelectionOk, Pruned, Follows;
    AddHeaderData(t.nodes, t.st, b, n, t.nextSeq);
    AddHeaderUnlinked(t.nodes, t.st, b, n, t.m);
    AddHeaderFlags(t.nodes, t.st, b, n, connects);
    AddHeaderSelection(t, b, n, connects);
  }

  // ---------- the data of a block arrives ----------

  /** Insert into the multimap, behind the other children of the same parent. */
  function Insert(m: Multimap, p: Ptr, c: Ptr): Multimap {
    m[p := Children(m, p) + [c]]
  }

  /** The status a block gets when its data is stored. */
  function WithData(s: Status, nTx: nat): Status {
    s.(nTx := nTx, nChainTx := 0, haveData := true).Raise(VALID_TRANSACTIONS)
  }

  ghost predicate CanReceive(t: Tree, b: Ptr, nTx: nat)
    requires t.st.Keys == t.nodes.Keys
  {
    b in t.nodes && !t.st[b].haveData && !t.st[b].Failed() && nTx > 0
  }

  lemma {:induction false} SameNumbers(nodes: Nodes, st: Statuses, st': Statuses)
    requires st.Keys == st'.Keys == nodes.Keys && Numbered(nodes, st)
    requires forall b | b in nodes && st'[b].Linked() :: st[b].Linked() && st'[b].seqId == st[b].seqId
    ensures Numbered(nodes, st')
  {}

  lemma {:induction false} MarkDataCounts(t: Tree, b: Ptr, nTx: nat)
    requires Shaped(t.nodes) && t.st.Keys == t.nodes.Keys && CanReceive(t, b, nTx)
    requires DataOk(t.nodes, t.st, t.nextSeq, {})
    ensures DataOk(t.nodes, t.st[b := WithData(t.st[b], nTx)], t.nextSeq,
                   if ParentLinked(t.nodes, t.st, b) then {b} else {})
    ensures !t.st[b].Linked() && t.st[b].level == VALID_TREE
  {
    hide Numbered;
    var st' := t.st[b := WithData(t.st[b], nTx)];
    assert CountOk(t.nodes, t.st, b);
    SameNumbers(t.nodes, t.st, st');
    forall c | c in t.nodes && c != b
      ensures CountOk(t.nodes, st', c)
    {
      assert CountOk(t.nodes, t.st, c);
    }
  }

  /** The parent is linked, so the block goes to the work queue ... */
  lemma {:induction false} MarkDataQueued(t: Tree, b: Ptr, nTx: nat)
    requires Shaped(t.nodes) && t.st.Keys == t.nodes.Keys && CanReceive(t, b, nTx) && !t.st[b].Linked()
    requires UnlinkedOk(t.nodes, t.st, t.m, {})
    ensures UnlinkedOk(t.nodes, t.st[b := WithData(t.st[b], nTx)], t.m, {b})
  {}

  /** ... or it is not: then the block waits under its parent, unless that can never get data. */
  lemma {:induction false} MarkDataUnlinked(t: Tree, b: Ptr, nTx: nat, connects: Ptr -> bool)
    requires Shaped(t.nodes) && t.st.Keys == t.nodes.Keys && CanReceive(t, b, nTx) && !t.st[b].Linked()
    requires UnlinkedOk(t.nodes, t.st, t.m, {}) && FailOk(t.nodes, t.st, connects) && !ParentLinked(t.nodes, t.st, b)
    ensures UnlinkedOk(t.nodes, t.st[b := WithData(t.st[b], nTx)], StillWaiting(t, b), {})
  {
    assert b !in Children(t.m, t.nodes[b].prev);
    MarkDataListed(t, b, nTx);
    MarkDataAllListed(t, b, nTx, connects);
  }

  function StillWaiting(t: Tree, b: Ptr): Multimap
    requires t.st.Keys == t.nodes.Keys && b in t.nodes && t.nodes[b].prev in t.nodes
  {
    if t.st[t.nodes[b].prev].Failed() then t.m else Insert(t.m, t.nodes[b].prev, b)
  }

  lemma {:induction false} MarkDataListed(t: Tree, b: Ptr, nTx: nat)
    requires Shaped(t.nodes) && t.st.Keys == t.nodes.Keys && CanReceive(t, b, nTx) && !t.st[b].Linked()
    requires Listed(t.nodes, t.st, t.m, {}) && !ParentLinked(t.nodes, t.st, b) && b !in Children(t.m, t.nodes[b].prev)
    ensures Listed(t.nodes, t.st[b := WithData(t.st[b], nTx)], StillWaiting(t, b), {})
  {}

  lemma {:induction false} MarkDataAllListed(t: Tree, b: Ptr, nTx: nat, connects: Ptr -> bool)
    requires Shaped(t.nodes) && t.st.Keys == t.nodes.Keys && CanReceive(t, b, nTx) && !t.st[b].Linked()
    requires AllListed(t.nodes, t.st, t.m, {}) && FailOk(t.nodes, t.st, connects) && !ParentLinked(t.nodes, t.st, b)
    ensures AllListed(t.nodes, t.st[b := WithData(t.st[b], nTx)], StillWaiting(t, b), {})
  {
    var p := t.nodes[b].prev;
    assert t.st[p].Failed() ==> !t.st[p].haveData;
  }

  lemma {:induction false} MarkDataFlags(t: Tree, b: Ptr, nTx: nat, connects: Ptr -> bool)
    requires Shaped(t.nodes) && t.st.Keys == t.nodes.Keys && CanReceive(t, b, nTx) && !t.st[b].Linked()
    requires t.st[b].level == VALID_TREE
    requires FailOk(t.nodes, t.st, connects) && LevelsOk(t.nodes, t.st)
    ensures FailOk(t.nodes, t.st[b := WithData(t.st[b], nTx)], connects)
    ensures LevelsOk(t.nodes, t.st[b := WithData(t.st[b], nTx)])
  {
    forall c | c in t.nodes
      ensures Clean(t.nodes, t.st[b := WithData(t.st[b], nTx)], c) == Clean(t.nodes, t.st, c)
    {
      CleanSame(t.nodes, t.st, t.st[b := WithData(t.st[b], nTx)], c);
    }
  }

  lemma {:induction false} MarkDataSelection(t: Tree, b: Ptr, nTx: nat, m': Multimap, connects: Ptr -> bool)
    requires Shaped(t.nodes) && t.st.Keys == t.nodes.Keys && CanReceive(t, b, nTx) && !t.st[b].Linked()
    requires t.st[b].level == VALID_TREE
    requires SelectionOk(t, connects) && (t.chain == [] || TipOf(t.chain) in t.nodes) && Pruned(t)
    ensures var t' := t.(st := t.st[b := WithData(t.st[b], nTx)], m := m'); SelectionOk(t', connects) && Pruned(t')
  {
    forall c | c in t.nodes
      ensures Clean(t.nodes, t.st[b := WithData(t.st[b], nTx)], c) == Clean(t.nodes, t.st, c)
    {
      CleanSame(t.nodes, t.st, t.st[b := WithData(t.st[b], nTx)], c);
    }
  }

  /** The state after the data of b is stored, before anything is linked. */
  ghost function Marked(t: Tree, b: Ptr, nTx: nat): Tree
    requires Shaped(t.nodes) && t.st.Keys == t.nodes.Keys && b in t.nodes
  {
    t.(st := t.st[b := WithData(t.st[b], nTx)], m := if ParentLinked(t.nodes, t.st, b) then t.m else StillWaiting(t, b))
  }

  lemma {:induction false} MarkDataWaits(t: Tree, b: Ptr, nTx: nat, connects: Ptr -> bool)
    requires Shaped(t.nodes) && t.st.Keys == t.nodes.Keys && CanReceive(t, b, nTx) && !t.st[b].Linked()
    requires UnlinkedOk(t.nodes, t.st, t.m, {}) && FailOk(t.nodes, t.st, connects)
    ensures UnlinkedOk(t.nodes, Marked(t, b, nTx).st, Marked(t, b, nTx).m,
                       if ParentLinked(t.nodes, t.st, b) then {b} else {})
  {
    hide UnlinkedOk, FailOk, WithData;
    if ParentLinked(t.nodes, t.st, b) {
      MarkDataQueued(t, b, nTx);
    } else {
      MarkDataUnlinked(t, b, nTx, connects);
    }
  }

  lemma {:induction false} QueueOf(b: Ptr)
    ensures Distinct([b]) && Elements([b]) == {b} && Distinct([]) && Elements([]) == {}
  {}

  lemma {:induction false} MarkedIs(t: Tree, b: Ptr, nTx: nat)
    requires Shaped(t.nodes) && t.st.Keys == t.nodes.Keys && b in t.nodes
    ensures Marked(t, b, nTx) == t.(st := t.st[b := WithData(t.st[b], nTx)], m := Marked(t, b, nTx).m)
  {}

  /** Storing the data of a block: it waits either in the work queue or under its parent. */
  lemma {:induction false} MarkData(t: Tree, b: Ptr, nTx: nat, genesis: Ptr, connects: Ptr -> bool)
    requires TreeInv(t, genesis, connects) && Shaped(t.nodes) && t.st.Keys == t.nodes.Keys && CanReceive(t, b, nTx)
    ensures CoreOk(Marked(t, b, nTx), if ParentLinked(t.nodes, t.st, b) then [b] else [], genesis, connects)
    ensures Pruned(Marked(t, b, nTx))
  {
    hide DataOk, UnlinkedOk, FailOk, LevelsOk, SelectionOk, Pruned, Shaped, Skips, ParentLinked, StillWaiting, WithData,
         TipOf;
    hide Elements, Distinct, Marked;
    var t' := Marked(t, b, nTx);
    QueueOf(b);
    TipInNodes(t, connects);
    MarkedIs(t, b, nTx);
    MarkDataCounts(t, b, nTx);
    MarkDataFlags(t, b, nTx, connects);
    MarkDataSelection(t, b, nTx, t'.m, connects);
    MarkDataWaits(t, b, nTx, connects);
  }

  // ---------- a block is linked ----------

  /** The state after the first block of the work queue is linked. */
  ghost function LinkFirst(t: Tree, queue: seq<Ptr>): Tree
    requires Ready(t, queue)
  {
    t.(st := LinkedStatus(t, queue[0]), nextSeq := t.nextSeq + 1, cand := LinkedCandidates(t, queue[0]),
       m := t.m - {queue[0]})
  }

  ghost function LinkedStatus(t: Tree, b: Ptr): Statuses
    requires Shaped(t.nodes) && t.st.Keys == t.nodes.Keys && b in t.nodes
  {
    var count := (if t.nodes[b].prev == NULL then 0 else t.st[t.nodes[b].prev].nChainTx) + t.st[b].nTx;
    t.st[b := t.st[b].(nChainTx := count, seqId := t.nextSeq)]
  }

  ghost function LinkedCandidates(t: Tree, b: Ptr): set<Ptr>
    requires Shaped(t.nodes) && t.st.Keys == t.nodes.Keys && b in t.nodes
    requires t.chain == [] || TipOf(t.chain) in t.nodes
  {
    if t.chain == [] || !Worse(t.nodes, LinkedStatus(t, b), b, TipOf(t.chain)) then t.cand + {b} else t.cand
  }

  ghost predicate Ready(t: Tree, queue: seq<Ptr>) {
    && Shaped(t.nodes) && t.st.Keys == t.nodes.Keys
    && queue != [] && queue[0] in t.nodes
    && (t.chain == [] || TipOf(t.chain) in t.nodes)
  }

  /** What is known of the first block of the queue. */
  ghost predicate First(t: Tree, b: Ptr)
    requires Shaped(t.nodes) && t.st.Keys == t.nodes.Keys && b in t.nodes
  {
    Waiting(t.nodes, t.st, b) && t.st[b].nTx > 0
  }

  lemma {:induction false} QueueParts(queue: seq<Ptr>)
    requires Distinct(queue) && queue != []
    ensures queue[0] in Elements(queue) && queue[0] !in queue[1..]
    ensures forall c :: c in Elements(queue) <==> c == queue[0] || c in queue[1..]
  {
    assert queue == [queue[0]] + queue[1..];
  }

  lemma {:induction false} QueueIsReady(t: Tree, queue: seq<Ptr>, genesis: Ptr, connects: Ptr -> bool)
    requires CoreOk(t, queue, genesis, connects) && queue != []
    ensures Ready(t, queue) && First(t, queue[0])
  {
    hide UnlinkedOk, FailOk, LevelsOk, Shaped, Skips;
    QueueParts(queue);
    TipInNodes(t, connects);
  }

  lemma {:induction false} LinkFirstQueue(t: Tree, queue: seq<Ptr>)
    requires Ready(t, queue) && Distinct(queue) && UnlinkedOk(t.nodes, t.st, t.m, Elements(queue))
    ensures Distinct(queue[1..] + Children(t.m, queue[0]))
  {
    var rest, kids := queue[1..], Children(t.m, queue[0]);
    forall i, j | 0 <= i < j < |rest + kids|
      ensures (rest + kids)[i] != (rest + kids)[j]
    {
      if i < |rest| <= j {
        assert queue[i + 1] in Elements(queue);
        assert kids[j - |rest|] in kids;
      }
    }
  }

  lemma {:induction false} NextNumber(t: Tree, b: Ptr)
    requires Shaped(t.nodes) && t.st.Keys == t.nodes.Keys && b in t.nodes && Numbered(t.nodes, t.st)
    requires forall c | c in t.nodes :: t.st[c].seqId < t.nextSeq
    ensures Numbered(t.nodes, LinkedStatus(t, b))
  {}

  /** The children that waited for a block are ready once it is linked; the others had no data. */
  lemma {:induction false} LinkFirstCounts(t: Tree, queue: seq<Ptr>)
    requires Ready(t, queue) && First(t, queue[0]) && Distinct(queue)
    requires DataOk(t.nodes, t.st, t.nextSeq, Elements(queue)) && UnlinkedOk(t.nodes, t.st, t.m, Elements(queue))
    ensures DataOk(t.nodes, LinkedStatus(t, queue[0]), t.nextSeq + 1, Elements(queue[1..] + Children(t.m, queue[0])))
  {
    hide Numbered;
    var b, kids := queue[0], Children(t.m, queue[0]);
    var st', queue' := LinkedStatus(t, b), queue[1..] + kids;
    QueueParts(queue);
    NextNumber(t, b);
    forall c | c in Elements(queue')
      ensures c in t.nodes && Waiting(t.nodes, st', c)
    {
      assert c in queue[1..] || c in kids;
    }
    forall c | c in t.nodes && c !in Elements(queue')
      ensures CountOk(t.nodes, st', c)
    {
      if c != b {
        assert c !in queue[1..] && c !in kids;
        assert CountOk(t.nodes, t.st, c);
      }
    }
  }

  lemma {:induction false} LinkFirstUnlinked(t: Tree, queue: seq<Ptr>)
    requires Ready(t, queue) && First(t, queue[0]) && Distinct(queue)
    requires UnlinkedOk(t.nodes, t.st, t.m, Elements(queue))
    ensures UnlinkedOk(t.nodes, LinkedStatus(t, queue[0]), t.m - {queue[0]},
                       Elements(queue[1..] + Children(t.m, queue[0])))
  {
    LinkFirstListed(t, queue);
    LinkFirstAllListed(t, queue);
  }

  lemma {:induction false} LinkFirstListed(t: Tree, queue: seq<Ptr>)
    requires Ready(t, queue) && First(t, queue[0]) && Distinct(queue)
    requires Listed(t.nodes, t.st, t.m, Elements(queue))
    ensures Listed(t.nodes, LinkedStatus(t, queue[0]), t.m - {queue[0]}, Elements(queue[1..] + Children(t.m, queue[0])))
  {
    var b, kids := queue[0], Children(t.m, queue[0]);
    var st', m', queue' := LinkedStatus(t, b), t.m - {b}, queue[1..] + kids;
    QueueParts(queue);
    forall p, c | p in m' && c in m'[p]
      ensures c in t.nodes && t.nodes[c].prev == p && p != NULL && st'[c].haveData && !st'[c].Linked()
      ensures c !in Elements(queue')
    {
      assert c !in Elements(queue) && c !in kids;
    }
  }

  lemma {:induction false} LinkFirstAllListed(t: Tree, queue: seq<Ptr>)
    requires Ready(t, queue) && First(t, queue[0]) && Distinct(queue)
    requires AllListed(t.nodes, t.st, t.m, Elements(queue))
    ensures AllListed(t.nodes, LinkedStatus(t, queue[0]), t.m - {queue[0]},
                      Elements(queue[1..] + Children(t.m, queue[0])))
  {
    var b, kids := queue[0], Children(t.m, queue[0]);
    var st', m', queue' := LinkedStatus(t, b), t.m - {b}, queue[1..] + kids;
    QueueParts(queue);
    forall c | c in t.nodes && st'[c].haveData && !st'[c].Linked() && c !in Elements(queue')
      ensures t.nodes[c].prev != NULL
      ensures var p := t.nodes[c].prev; c in Children(m', p) || (st'[p].Failed() && !st'[p].haveData)
    {
      assert c != b && c !in kids && c !in queue[1..];
    }
  }

  lemma {:induction false} LinkFirstFlags(t: Tree, queue: seq<Ptr>, connects: Ptr -> bool)
    requires Ready(t, queue) && First(t, queue[0])
    requires FailOk(t.nodes, t.st, connects) && LevelsOk(t.nodes, t.st)
    ensures FailOk(t.nodes, LinkedStatus(t, queue[0]), connects) && LevelsOk(t.nodes, LinkedStatus(t, queue[0]))
  {
    LinkFirstClean(t, queue);
  }

  lemma {:induction false} LinkFirstClean(t: Tree, queue: seq<Ptr>)
    requires Ready(t, queue)
    ensures forall c | c in t.nodes :: Clean(t.nodes, LinkedStatus(t, queue[0]), c) == Clean(t.nodes, t.st, c)
  {
    var st' := LinkedStatus(t, queue[0]);
    forall c | c in t.nodes
      ensures Clean(t.nodes, st', c) == Clean(t.nodes, t.st, c)
    {
      CleanSame(t.nodes, t.st, st', c);
    }
  }

  lemma {:induction false} LinkFirstChain(t: Tree, queue: seq<Ptr>, connects: Ptr -> bool)
    requires Ready(t, queue) && First(t, queue[0])
    requires ChainOk(t.nodes, t.st, t.chain, connects) && FloorOk(t.nodes, t.st, TipOf(t.chain), t.floor, connects)
    ensures ChainOk(t.nodes, LinkedStatus(t, queue[0]), t.chain, connects)
    ensures FloorOk(t.nodes, LinkedStatus(t, queue[0]), TipOf(t.chain), t.floor, connects)
  {}

  lemma {:induction false} LinkFirstCandidates(t: Tree, queue: seq<Ptr>, connects: Ptr -> bool)
    requires Ready(t, queue) && First(t, queue[0]) && (t.chain != [] ==> t.st[TipOf(t.chain)].Linked())
    requires FloorOk(t.nodes, t.st, TipOf(t.chain), t.floor, connects)
    requires Complete(t.nodes, t.st, t.cand, t.floor) && NoneWorse(t.nodes, t.st, t.cand, TipOf(t.chain))
    ensures var st', cand' := LinkedStatus(t, queue[0]), LinkedCandidates(t, queue[0]);
            Complete(t.nodes, st', cand', t.floor) && NoneWorse(t.nodes, st', cand', TipOf(t.chain))
  {
    LinkFirstClean(t, queue);
    if t.floor != NULL {
      WorseIsTotalOrder(t.nodes, LinkedStatus(t, queue[0]), queue[0], t.floor, TipOf(t.chain));
    }
  }

  lemma {:induction false} LinkFirstSelection(t: Tree, queue: seq<Ptr>, connects: Ptr -> bool)
    requires Ready(t, queue) && First(t, queue[0]) && SelectionOk(t, connects) && Pruned(t)
    ensures var t' := LinkFirst(t, queue); SelectionOk(t', connects) && Pruned(t')
  {
    hide Complete, FloorOk;
    LinkFirstChain(t, queue, connects);
    LinkFirstCandidates(t, queue, connects);
  }

  /** Linking the first block of the queue moves the children that waited for it into the queue. */
  lemma {:induction false} LinkFirstKeepsCore(t: Tree, queue: seq<Ptr>, genesis: Ptr, connects: Ptr -> bool)
    requires CoreOk(t, queue, genesis, connects) && Ready(t, queue) && Pruned(t)
    ensures CoreOk(LinkFirst(t, queue), queue[1..] + Children(t.m, queue[0]), genesis, connects)
    ensures Pruned(LinkFirst(t, queue))
  {
    QueueIsReady(t, queue, genesis, connects);
    hide DataOk, UnlinkedOk, FailOk, LevelsOk, SelectionOk, Pruned, Distinct, First, Shaped, Skips;
    LinkFirstQueue(t, queue);
    LinkFirstCounts(t, queue);
    LinkFirstUnlinked(t, queue);
    LinkFirstFlags(t, queue, connects);
    LinkFirstSelection(t, queue, connects);
  }

  // ---------- a whole wave of linking ----------

  ghost predicate WellFormed(t: Tree) {
    && Shaped(t.nodes) && t.st.Keys == t.nodes.Keys
    && (t.chain != [] ==> TipOf(t.chain) in t.nodes && t.st[TipOf(t.chain)].Linked())
  }

  /** Linked between t0 and t, and no worse than the tip. */
  ghost predicate NewCandidate(t0: Tree, t: Tree, c: Ptr)
    requires WellFormed(t0) && WellFormed(t) && t.nodes == t0.nodes
  {
    && c in t0.nodes && !t0.st[c].Linked() && t.st[c].Linked()
    && (t.chain == [] || !Worse(t.nodes, t.st, c, TipOf(t.chain)))
  }

  /**
   * t comes from t0 by linking blocks. Nothing changes for what was linked before, so no
   * candidate moves in the order; the candidates to add are those as good as the tip.
   */
  ghost predicate Linking(t0: Tree, t: Tree) {
    && WellFormed(t0) && WellFormed(t)
    && t.nodes == t0.nodes && t.chain == t0.chain && t.floor == t0.floor && t.nextSeq >= t0.nextSeq
    && (forall c | c in t0.st ::
          && t.st[c] == t0.st[c].(nChainTx := t.st[c].nChainTx, seqId := t.st[c].seqId)
          && (t0.st[c].Linked() ==> t.st[c] == t0.st[c])
          && (!t0.st[c].Linked() && t.st[c].Linked() ==> t0.nextSeq <= t.st[c].seqId < t.nextSeq))
    && forall c {:trigger c in t.cand} {:trigger NewCandidate(t0, t, c)} ::
       c in t.cand <==> c in t0.cand || NewCandidate(t0, t, c)
  }

  lemma {:induction false} LinkingStarts(t: Tree)
    requires WellFormed(t)
    ensures Linking(t, t)
  {}

  lemma {:induction false} LinkingContinues(t0: Tree, t: Tree, queue: seq<Ptr>)
    requires Linking(t0, t) && Ready(t, queue) && First(t, queue[0])
    ensures Linking(t0, LinkFirst(t, queue))
    ensures var b := queue[0]; !t.st[b].Linked() && LinkFirst(t, queue).st[b].Linked()
  {
    var b, t' := queue[0], LinkFirst(t, queue);
    hide Shaped;
    forall c
      ensures c in t'.cand <==> c in t0.cand || NewCandidate(t0, t', c)
    {
      if c != b {
        assert NewCandidate(t0, t, c) <==> NewCandidate(t0, t', c);
      }
    }
  }

  ghost function StillUnlinked(nodes: Nodes, st: Statuses): set<Ptr>
    requires st.Keys == nodes.Keys
  {
    set c | c in nodes && !st[c].Linked()
  }

  lemma {:induction false} FewerUnlinked(t: Tree, queue: seq<Ptr>)
    requires Ready(t, queue) && First(t, queue[0])
    ensures LinkFirst(t, queue).nodes == t.nodes && LinkFirst(t, queue).st.Keys == t.nodes.Keys
    ensures |StillUnlinked(t.nodes, LinkFirst(t, queue).st)| < |StillUnlinked(t.nodes, t.st)|
  {
    var before, after := StillUnlinked(t.nodes, t.st), StillUnlinked(t.nodes, LinkedStatus(t, queue[0]));
    assert after == before - {queue[0]};
  }

  lemma {:induction false} KnownPointers(t: Tree, b: Ptr)
    requires WellFormed(t) && b in t.nodes
    ensures b != NULL && (t.nodes[b].prev != NULL ==> t.nodes[b].prev in t.nodes)
    ensures t.chain == [] <==> TipOf(t.chain) == NULL
  {}

  lemma {:induction false} CoreIsKnown(t: Tree, queue: seq<Ptr>, genesis: Ptr, connects: Ptr -> bool)
    requires CoreOk(t, queue, genesis, connects)
    ensures WellFormed(t)
  {
    hide DataOk, UnlinkedOk, FailOk, LevelsOk, Shaped, Skips, FloorOk, Complete;
  }

  /** Blocks already linked, and the candidates among them, stay as they are; new candidates come later. */
  ghost predicate Kept(t0: Tree, t: Tree) {
    && t0.cand <= t.cand && t0.chain == t.chain && t0.nextSeq <= t.nextSeq
    && (forall c | c in t.cand && c !in t0.cand ::
          c in t.nodes && c in t.st && t.st[c].Linked() && t.st[c].seqId >= t0.nextSeq)
    && forall c | c in t0.nodes && c in t0.st && t0.st[c].Linked() ::
         c in t.nodes && c in t.st && t.nodes[c] == t0.nodes[c] && t.st[c] == t0.st[c]
  }

  lemma {:induction false} KeptByAdding(t0: Tree, b: Ptr, n: Node)
    requires b !in t0.nodes
    ensures Kept(t0, t0.(nodes := t0.nodes[b := n], st := t0.st[b := NEW_STATUS]))
  {}

  lemma {:induction false} KeptByChange(t0: Tree, b: Ptr, s: Status)
    requires b in t0.st && !t0.st[b].Linked()
    ensures Kept(t0, t0.(st := t0.st[b := s]))
  {}

  lemma {:induction false} KeptByLinking(t0: Tree, b: Ptr, nTx: nat, t: Tree)
    requires WellFormed(t0) && b in t0.nodes && !t0.st[b].Linked() && Linking(Marked(t0, b, nTx), t)
    ensures Kept(t0, t)
  {
    hide Shaped;
  }

  lemma {:induction false} LinkedHasData(t0: Tree, b: Ptr, nTx: nat, t: Tree)
    requires WellFormed(t0) && b in t0.nodes && Linking(Marked(t0, b, nTx), t)
    ensures b in t.st && t.st[b].haveData && t.st[b].nTx == nTx && t.st[b].Failed() == t0.st[b].Failed()
            && t.nodes == t0.nodes
  {
    hide Shaped, NewCandidate;
  }

  lemma {:induction false} KeptByNothing(t0: Tree, t: Tree)
    requires t.nodes == t0.nodes && t.st == t0.st && t.cand == t0.cand && t.chain == t0.chain && t.nextSeq == t0.nextSeq
    ensures Kept(t0, t)
  {}

  lemma {:induction false} KeptTrans(a: Tree, b: Tree, c: Tree)
    requires Kept(a, b) && Kept(b, c)
    ensures Kept(a, c)
  {}

  lemma {:induction false} NoDataNotLinked(t: Tree, b: Ptr, genesis: Ptr, connects: Ptr -> bool)
    requires CoreOk(t, [], genesis, connects) && b in t.nodes && !t.st[b].haveData
    ensures !t.st[b].Linked()
  {
    hide UnlinkedOk, FailOk, LevelsOk, Shaped, Skips, SelectionOk;
    assert CountOk(t.nodes, t.st, b);
  }

  // ---------- no candidate is missing ----------

  lemma {:induction false} AddHeaderStocked(t: Tree, b: Ptr, n: Node)
    requires Stocked(t) && Shaped(t.nodes[b := n]) && b != NULL && b !in t.nodes
    ensures Stocked(t.(nodes := t.nodes[b := n], st := t.st[b := NEW_STATUS]))
  {
    forall c | c in t.nodes
      ensures Clean(t.nodes[b := n], t.st[b := NEW_STATUS], c) == Clean(t.nodes, t.st, c)
    {
      ExtendClean(t.nodes, t.st, t.nodes[b := n], t.st[b := NEW_STATUS], c);
    }
  }

  lemma {:induction false} HeaderKeepsStocked(t: Tree, b: Ptr, n: Node, genesis: Ptr, connects: Ptr -> bool)
    requires TreeInv(t, genesis, connects) && b != NULL && b !in t.nodes && (n.prev == NULL <==> b == genesis)
    requires Shaped(t.nodes) && Follows(t.nodes, n)
    ensures Stocked(t) ==> Stocked(t.(nodes := t.nodes[b := n], st := t.st[b := NEW_STATUS]))
  {
    hide DataOk, UnlinkedOk, FailOk, LevelsOk, SelectionOk, Pruned, Follows, Stocked, Shaped;
    AddHeaderShape(t.nodes, t.st, b, n, genesis);
    if Stocked(t) {
      AddHeaderStocked(t, b, n);
    }
  }

  /** Storing data links nothing yet. */
  lemma {:induction false} MarkedStocked(t: Tree, b: Ptr, nTx: nat)
    requires Stocked(t) && CanReceive(t, b, nTx) && (t.chain != [] ==> t.st[TipOf(t.chain)].Linked())
             && !t.st[b].Linked()
    requires Shaped(t.nodes) && t.st.Keys == t.nodes.Keys
    ensures Stocked(Marked(t, b, nTx))
  {
    forall c | c in t.nodes
      ensures Clean(t.nodes, t.st[b := WithData(t.st[b], nTx)], c) == Clean(t.nodes, t.st, c)
    {
      CleanSame(t.nodes, t.st, t.st[b := WithData(t.st[b], nTx)], c);
    }
  }

  /** What gets linked becomes a candidate if it is as good as the tip. */
  lemma {:induction false} LinkingStocked(t0: Tree, t: Tree)
    requires Stocked(t0) && Linking(t0, t)
    ensures Stocked(t)
  {
    hide Shaped, Clean;
    forall c | c in t.nodes
      ensures Clean(t.nodes, t.st, c) == Clean(t0.nodes, t0.st, c)
    {
      CleanSame(t.nodes, t0.st, t.st, c);
    }
    forall b | b in t.nodes && t.st[b].Linked() && Clean(t.nodes, t.st, b)
      ensures b in t.cand || (t.chain != [] && Worse(t.nodes, t.st, b, TipOf(t.chain)))
    {
      assert !t0.st[b].Linked() && b !in t.cand ==> !NewCandidate(t0, t, b);
    }
  }

  lemma {:induction false} ReceivingKeepsStocked(t0: Tree, b: Ptr, nTx: nat, t: Tree)
    requires WellFormed(t0) && CanReceive(t0, b, nTx) && !t0.st[b].Linked() && Linking(Marked(t0, b, nTx), t)
    ensures Stocked(t0) ==> Stocked(t)
  {
    hide Shaped, Stocked, Linking;
    if Stocked(t0) {
      MarkedStocked(t0, b, nTx);
      LinkingStocked(Marked(t0, b, nTx), t);
    }
  }
}
