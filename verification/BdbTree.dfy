/**
 * Reading all records of a btree file. The reader walks the tree with a stack and a set of visited
 * pages; it is proved to succeed exactly when the flattening of the tree from its root does, no
 * page occurs in it twice and no key twice, and then to return that flattening.
 */
module BdbTree {
  import opened Options
  import opened BdbPages
  import opened Sets

  /** What a tree holds: its pages and its live records, each as often as it occurs. */
  datatype Forest = Forest(pages: multiset<nat>, records: multiset<Record>)

  ghost function Both(a: Forest, b: Forest): Forest {
    Forest(a.pages + b.pages, a.records + b.records)
  }

  const NOTHING := Forest(multiset{}, multiset{})

  /** The tree below a page that should have this level. */
  ghost function Subtree(f: BDBFile, pgno: nat, level: nat): Option<Forest>
    decreases level, 0
  {
    var h :- f.ReadHeader(pgno);
    if h.level != level then None
    else if h.kind == P_IBTREE && level > LEAF_LEVEL then
      var children :- Children(f, pgno, h, h.entries);
      var below :- Subtrees(f, children, level - 1);
      Some(Both(Forest(multiset{pgno}, multiset{}), below))
    else if h.kind == P_LBTREE && level == LEAF_LEVEL then
      var records :- LeafPairs(f, pgno, h);
      Some(Forest(multiset{pgno}, multiset(records)))
    else None
  }

  ghost function Subtrees(f: BDBFile, pages: seq<nat>, level: nat): Option<Forest>
    decreases level, |pages|
  {
    if pages == [] then Some(NOTHING)
    else
      var first :- Subtrees(f, pages[..|pages| - 1], level);
      var last :- Subtree(f, pages[|pages| - 1], level);
      Some(Both(first, last))
  }

  /** The whole tree, whatever the level of its root. */
  ghost function Tree(f: BDBFile, root: nat): Option<Forest> {
    var h :- f.ReadHeader(root);
    Subtree(f, root, h.level)
  }

  // ---------- the stack ----------

  /** A page to read; its level is known unless it is the root. */
  datatype Pending = Pending(pgno: nat, level: Option<nat>)

  ghost function PendingTree(f: BDBFile, p: Pending): Option<Forest> {
    if p.level == None then Tree(f, p.pgno) else Subtree(f, p.pgno, p.level.value)
  }

  /** All that is still to be read. */
  ghost function Rest(f: BDBFile, stack: seq<Pending>): Option<Forest> {
    if stack == [] then Some(NOTHING)
    else
      var first :- Rest(f, stack[..|stack| - 1]);
      var last :- PendingTree(f, stack[|stack| - 1]);
      Some(Both(first, last))
  }

  function Push(stack: seq<Pending>, children: seq<nat>, level: nat): seq<Pending> {
    if children == [] then stack
    else Push(stack, children[..|children| - 1], level) + [Pending(children[|children| - 1], Some(level))]
  }

  lemma {:induction false} BothAssoc(a: Forest, b: Forest, c: Forest)
    ensures Both(a, Both(b, c)) == Both(Both(a, b), c)
  {}

  /** Pushing the children adds what is below them. */
  lemma {:induction false} RestOfPush(f: BDBFile, stack: seq<Pending>, children: seq<nat>, level: nat)
    ensures var before, below := Rest(f, stack), Subtrees(f, children, level);
            Rest(f, Push(stack, children, level)) ==
              if before == None || below == None then None else Some(Both(before.value, below.value))
  {
    hide Subtree;
    if children == [] {
      if Rest(f, stack).Some? {
        assert Both(Rest(f, stack).value, NOTHING) == Rest(f, stack).value;
      }
    } else {
      var n := |children| - 1;
      RestOfPush(f, stack, children[..n], level);
      var pushed := Push(stack, children, level);
      assert pushed[..|pushed| - 1] == Push(stack, children[..n], level);
      var before, first, last := Rest(f, stack), Subtrees(f, children[..n], level), Subtree(f, children[n], level);
      if before.Some? && first.Some? && last.Some? {
        BothAssoc(before.value, first.value, last.value);
      }
    }
  }

  // ---------- records in a map ----------

  ghost predicate KeysDiffer(records: multiset<Record>) {
    && (forall r | r in records :: records[r] == 1)
    && forall r, s | r in records && s in records && r.key == s.key :: r == s
  }

  ghost predicate Holds(m: map<Bytes, Bytes>, records: multiset<Record>) {
    forall r {:trigger records[r]} {:trigger r.key in m} :: records[r] > 0 <==> r.key in m && m[r.key] == r.value
  }

  /** No page twice, none of the outer database, and no key twice. */
  ghost predicate Proper(t: Forest, outer: set<nat>) {
    && (forall p | p in t.pages :: t.pages[p] == 1 && p !in outer)
    && KeysDiffer(t.records)
  }

  /** Insert all; None if a key is there already. */
  method InsertAll(m: map<Bytes, Bytes>, pairs: seq<Record>, ghost records: multiset<Record>)
    returns (r: Option<map<Bytes, Bytes>>)
    requires KeysDiffer(records) && Holds(m, records)
    ensures r.Some? <==> KeysDiffer(records + multiset(pairs))
    ensures r.Some? ==> Holds(r.value, records + multiset(pairs))
  {
    hide KeysDiffer, Holds;
    var all := m;
    assert pairs[..0] == [] && records + multiset(pairs[..0]) == records;
    for i := 0 to |pairs|
      invariant KeysDiffer(records + multiset(pairs[..i])) && Holds(all, records + multiset(pairs[..i]))
    {
      ghost var done := records + multiset(pairs[..i]);
      assert pairs[..i + 1] == pairs[..i] + [pairs[i]];
      assert records + multiset(pairs[..i + 1]) == done + multiset{pairs[i]};
      InsertOne(all, done, pairs[i]);
      if pairs[i].key in all {
        assert pairs == pairs[..i + 1] + pairs[i + 1..];
        assert records + multiset(pairs) == done + multiset{pairs[i]} + multiset(pairs[i + 1..]);
        StaysDouble(done + multiset{pairs[i]}, multiset(pairs[i + 1..]));
        return None;
      }
      all := all[pairs[i].key := pairs[i].value];
    }
    assert pairs[..|pairs|] == pairs;
    r := Some(all);
  }

  lemma {:induction false} InsertOne(m: map<Bytes, Bytes>, records: multiset<Record>, r: Record)
    requires KeysDiffer(records) && Holds(m, records)
    ensures KeysDiffer(records + multiset{r}) <==> r.key !in m
    ensures r.key !in m ==> Holds(m[r.key := r.value], records + multiset{r})
  {
    var all := records + multiset{r};
    if r.key in m {
      var old_ := Record(r.key, m[r.key]);
      assert old_ in records && old_ in all && r in all;
      assert old_ == r ==> all[r] == 2;
    } else {
      assert r !in records;
      forall s | s in all
        ensures all[s] == 1 && (s == r || (s in records && s.key != r.key))
      {
        assert s in records || s == r;
        if s in records {
          assert s.key in m;
        }
      }
    }
  }

  lemma {:induction false} StaysDouble(a: multiset<Record>, b: multiset<Record>)
    requires !KeysDiffer(a)
    ensures !KeysDiffer(a + b)
  {
    if KeysDiffer(a + b) {
      forall r | r in a
        ensures a[r] == 1
      {
        assert r in a + b && (a + b)[r] == a[r] + b[r];
      }
      forall r, s | r in a && s in a && r.key == s.key
        ensures r == s
      {
        assert r in a + b && s in a + b;
      }
    }
  }

  // ---------- one page ----------

  /** What a page of the btree says. */
  datatype Page = Internal(children: seq<nat>, level: nat) | Leaf(pairs: seq<Record>)

  ghost predicate PageIs(f: BDBFile, p: Pending, page: Page) {
    match page
    case Internal(children, level) =>
      PendingTree(f, p) == var below := Subtrees(f, children, level);
                           if below == None then None else Some(Both(Forest(multiset{p.pgno}, multiset{}), below.value))
    case Leaf(pairs) => PendingTree(f, p) == Some(Forest(multiset{p.pgno}, multiset(pairs)))
  }

  /** The tests on one page: header, level and type. */
  method ReadPage(f: BDBFile, p: Pending) returns (r: Option<Page>)
    ensures r == None ==> PendingTree(f, p) == None
    ensures r.Some? ==> PageIs(f, p, r.value) && p.pgno < f.NumPages()
  {
    hide LeafPairs, Children, Subtrees, BDBFile.ReadHeader;
    var h :- f.ReadHeader(p.pgno);
    if p.level.Some? && h.level != p.level.value {
      return None;
    }
    if h.kind == P_IBTREE {
      if h.level <= LEAF_LEVEL {
        return None;
      }
      var children :- ReadInternalChildren(f, p.pgno, h);
      return Some(Internal(children, h.level - 1));
    } else if h.kind == P_LBTREE {
      if h.level != LEAF_LEVEL {
        return None;
      }
      var pairs :- ReadLeafPairs(f, p.pgno, h);
      return Some(Leaf(pairs));
    }
    return None;
  }

  // ---------- the walk ----------

  /** Read so far and still to be read make up the whole tree. */
  ghost predicate Splits(f: BDBFile, root: nat, done: Forest, stack: seq<Pending>) {
    Tree(f, root) == var rest := Rest(f, stack); if rest == None then None else Some(Both(done, rest.value))
  }

  ghost predicate Visited(visited: set<nat>, outer: set<nat>, done: Forest) {
    forall p {:trigger p in visited} {:trigger done.pages[p]} :: p in visited <==> p in outer || done.pages[p] > 0
  }

  lemma {:induction false} RootIsIn(f: BDBFile, p: Pending)
    requires PendingTree(f, p).Some?
    ensures p.pgno in PendingTree(f, p).value.pages
  {
    hide LeafPairs, Children, Subtrees, BDBFile.ReadHeader;
  }

  /** A page that was visited already makes the tree improper. */
  lemma {:induction false} SeenIsImproper(f: BDBFile, root: nat, done: Forest, stack: seq<Pending>, p: Pending,
                                          visited: set<nat>, outer: set<nat>)
    requires Splits(f, root, done, stack + [p]) && Visited(visited, outer, done) && p.pgno in visited
    ensures Tree(f, root).Some? ==> !Proper(Tree(f, root).value, outer)
  {
    hide PendingTree, KeysDiffer, Tree;
    assert (stack + [p])[..|stack|] == stack;
    if Tree(f, root).Some? {
      RootIsIn(f, p);
      assert p.pgno in Tree(f, root).value.pages;
    }
  }

  lemma {:induction false} BadPageIsNone(f: BDBFile, root: nat, done: Forest, stack: seq<Pending>, p: Pending)
    requires Splits(f, root, done, stack + [p]) && PendingTree(f, p) == None
    ensures Tree(f, root) == None
  {
    hide PendingTree, Tree;
    assert (stack + [p])[..|stack|] == stack;
  }

  lemma {:induction false} Regroup(done: Forest, rest: Forest, page: Forest, below: Forest)
    ensures Both(done, Both(rest, Both(page, below))) == Both(Both(done, page), Both(rest, below))
  {}

  lemma {:induction false} SplitInternal(f: BDBFile, root: nat, done: Forest, stack: seq<Pending>, p: Pending,
                                         children: seq<nat>, level: nat)
    requires Splits(f, root, done, stack + [p]) && PageIs(f, p, Internal(children, level))
    ensures Splits(f, root, Both(done, Forest(multiset{p.pgno}, multiset{})), Push(stack, children, level))
  {
    hide PendingTree, Tree, Subtrees, Both;
    assert (stack + [p])[..|stack|] == stack;
    RestOfPush(f, stack, children, level);
    var rest, below := Rest(f, stack), Subtrees(f, children, level);
    if rest.Some? && below.Some? {
      Regroup(done, rest.value, Forest(multiset{p.pgno}, multiset{}), below.value);
    }
  }

  lemma {:induction false} SplitLeaf(f: BDBFile, root: nat, done: Forest, stack: seq<Pending>, p: Pending,
                                     pairs: seq<Record>)
    requires Splits(f, root, done, stack + [p]) && PageIs(f, p, Leaf(pairs))
    ensures Splits(f, root, Both(done, Forest(multiset{p.pgno}, multiset(pairs))), stack)
  {
    hide PendingTree, Tree;
    assert (stack + [p])[..|stack|] == stack;
    var rest := Rest(f, stack);
    if rest.Some? {
      assert Both(done, Both(rest.value, Forest(multiset{p.pgno}, multiset(pairs))))
          == Both(Both(done, Forest(multiset{p.pgno}, multiset(pairs))), rest.value);
    }
  }

  lemma {:induction false} VisitOne(visited: set<nat>, outer: set<nat>, done: Forest, p: nat, records: multiset<Record>)
    requires Visited(visited, outer, done) && Proper(done, outer) && p !in visited && KeysDiffer(done.records + records)
    ensures Visited(visited + {p}, outer, Both(done, Forest(multiset{p}, records)))
    ensures Proper(Both(done, Forest(multiset{p}, records)), outer)
  {
    hide KeysDiffer;
  }

  /** What is wrong with a part is wrong with the whole. */
  lemma {:induction false} PartIsImproper(f: BDBFile, root: nat, done: Forest, stack: seq<Pending>, outer: set<nat>)
    requires Splits(f, root, done, stack) && !KeysDiffer(done.records)
    ensures Tree(f, root).Some? ==> !Proper(Tree(f, root).value, outer)
  {
    hide Tree, KeysDiffer;
    if Tree(f, root).Some? {
      StaysDouble(done.records, Rest(f, stack).value.records);
    }
  }

  method PushAll(stack: seq<Pending>, children: seq<nat>, level: nat) returns (r: seq<Pending>)
    ensures r == Push(stack, children, level)
  {
    r := stack;
    for i := 0 to |children|
      invariant r == Push(stack, children[..i], level)
    {
      assert children[..i + 1][..i] == children[..i];
      r := r + [Pending(children[i], Some(level))];
    }
    assert children[..|children|] == children;
  }

  /** The state of the walk. */
  ghost predicate Walking(f: BDBFile, root: nat, outer: set<nat>, done: Forest, stack: seq<Pending>, visited: set<nat>,
                          records: map<Bytes, Bytes>)
  {
    && Splits(f, root, done, stack) && Visited(visited, outer, done) && Proper(done, outer)
    && Holds(records, done.records)
    && forall p | p in visited :: p < f.NumPages()
  }

  /**
   * The tree walk. It ends on every input, reads no page twice, and succeeds exactly when the tree
   * can be read and is proper; then it returns all records of the tree and nothing else.
   */
  method ReadTree(f: BDBFile, root: nat, outer: set<nat>) returns (r: Option<map<Bytes, Bytes>>)
    requires forall p | p in outer :: p < f.NumPages()
    ensures r.Some? <==> Tree(f, root).Some? && Proper(Tree(f, root).value, outer)
    ensures r.Some? ==> Holds(r.value, Tree(f, root).value.records)
  {
    hide Tree, PendingTree, Rest, Splits, Visited, Proper, Holds, KeysDiffer, Push, PageIs, BDBFile.NumPages;
    var records: map<Bytes, Bytes> := map[];
    var visited := outer;
    var stack := [Pending(root, None)];
    ghost var done := NOTHING;
    WalkStarts(f, root, outer);
    while stack != []
      invariant Walking(f, root, outer, done, stack, visited, records)
      decreases f.NumPages() - |visited|
    {
      var p := stack[|stack| - 1];
      ghost var all := stack;
      stack := stack[..|stack| - 1];
      assert all == stack + [p];
      if p.pgno in visited {
        SeenIsImproper(f, root, done, stack, p, visited, outer);
        return None;
      }
      var page := ReadPage(f, p);
      if page == None {
        BadPageIsNone(f, root, done, stack, p);
        return None;
      }
      SetBelow(visited + {p.pgno}, f.NumPages());
      match page.value
      case Internal(children, level) =>
        SplitInternal(f, root, done, stack, p, children, level);
        ProperKeys(done, outer);
        VisitOne(visited, outer, done, p.pgno, multiset{});
        done := Both(done, Forest(multiset{p.pgno}, multiset{}));
        visited := visited + {p.pgno};
        stack := PushAll(stack, children, level);
      case Leaf(pairs) =>
        SplitLeaf(f, root, done, stack, p, pairs);
        ProperKeys(done, outer);
        var inserted := InsertAll(records, pairs, done.records);
        if inserted == None {
          PartIsImproper(f, root, Both(done, Forest(multiset{p.pgno}, multiset(pairs))), stack, outer);
          return None;
        }
        VisitOne(visited, outer, done, p.pgno, multiset(pairs));
        done := Both(done, Forest(multiset{p.pgno}, multiset(pairs)));
        visited := visited + {p.pgno};
        records := inserted.value;
    }
    WalkEnds(f, root, done);
    return Some(records);
  }

  lemma {:induction false} ProperKeys(t: Forest, outer: set<nat>)
    requires Proper(t, outer)
    ensures KeysDiffer(t.records) && t.records + multiset{} == t.records
  {}

  lemma {:induction false} WalkStarts(f: BDBFile, root: nat, outer: set<nat>)
    requires forall p | p in outer :: p < f.NumPages()
    ensures Walking(f, root, outer, NOTHING, [Pending(root, None)], outer, map[])
  {
    hide Tree;
    var stack := [Pending(root, None)];
    assert stack[..0] == [] && PendingTree(f, stack[0]) == Tree(f, root);
    assert Rest(f, stack[..0]) == Some(NOTHING);
    if Tree(f, root).Some? {
      assert Both(NOTHING, Both(NOTHING, Tree(f, root).value)) == Tree(f, root).value;
    }
  }

  lemma {:induction false} WalkEnds(f: BDBFile, root: nat, done: Forest)
    requires Splits(f, root, done, [])
    ensures Tree(f, root) == Some(done)
  {
    assert Both(done, NOTHING) == done;
  }
}
