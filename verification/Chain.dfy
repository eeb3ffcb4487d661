/**
 * CChain: the active chain as a vector indexed by height. Its operations take shortcuts: an
 * early exit in SetTip, skip pointers in FindFork, sparse steps in GetLocator. They are proved
 * to give what walking the parents would give.
 */
module Chain {
  import opened Options
  import opened Powers
  import opened BlockNodes

  /** Consecutive blocks from genesis on. */
  ghost predicate IsPath(nodes: Nodes, v: seq<Ptr>) {
    && (forall i | 0 <= i < |v| :: v[i] in nodes && nodes[v[i]].height == i)
    && forall i {:trigger nodes[v[i]].prev} | 0 <= i < |v| :: nodes[v[i]].prev == if i == 0 then NULL else v[i - 1]
  }

  lemma {:induction false} PathStep(nodes: Nodes, v: seq<Ptr>, i: nat)
    requires IsPath(nodes, v) && i < |v|
    ensures v[i] in nodes && nodes[v[i]].height == i
    ensures nodes[v[i]].prev == if i == 0 then NULL else v[i - 1]
    ensures i > 0 ==> v[i - 1] in nodes && nodes[v[i - 1]].height == i - 1
    ensures NULL !in nodes && i > 0 ==> v[i - 1] != NULL
  {}

  lemma {:induction false} PathIsPath(nodes: Nodes, b: Ptr)
    requires Shaped(nodes) && b in nodes
    ensures IsPath(nodes, Path(nodes, b))
    decreases nodes[b].height
  {
    if nodes[b].prev != NULL {
      PathIsPath(nodes, nodes[b].prev);
    }
  }

  /** The prefix of a path up to one of its blocks is that block's own path. */
  lemma {:induction false} PrefixIsPath(nodes: Nodes, v: seq<Ptr>, i: nat)
    requires Shaped(nodes) && IsPath(nodes, v) && i < |v|
    ensures v[..i + 1] == Path(nodes, v[i])
  {
    if i > 0 {
      PrefixIsPath(nodes, v, i - 1);
      assert v[..i + 1] == v[..i] + [v[i]];
    } else {
      assert v[..1] == [v[0]];
    }
  }

  /** Paths that have a block in common have all below it in common. */
  lemma {:induction false} SamePrefix(nodes: Nodes, v: seq<Ptr>, w: seq<Ptr>, h: nat)
    requires Shaped(nodes) && IsPath(nodes, v) && IsPath(nodes, w) && h < |v| && h < |w| && v[h] == w[h]
    ensures forall i | 0 <= i <= h :: v[i] == w[i]
  {
    PrefixIsPath(nodes, v, h);
    PrefixIsPath(nodes, w, h);
    forall i | 0 <= i <= h
      ensures v[i] == w[i]
    {
      assert v[..h + 1][i] == w[..h + 1][i];
    }
  }

  /** The state of SetTip's loop: entries from k on are right, those below are still the old ones. */
  ghost predicate Overwriting(before: seq<Ptr>, path: seq<Ptr>, v: seq<Ptr>, k: nat) {
    && |v| == |path| && k <= |v|
    && (forall i | k <= i < |v| :: v[i] == path[i])
    && forall i | 0 <= i < k :: v[i] == if i < |before| then before[i] else NULL
  }

  lemma {:induction false} OverwriteOne(before: seq<Ptr>, path: seq<Ptr>, v: seq<Ptr>, k: nat)
    requires 0 < k <= |v| == |path| && Overwriting(before, path, v, k)
    ensures Overwriting(before, path, v[k - 1 := path[k - 1]], k - 1)
  {}

  lemma {:induction false} OverwriteDone(nodes: Nodes, before: seq<Ptr>, path: seq<Ptr>, v: seq<Ptr>, k: nat)
    requires Shaped(nodes) && IsPath(nodes, before) && IsPath(nodes, path)
    requires Overwriting(before, path, v, k) && (k > 0 ==> v[k - 1] == path[k - 1])
    ensures v == path
  {
    if k > 0 {
      SamePrefix(nodes, before, path, k - 1);
    }
  }

  /** A block is in a path exactly when the path has it at its height. */
  predicate InPath(nodes: Nodes, v: seq<Ptr>, b: Ptr)
    requires b in nodes
  {
    nodes[b].height < |v| && v[nodes[b].height] == b
  }

  /** Going down from a block in the path stays in the path. */
  lemma {:induction false} InPathDown(nodes: Nodes, v: seq<Ptr>, b: Ptr, h: nat)
    requires Shaped(nodes) && IsPath(nodes, v) && b in nodes && InPath(nodes, v, b) && h <= nodes[b].height
    ensures v[h] == Ancestor(nodes, b, h)
  {
    PrefixIsPath(nodes, v, nodes[b].height);
    PathIsAncestors(nodes, b, h);
    assert v[..nodes[b].height + 1][h] == v[h];
  }

  /** The heights GetLocator visits from h, after `size` entries, with the given step. */
  function LocatorHeights(h: nat, step: nat, size: nat): (r: seq<nat>)
    requires step > 0
    ensures r != [] && r[0] == h
    decreases h
  {
    [h] + if h == 0 then []
          else LocatorHeights(if step < h then h - step else 0, if size + 1 > 10 then 2 * step else step, size + 1)
  }

  /** `done` are the heights visited so far; the rest of `all` is visited from h on. */
  ghost predicate Remaining(all: seq<nat>, done: seq<nat>, h: nat, step: nat) {
    step > 0 && all == done + LocatorHeights(h, step, |done|)
  }

  lemma {:induction false} AllRemains(h: nat)
    ensures Remaining(LocatorHeights(h, 1, 0), [], h, 1)
  {
    assert [] + LocatorHeights(h, 1, 0) == LocatorHeights(h, 1, 0);
  }

  lemma {:induction false} RemainingAfter(all: seq<nat>, done: seq<nat>, h: nat, step: nat)
    requires Remaining(all, done, h, step)
    ensures h == 0 ==> all == done + [h]
    ensures h != 0
            ==> Remaining(all, done + [h], if step < h then h - step else 0, if |done| + 1 > 10 then step * 2 else step)
  {}

  lemma {:induction false} HeightOf(nodes: Nodes, path: seq<Ptr>, h: nat)
    requires IsPath(nodes, path) && h < |path|
    ensures path[h] in nodes && nodes[path[h]].height == h
  {}

  lemma {:induction false} NoEntries(path: seq<Ptr>)
    ensures EntriesOf(path, [], [])
  {}

  lemma {:induction false} OneMoreEntry(path: seq<Ptr>, vHave: seq<Ptr>, heights: seq<nat>, h: nat)
    requires |vHave| == |heights| && EntriesOf(path, vHave, heights) && h < |path|
    ensures EntriesOf(path, vHave + [path[h]], heights + [h])
  {}

  function FirstAtMost(heights: seq<nat>, f: nat): Option<nat> {
    if heights == [] then None else if heights[0] <= f then Some(heights[0]) else FirstAtMost(heights[1..], f)
  }

  /**
   * However far back two chains split, the first locator entry at or below the split is at
   * most twice as far back.
   */
  lemma {:induction false} LocatorReaches(top: nat, h: nat, step: nat, size: nat, f: nat)
    requires step > 0 && h <= top && (h == 0 || step <= top - h + 2) && f <= top
    requires f < h || top - h <= 2 * (top - f)
    ensures var g := FirstAtMost(LocatorHeights(h, step, size), f);
            g.Some? && g.value <= f && top - g.value <= 2 * (top - f)
    decreases h
  {
    if h > f {
      var next := if step < h then h - step else 0;
      LocatorReaches(top, next, if size + 1 > 10 then 2 * step else step, size + 1, f);
    }
  }

  /** How far back the entry with this index is: in single steps up to 10, then ever twice as far. */
  ghost function Back(k: nat): nat {
    if k <= 10 then k else 9 + Pow2(k - 10)
  }

  ghost function BackFrom(top: nat, k: nat): nat {
    if Back(k) < top then top - Back(k) else 0
  }

  ghost function StepAt(k: nat): nat {
    if k <= 10 then 1 else Pow2(k - 10)
  }

  lemma {:induction false} BackNext(k: nat)
    ensures StepAt(k) > 0 && Back(k + 1) == Back(k) + StepAt(k)
    ensures StepAt(k + 1) == if k + 1 > 10 then 2 * StepAt(k) else StepAt(k)
  {
    if k == 10 {
      assert Pow2(1) == 2 && Pow2(0) == 1;
    }
  }

  lemma {:induction false} HeightsExactly(top: nat, size: nat, k: nat)
    requires StepAt(size) > 0
    ensures var r := LocatorHeights(BackFrom(top, size), StepAt(size), size);
            k < |r| ==> r[k] == BackFrom(top, size + k) && (r[k] == 0 <==> k == |r| - 1)
    decreases BackFrom(top, size)
  {
    hide Back, StepAt;
    BackNext(size);
    BackNext(size + 1);
    if BackFrom(top, size) > 0 {
      HeightsExactly(top, size + 1, if k > 0 then k - 1 else 0);
    }
  }

  /** Which heights a locator of a block at this height has: these, down to the first that is 0. */
  lemma {:induction false} LocatorExactly(top: nat, k: nat)
    ensures var r := LocatorHeights(top, 1, 0);
            k < |r| ==> r[k] == (if k <= 10 && k < top then top - k
                                 else if k > 10 && 9 + Pow2(k - 10) < top then top - 9 - Pow2(k - 10)
                                 else 0)
                        && (r[k] == 0 <==> k == |r| - 1)
  {
    hide LocatorHeights, Pow2;
    HeightsExactly(top, 0, k);
  }

  class CChain {
    var vChain: seq<Ptr>

    constructor ()
      ensures vChain == []
    {
      vChain := [];
    }

    function Height(): int
      reads this
    {
      |vChain| - 1
    }

    function Tip(): Ptr
      reads this
    {
      if |vChain| > 0 then vChain[|vChain| - 1] else NULL
    }

    function Genesis(): Ptr
      reads this
    {
      if |vChain| > 0 then vChain[0] else NULL
    }

    predicate Contains(nodes: Nodes, b: Ptr)
      requires b in nodes
      reads this
    {
      InPath(nodes, vChain, b)
    }

    /**
     * Resize, then overwrite downwards until an entry is already right. That entry's own
     * ancestors are right as well, because the old contents were a path.
     */
    method SetTip(nodes: Nodes, b: Ptr)
      requires Shaped(nodes) && IsPath(nodes, vChain) && (b == NULL || b in nodes)
      modifies this
      ensures vChain == if b == NULL then [] else Path(nodes, b)
    {
      if b == NULL {
        vChain := [];
        return;
      }
      ghost var before, path := vChain, Path(nodes, b);
      PathIsPath(nodes, b);
      var n := nodes[b].height + 1;
      vChain := if |vChain| >= n then vChain[..n] else vChain + seq(n - |vChain|, i => NULL);
      assert Overwriting(before, path, vChain, n);
      OverwriteFrom(nodes, b, before, path);
    }

    /** The loop of SetTip. */
    method OverwriteFrom(nodes: Nodes, b: Ptr, ghost before: seq<Ptr>, ghost path: seq<Ptr>)
      requires Shaped(nodes) && IsPath(nodes, before) && IsPath(nodes, path) && b in nodes
      requires nodes[b].height + 1 == |path| == |vChain| && path[|path| - 1] == b
      requires Overwriting(before, path, vChain, |vChain|)
      modifies this
      ensures vChain == path
    {
      var p := b;
      ghost var k: nat := |vChain|;
      assert NULL !in nodes;
      hide Shaped, IsPath, Overwriting;
      while p != NULL && vChain[nodes[p].height] != p
        invariant k <= |vChain| == |path| && Overwriting(before, path, vChain, k)
        invariant if p == NULL then k == 0 else p in nodes && nodes[p].height + 1 == k && path[k - 1] == p
        decreases k
      {
        PathStep(nodes, path, k - 1);
        OverwriteOne(before, path, vChain, k);
        vChain := vChain[nodes[p].height := p];
        p, k := nodes[p].prev, k - 1;
      }
      OverwriteDone(nodes, before, path, vChain, k);
    }

    /** The highest block of this chain that is b or one of its ancestors. */
    method FindFork(nodes: Nodes, b: Ptr) returns (fork: Ptr)
      requires Shaped(nodes) && Skips(nodes) && IsPath(nodes, vChain) && b in nodes
      ensures fork != NULL ==> IsFork(nodes, vChain, b, fork)
      ensures fork == NULL ==> Apart(vChain, Path(nodes, b), 0)
    {
      hide Path, Ancestor, Shaped, Skips, IsPath, Apart;
      ghost var path := Path(nodes, b);
      PathIsPath(nodes, b);
      fork := b;
      if nodes[fork].height > Height() {
        fork := GetAncestor(nodes, fork, Height());
        if Height() >= 0 {
          PathIsAncestors(nodes, b, Height());
        }
      }
      ApartAbove(vChain, path, nodes[b].height);
      NoNull(nodes);
      fork := ClimbToFork(nodes, b, fork, path);
    }

    /** The loop of FindFork. */
    method ClimbToFork(nodes: Nodes, ghost b: Ptr, start: Ptr, ghost path: seq<Ptr>) returns (fork: Ptr)
      requires Shaped(nodes) && IsPath(nodes, vChain) && b in nodes && path == Path(nodes, b) && IsPath(nodes, path)
      requires start != NULL ==> start in nodes && nodes[start].height < |path| && start == path[nodes[start].height]
      requires Apart(vChain, path, if start == NULL then 0 else nodes[start].height + 1)
      ensures fork != NULL ==> IsFork(nodes, vChain, b, fork)
      ensures fork == NULL ==> Apart(vChain, path, 0)
    {
      hide Path, Ancestor, Shaped, IsPath, Apart;
      NoNull(nodes);
      fork := start;
      while fork != NULL && !Contains(nodes, fork)
        invariant fork != NULL ==> fork in nodes && nodes[fork].height < |path| && fork == path[nodes[fork].height]
        invariant Apart(vChain, path, if fork == NULL then 0 else nodes[fork].height + 1)
        decreases if fork == NULL then 0 else nodes[fork].height + 1
      {
        PathStep(nodes, path, nodes[fork].height);
        ApartDown(vChain, path, nodes[fork].height);
        fork := nodes[fork].prev;
      }
    }

    /** The entries of a locator for b, or for the tip when b is null. */
    method GetLocator(nodes: Nodes, b: Ptr) returns (vHave: seq<Ptr>)
      requires Shaped(nodes) && Skips(nodes) && IsPath(nodes, vChain) && (b == NULL || b in nodes)
      ensures var start := if b == NULL then Tip() else b;
              if start == NULL then vHave == [] else start in nodes && IsLocator(nodes, start, vHave)
    {
      var pindex := b;
      if pindex == NULL {
        pindex := Tip();
      }
      vHave := [];
      if pindex != NULL {
        vHave := LocatorFrom(nodes, pindex);
      }
    }

    /** The loop of GetLocator. */
    method LocatorFrom(nodes: Nodes, start: Ptr) returns (vHave: seq<Ptr>)
      requires Shaped(nodes) && Skips(nodes) && IsPath(nodes, vChain) && start in nodes
      ensures IsLocator(nodes, start, vHave)
    {
      hide LocatorHeights, EntriesOf, IsPath, Remaining, Path, Ancestor, Shaped, Skips;
      var nStep: nat := 1;
      vHave := [];
      var pindex := start;
      ghost var path := Path(nodes, pindex);
      PathIsPath(nodes, pindex);
      ghost var all := LocatorHeights(nodes[pindex].height, 1, 0);
      ghost var done: seq<nat> := [];
      AllRemains(nodes[pindex].height);
      NoEntries(path);
      while true
        invariant pindex in nodes && nodes[pindex].height < |path| && pindex == path[nodes[pindex].height]
        invariant nStep > 0 && Remaining(all, done, nodes[pindex].height, nStep)
        invariant |done| == |vHave| && EntriesOf(path, vHave, done)
        decreases nodes[pindex].height
      {
        var h := nodes[pindex].height;
        RemainingAfter(all, done, h, nStep);
        OneMoreEntry(path, vHave, done, h);
        done := done + [h];
        vHave := vHave + [pindex];
        if h == 0 {
          break;
        }
        var nHeight := if nStep < h then h - nStep else 0;
        HeightOf(nodes, path, nHeight);
        pindex := StepTo(nodes, pindex, nHeight, path);
        if |vHave| > 10 {
          nStep := nStep * 2;
        }
      }
    }

    /** One step of GetLocator: by height within the chain, by skip pointers outside it. */
    method StepTo(nodes: Nodes, b: Ptr, height: nat, ghost path: seq<Ptr>) returns (a: Ptr)
      requires Shaped(nodes) && Skips(nodes) && IsPath(nodes, vChain) && b in nodes && height <= nodes[b].height
      requires IsPath(nodes, path) && nodes[b].height < |path| && path[nodes[b].height] == b
      ensures a == path[height]
    {
      InPathDown(nodes, path, b, height);
      if Contains(nodes, b) {
        InPathDown(nodes, vChain, b, height);
        a := vChain[height];
      } else {
        a := GetAncestor(nodes, b, height);
      }
    }

    /** The first locator entry that is a known block of this chain, or else genesis. */
    method FindForkInGlobalIndex(nodes: Nodes, vHave: seq<Ptr>) returns (fork: Ptr)
      ensures if exists i :: 0 <= i < |vHave| && Known(nodes, vChain, vHave[i])
              then exists i :: 0 <= i < |vHave| && fork == vHave[i] && Known(nodes, vChain, fork) &&
                                forall k | 0 <= k < i :: !Known(nodes, vChain, vHave[k])
              else fork == Genesis()
    {
      for i := 0 to |vHave|
        invariant forall k | 0 <= k < i :: !Known(nodes, vChain, vHave[k])
      {
        if vHave[i] in nodes && Contains(nodes, vHave[i]) {
          assert Known(nodes, vChain, vHave[i]);
          return vHave[i];
        }
      }
      fork := Genesis();
    }
  }

  predicate Known(nodes: Nodes, v: seq<Ptr>, b: Ptr) {
    b in nodes && InPath(nodes, v, b)
  }

  /** The two differ at every height they share from h on. */
  ghost predicate Apart(v: seq<Ptr>, w: seq<Ptr>, h: nat) {
    forall i | h <= i < |v| && i < |w| :: v[i] != w[i]
  }

  lemma {:induction false} ApartAbove(v: seq<Ptr>, w: seq<Ptr>, h: nat)
    requires |w| == h + 1
    ensures Apart(v, w, h + 1) && Apart(v, w, |v|)
  {}

  lemma {:induction false} ApartDown(v: seq<Ptr>, w: seq<Ptr>, h: nat)
    requires Apart(v, w, h + 1) && (h < |v| && h < |w| ==> v[h] != w[h])
    ensures Apart(v, w, h)
  {}

  /** fork is common to both and nothing above it is. */
  ghost predicate IsFork(nodes: Nodes, v: seq<Ptr>, b: Ptr, fork: Ptr)
    requires Shaped(nodes) && b in nodes
  {
    && fork in nodes && InPath(nodes, v, fork)
    && nodes[fork].height <= nodes[b].height
    && fork == Path(nodes, b)[nodes[fork].height]
    && Apart(v, Path(nodes, b), nodes[fork].height + 1)
  }

  ghost predicate EntriesOf(path: seq<Ptr>, vHave: seq<Ptr>, heights: seq<nat>) {
    |vHave| <= |heights| && forall i | 0 <= i < |vHave| :: heights[i] < |path| && vHave[i] == path[heights[i]]
  }

  ghost predicate IsLocator(nodes: Nodes, start: Ptr, vHave: seq<Ptr>)
    requires Shaped(nodes) && start in nodes
  {
    var heights := LocatorHeights(nodes[start].height, 1, 0);
    |vHave| == |heights| && EntriesOf(Path(nodes, start), vHave, heights)
  }

  /** Ancestors of a block are in a chain exactly up to the fork. */
  lemma {:induction false} CommonUpToFork(nodes: Nodes, v: seq<Ptr>, b: Ptr, fork: Ptr, h: nat)
    requires Shaped(nodes) && IsPath(nodes, v) && b in nodes && IsFork(nodes, v, b, fork) && h <= nodes[b].height
    ensures Known(nodes, v, Path(nodes, b)[h]) <==> h <= nodes[fork].height
  {
    PathIsPath(nodes, b);
    if h <= nodes[fork].height {
      InPathDown(nodes, v, fork, h);
      InPathDown(nodes, Path(nodes, b), fork, h);
    }
  }

  /**
   * A locator made by one node and resolved by another, whose chain forks from it somewhere,
   * gives a common block at most twice as far back as the fork.
   */
  lemma {:induction false} LocatorFindsNearFork(nodes: Nodes, v: seq<Ptr>, start: Ptr, vHave: seq<Ptr>, fork: Ptr,
                                                i: nat)
    requires Shaped(nodes) && IsPath(nodes, v) && start in nodes
    requires IsFork(nodes, v, start, fork) && IsLocator(nodes, start, vHave)
    requires i < |vHave| && Known(nodes, v, vHave[i]) && forall k | 0 <= k < i :: !Known(nodes, v, vHave[k])
    ensures var g := nodes[vHave[i]].height;
            && g <= nodes[fork].height
            && nodes[start].height - g <= 2 * (nodes[start].height - nodes[fork].height)
  {
    var top, f := nodes[start].height, nodes[fork].height;
    var heights := LocatorHeights(top, 1, 0);
    hide LocatorHeights, FirstAtMost;
    EntryIsCommon(nodes, v, start, vHave, fork, i);
    forall k | 0 <= k < i
      ensures heights[k] > f
    {
      EntryIsCommon(nodes, v, start, vHave, fork, k);
    }
    FirstAtMostIs(heights, f, i);
    LocatorReaches(top, top, 1, 0, f);
  }

  lemma {:induction false} EntryIsCommon(nodes: Nodes, v: seq<Ptr>, start: Ptr, vHave: seq<Ptr>, fork: Ptr, k: nat)
    requires Shaped(nodes) && IsPath(nodes, v) && start in nodes && k < |vHave|
    requires IsFork(nodes, v, start, fork) && IsLocator(nodes, start, vHave)
    ensures var h := LocatorHeights(nodes[start].height, 1, 0)[k];
            && (Known(nodes, v, vHave[k]) <==> h <= nodes[fork].height)
            && vHave[k] in nodes && nodes[vHave[k]].height == h
  {
    var h := LocatorHeights(nodes[start].height, 1, 0)[k];
    hide LocatorHeights, Known, IsFork;
    PathIsPath(nodes, start);
    CommonUpToFork(nodes, v, start, fork, h);
  }

  lemma {:induction false} FirstAtMostIs(heights: seq<nat>, f: nat, i: nat)
    requires i < |heights| && heights[i] <= f && forall k | 0 <= k < i :: heights[k] > f
    ensures FirstAtMost(heights, f) == Some(heights[i])
  {
    if i > 0 {
      FirstAtMostIs(heights[1..], f, i - 1);
    }
  }

  /** Some entry always resolves, since the last one is genesis. */
  lemma {:induction false} LocatorResolves(nodes: Nodes, v: seq<Ptr>, start: Ptr, vHave: seq<Ptr>, fork: Ptr)
    requires Shaped(nodes) && IsPath(nodes, v) && start in nodes
    requires IsFork(nodes, v, start, fork) && IsLocator(nodes, start, vHave)
    ensures exists i :: 0 <= i < |vHave| && Known(nodes, v, vHave[i])
  {
    var heights := LocatorHeights(nodes[start].height, 1, 0);
    LocatorReaches(nodes[start].height, nodes[start].height, 1, 0, nodes[fork].height);
    var i := FirstAtMostAt(heights, nodes[fork].height);
    EntryIsCommon(nodes, v, start, vHave, fork, i);
    assert Known(nodes, v, vHave[i]);
  }

  lemma {:induction false} FirstAtMostAt(heights: seq<nat>, f: nat) returns (i: nat)
    requires FirstAtMost(heights, f).Some?
    ensures i < |heights| && heights[i] <= f && FirstAtMost(heights, f) == Some(heights[i])
  {
    if heights[0] <= f {
      i := 0;
    } else {
      i := FirstAtMostAt(heights[1..], f);
      i := i + 1;
    }
  }

  /** How many blocks two chains share from genesis on. */
  ghost function CommonLen(v: seq<Ptr>, w: seq<Ptr>): nat {
    if v == [] || w == [] || v[0] != w[0] then 0 else 1 + CommonLen(v[1..], w[1..])
  }

  lemma {:induction false} CommonLenIs(v: seq<Ptr>, w: seq<Ptr>, k: nat)
    requires k <= |v| && k <= |w| && (k < |v| && k < |w| ==> v[k] != w[k])
    requires forall i | 0 <= i < k :: v[i] == w[i]
    ensures CommonLen(v, w) == k
  {
    if k > 0 {
      CommonLenIs(v[1..], w[1..], k - 1);
    }
  }

  /** The fork point is the last block the chain shares with the path of b. */
  lemma {:induction false} ForkIsCommon(nodes: Nodes, v: seq<Ptr>, b: Ptr, fork: Ptr)
    requires Shaped(nodes) && IsPath(nodes, v) && b in nodes && IsFork(nodes, v, b, fork)
    ensures var k := nodes[fork].height + 1;
            && CommonLen(v, Path(nodes, b)) == k <= |v| && k <= |Path(nodes, b)|
            && v[k - 1] == fork && v[..k] == Path(nodes, b)[..k]
  {
    PathIsPath(nodes, b);
    SamePrefix(nodes, v, Path(nodes, b), nodes[fork].height);
    CommonLenIs(v, Path(nodes, b), nodes[fork].height + 1);
  }

  /** Extending a path by a child of its last block gives the path of that child. */
  lemma {:induction false} PathOfChild(nodes: Nodes, v: seq<Ptr>, b: Ptr)
    requires Shaped(nodes) && IsPath(nodes, v) && b in nodes
    requires nodes[b].prev == if v == [] then NULL else v[|v| - 1]
    ensures Path(nodes, b) == v + [b] && IsPath(nodes, v + [b])
  {
    PathIsPath(nodes, b);
    if v != [] {
      PrefixIsPath(nodes, v, |v| - 1);
      assert v[..|v|] == v;
    }
  }

  lemma {:induction false} PathOfParent(nodes: Nodes, v: seq<Ptr>)
    requires Shaped(nodes) && IsPath(nodes, v) && |v| > 1
    ensures v[|v| - 1] in nodes && nodes[v[|v| - 1]].prev in nodes && nodes[v[|v| - 1]].prev != NULL
    ensures Path(nodes, nodes[v[|v| - 1]].prev) == v[..|v| - 1]
  {
    hide Path, IsPath, Shaped, Ancestor;
    NoNull(nodes);
    PathStep(nodes, v, |v| - 1);
    PathStep(nodes, v, |v| - 2);
    PrefixIsPath(nodes, v, |v| - 2);
  }

  lemma {:induction false} NoNull(nodes: Nodes)
    requires Shaped(nodes)
    ensures NULL !in nodes
  {}
}
