/**
 * The Merkle tree of a block as BuildMerkleTree makes it, level by level into one vector, with the
 * test for a repeated end, and the branch from a leaf to the root. It is proved that a branch leads
 * to the root, and that the test is enough: two lists of the same height that pass it have the same
 * root only if they are the same, or pairs hashed in the two trees collide.
 */
module MerkleTree {
  import opened Collisions

  /** What is hashed for node i of the level above: two neighbours, or the last one and itself. */
  function PairAt<D>(s: seq<D>, i: nat): (D, D)
    requires i < (|s| + 1) / 2
  {
    (s[2 * i], s[if 2 * i + 1 < |s| then 2 * i + 1 else 2 * i])
  }

  /** One level up. */
  function Above<D>(hash: (D, D) -> D, s: seq<D>): (r: seq<D>)
    ensures |r| == (|s| + 1) / 2
    ensures forall i | 0 <= i < |r| :: r[i] == hash(PairAt(s, i).0, PairAt(s, i).1)
  {
    seq((|s| + 1) / 2, i requires 0 <= i < (|s| + 1) / 2 => hash(PairAt(s, i).0, PairAt(s, i).1))
  }

  /** The level at a height. */
  function Level<D>(hash: (D, D) -> D, s: seq<D>, height: nat): seq<D> {
    if height == 0 then s else Above(hash, Level(hash, s, height - 1))
  }

  function HeightOf(n: nat): nat {
    if n <= 1 then 0 else 1 + HeightOf((n + 1) / 2)
  }

  function Root<D>(hash: (D, D) -> D, s: seq<D>, zero: D): D
    decreases |s|
  {
    if s == [] then zero else if |s| == 1 then s[0] else Root(hash, Above(hash, s), zero)
  }

  /** All levels, one behind the other. */
  function Levels<D>(hash: (D, D) -> D, s: seq<D>): seq<D>
    decreases |s|
  {
    if |s| <= 1 then s else s + Levels(hash, Above(hash, s))
  }

  /** At some level the last two are there and are the same. */
  predicate Mutated<D(==)>(hash: (D, D) -> D, s: seq<D>)
    decreases |s|
  {
    |s| > 1 && ((|s| % 2 == 0 && s[|s| - 2] == s[|s| - 1]) || Mutated(hash, Above(hash, s)))
  }

  /** The neighbours met on the way from leaf i to the root. */
  function Branch<D>(hash: (D, D) -> D, s: seq<D>, i: nat): seq<D>
    decreases |s|
  {
    if |s| <= 1 then []
    else
      var sibling := if i % 2 == 0 then i + 1 else i - 1;
      [s[if sibling < |s| then sibling else |s| - 1]] + Branch(hash, Above(hash, s), i / 2)
  }

  /** CheckMerkleBranch, for an index that is not negative. */
  function Climb<D>(hash: (D, D) -> D, d: D, branch: seq<D>, i: nat): D
    decreases |branch|
  {
    if branch == [] then d
    else Climb(hash, if i % 2 == 1 then hash(branch[0], d) else hash(d, branch[0]), branch[1..], i / 2)
  }

  ghost function Sibling<D>(s: seq<D>, i: nat): D
    requires i < |s|
  {
    if i % 2 == 1 then s[i - 1] else if i + 1 < |s| then s[i + 1] else s[i]
  }

  lemma {:induction false} OneUp<D>(hash: (D, D) -> D, s: seq<D>, i: nat)
    requires i < |s|
    ensures var b := Sibling(s, i);
            Above(hash, s)[i / 2] == if i % 2 == 1 then hash(b, s[i]) else hash(s[i], b)
  {
    var p := PairAt(s, i / 2);
    assert Above(hash, s)[i / 2] == hash(p.0, p.1);
    assert if i % 2 == 1 then p == (s[i - 1], s[i]) else p == (s[i], Sibling(s, i));
  }

  /** The branch of every leaf leads to the root. */
  lemma {:induction false} BranchLeadsToRoot<D>(hash: (D, D) -> D, s: seq<D>, i: nat, zero: D)
    requires i < |s|
    ensures Climb(hash, s[i], Branch(hash, s, i), i) == Root(hash, s, zero)
    ensures |Branch(hash, s, i)| == HeightOf(|s|)
    decreases |s|
  {
    hide Above;
    if |s| > 1 {
      var up, b := Above(hash, s), Branch(hash, s, i);
      BranchLeadsToRoot(hash, up, i / 2, zero);
      OneUp(hash, s, i);
      assert b[0] == Sibling(s, i) && b[1..] == Branch(hash, up, i / 2);
    }
  }

  // ---------- one list for one root ----------

  /** The pairs hashed to make one level, and those of the whole tree. */
  ghost function PairsOf<D>(s: seq<D>): set<(D, D)> {
    set i | 0 <= i < (|s| + 1) / 2 :: PairAt(s, i)
  }

  ghost function TreePairs<D>(hash: (D, D) -> D, s: seq<D>): set<(D, D)>
    decreases |s|
  {
    if |s| <= 1 then {} else PairsOf(s) + TreePairs(hash, Above(hash, s))
  }

  /** Lists with the same level above them are the same, or one repeats its end, or two pairs collide. */
  lemma {:induction false} OneBelow<D>(hash: (D, D) -> D, s: seq<D>, t: seq<D>)
    requires |s| > 1 && |t| > 1 && Above(hash, s) == Above(hash, t)
    requires !Mutated(hash, s) && !Mutated(hash, t)
    ensures s == t || Collide(hash, PairsOf(s), PairsOf(t))
  {
    hide Mutated;
    var n := |Above(hash, s)|;
    if i :| 0 <= i < n && PairAt(s, i) != PairAt(t, i) {
      assert hash(PairAt(s, i).0, PairAt(s, i).1) == Above(hash, s)[i] == Above(hash, t)[i];
      CollideHere(hash, PairsOf(s), PairsOf(t), PairAt(s, i), PairAt(t, i));
    } else {
      EndsDiffer(hash, s);
      EndsDiffer(hash, t);
      SamePairs(s, t);
    }
  }

  lemma {:induction false} EndsDiffer<D>(hash: (D, D) -> D, s: seq<D>)
    requires |s| > 1 && !Mutated(hash, s)
    ensures |s| % 2 == 0 ==> s[|s| - 2] != s[|s| - 1]
  {}

  lemma {:induction false} SamePairs<D>(s: seq<D>, t: seq<D>)
    requires |s| > 1 && |t| > 1 && (|s| + 1) / 2 == (|t| + 1) / 2
    requires forall i | 0 <= i < (|s| + 1) / 2 :: PairAt(s, i) == PairAt(t, i)
    requires (|s| % 2 == 0 ==> s[|s| - 2] != s[|s| - 1]) && (|t| % 2 == 0 ==> t[|t| - 2] != t[|t| - 1])
    ensures s == t
  {
    assert PairAt(s, (|s| + 1) / 2 - 1) == PairAt(t, (|t| + 1) / 2 - 1);
    assert |s| == |t|;
    forall k | 0 <= k < |s|
      ensures s[k] == t[k]
    {
      assert PairAt(s, k / 2) == PairAt(t, k / 2);
    }
  }

  /**
   * What the test is for: among lists of the same height that pass it no two have the same root,
   * unless two different pairs hashed in the two trees have the same hash.
   */
  lemma {:induction false} OneListForRoot<D>(hash: (D, D) -> D, s: seq<D>, t: seq<D>, zero: D)
    requires s != [] && t != [] && HeightOf(|s|) == HeightOf(|t|) && Root(hash, s, zero) == Root(hash, t, zero)
    requires !Mutated(hash, s) && !Mutated(hash, t)
    ensures s == t || Collide(hash, TreePairs(hash, s), TreePairs(hash, t))
    decreases |s|
  {
    if |s| > 1 {
      var s', t' := Above(hash, s), Above(hash, t);
      OneListForRoot(hash, s', t', zero);
      if s' == t' {
        OneBelow(hash, s, t);
        if s != t {
          CollideInMore(hash, PairsOf(s), PairsOf(t), TreePairs(hash, s), TreePairs(hash, t));
        }
      } else {
        CollideInMore(hash, TreePairs(hash, s'), TreePairs(hash, t'), TreePairs(hash, s), TreePairs(hash, t));
      }
    }
  }

  // ---------- why the test is needed ----------

  /** At some level of more than two the last two are the same. */
  predicate RepeatsEnd<D(==)>(hash: (D, D) -> D, s: seq<D>)
    decreases |s|
  {
    |s| > 2 && ((|s| % 2 == 0 && s[|s| - 2] == s[|s| - 1]) || RepeatsEnd(hash, Above(hash, s)))
  }

  /** Then the list fails the test, and there is a shorter one with the same root: its beginning. */
  lemma {:induction false} RepeatedHasTwin<D>(hash: (D, D) -> D, s: seq<D>, zero: D) returns (k: nat)
    requires RepeatsEnd(hash, s)
    ensures Mutated(hash, s) && 1 < k < |s| && Root(hash, s[..k], zero) == Root(hash, s, zero)
    decreases |s|
  {
    hide Above;
    var up := Above(hash, s);
    if |s| % 2 == 0 && s[|s| - 2] == s[|s| - 1] {
      k := |s| - 1;
      AboveOfPrefix(hash, s, k);
      assert up[..(k + 1) / 2] == up;
    } else {
      var n := RepeatedHasTwin(hash, up, zero);
      k := 2 * n;
      AboveOfPrefix(hash, s, k);
    }
  }

  lemma {:induction false} AboveOfPrefix<D>(hash: (D, D) -> D, s: seq<D>, k: nat)
    requires k < |s| && (k % 2 == 0 || s[k - 1] == s[k])
    ensures Above(hash, s[..k]) == Above(hash, s)[..(k + 1) / 2]
  {
    forall i | 0 <= i < (k + 1) / 2
      ensures PairAt(s[..k], i) == PairAt(s, i)
    {}
  }

  // ---------- the class ----------

  class CBlock<D(==)> {
    const hash: (D, D) -> D
    const zero: D
    const vtx: seq<D>  // the ids of the transactions
    var vMerkleTree: seq<D>

    constructor (hash: (D, D) -> D, zero: D, vtx: seq<D>)
      ensures this.hash == hash && this.zero == zero && this.vtx == vtx && vMerkleTree == []
    {
      this.hash, this.zero, this.vtx := hash, zero, vtx;
      vMerkleTree := [];
    }

    /** BuildMerkleTree */
    method BuildMerkleTree() returns (root: D, mutated: bool)
      modifies this
      ensures vMerkleTree == Levels(hash, vtx)
      ensures root == Root(hash, vtx, zero) && mutated == Mutated(hash, vtx)
    {
      hide Root, Levels, Mutated, Above;
      vMerkleTree := vtx;
      var j := 0;
      mutated := false;
      var nSize := |vtx|;
      ghost var level := vtx;
      while nSize > 1
        invariant 0 <= j && nSize == |level| && |vMerkleTree| == j + nSize && vMerkleTree[j..] == level
        invariant nSize == 0 ==> j == 0
        invariant vMerkleTree[..j] + Levels(hash, level) == Levels(hash, vtx)
        invariant Root(hash, level, zero) == Root(hash, vtx, zero)
        invariant mutated || Mutated(hash, level) <==> Mutated(hash, vtx)
      {
        var repeated := BuildLevel(j, nSize, level);
        LevelsStep(hash, level, zero);
        assert vMerkleTree[..j + nSize] == vMerkleTree[..j] + level;
        mutated := mutated || repeated;
        level := Above(hash, level);
        j := j + nSize;
        nSize := (nSize + 1) / 2;
      }
      LevelsEnd(hash, level, zero);
      assert vMerkleTree == vMerkleTree[..j] + level;
      root := if vMerkleTree == [] then zero else vMerkleTree[|vMerkleTree| - 1];
    }

    /** The inner loop: the level above is put behind the level that starts at j. */
    method BuildLevel(j: nat, nSize: nat, ghost level: seq<D>) returns (repeated: bool)
      requires nSize == |level| > 1 && |vMerkleTree| == j + nSize && vMerkleTree[j..] == level
      modifies this
      ensures vMerkleTree == old(vMerkleTree) + Above(hash, level)
      ensures repeated <==> nSize % 2 == 0 && level[nSize - 2] == level[nSize - 1]
    {
      repeated := false;
      var i := 0;
      ghost var before := vMerkleTree;
      assert Above(hash, level)[..0] == [];
      while i < nSize
        invariant 0 <= i <= nSize + 1 && i % 2 == 0
        invariant vMerkleTree == before + Above(hash, level)[..i / 2]
        invariant repeated <==> i >= nSize && nSize % 2 == 0 && level[nSize - 2] == level[nSize - 1]
      {
        var i2 := if i + 1 < nSize - 1 then i + 1 else nSize - 1;
        assert vMerkleTree[j + i] == level[i] && vMerkleTree[j + i2] == level[i2];
        if i2 == i + 1 && i2 + 1 == nSize && vMerkleTree[j + i] == vMerkleTree[j + i2] {
          repeated := true;
        }
        var up := hash(vMerkleTree[j + i], vMerkleTree[j + i2]);
        assert up == Above(hash, level)[i / 2] == hash(PairAt(level, i / 2).0, PairAt(level, i / 2).1);
        vMerkleTree := vMerkleTree + [up];
        i := i + 2;
      }
      assert Above(hash, level)[..i / 2] == Above(hash, level);
    }

    /** GetMerkleBranch */
    method GetMerkleBranch(nIndex: nat) returns (vMerkleBranch: seq<D>)
      requires vMerkleTree == [] || vMerkleTree == Levels(hash, vtx)
      modifies this
      ensures vMerkleTree == Levels(hash, vtx) && vMerkleBranch == Branch(hash, vtx, nIndex)
    {
      hide Levels, Branch, Above;
      if vMerkleTree == [] {
        var root, mutated := BuildMerkleTree();
      }
      vMerkleBranch := [];
      var j, nSize, n := 0, |vtx|, nIndex;
      ghost var level := vtx;
      while nSize > 1
        invariant 0 <= j && nSize == |level| && j <= |vMerkleTree| == |Levels(hash, vtx)|
        invariant vMerkleTree == Levels(hash, vtx) && vMerkleTree[j..] == Levels(hash, level)
        invariant vMerkleBranch + Branch(hash, level, n) == Branch(hash, vtx, nIndex)
      {
        BranchStep(hash, level, n);
        assert vMerkleTree[j..][..nSize] == level;
        assert vMerkleTree[j..][nSize..] == Levels(hash, Above(hash, level));
        var other := if n % 2 == 0 then n + 1 else n - 1;  // n ^ 1
        var i := if other < nSize - 1 then other else nSize - 1;
        assert vMerkleTree[j + i] == vMerkleTree[j..][i] == level[i];
        vMerkleBranch := vMerkleBranch + [vMerkleTree[j + i]];
        level := Above(hash, level);
        n := n / 2;
        j := j + nSize;
        nSize := (nSize + 1) / 2;
      }
      BranchEnds(hash, level, n);
    }
  }

  lemma {:induction false} LevelsStep<D>(hash: (D, D) -> D, s: seq<D>, zero: D)
    requires |s| > 1
    ensures Levels(hash, s) == s + Levels(hash, Above(hash, s)) && |Above(hash, s)| == (|s| + 1) / 2
    ensures Root(hash, s, zero) == Root(hash, Above(hash, s), zero)
    ensures Mutated(hash, s) <==> (|s| % 2 == 0 && s[|s| - 2] == s[|s| - 1]) || Mutated(hash, Above(hash, s))
  {}

  lemma {:induction false} LevelsEnd<D>(hash: (D, D) -> D, s: seq<D>, zero: D)
    requires |s| <= 1
    ensures Levels(hash, s) == s && Root(hash, s, zero) == (if s == [] then zero else s[0]) && !Mutated(hash, s)
  {}

  lemma {:induction false} BranchStep<D>(hash: (D, D) -> D, s: seq<D>, i: nat)
    requires |s| > 1
    ensures Levels(hash, s) == s + Levels(hash, Above(hash, s)) && |Above(hash, s)| == (|s| + 1) / 2
    ensures var other := if i % 2 == 0 then i + 1 else i - 1;
            Branch(hash, s, i) ==
            [s[if other < |s| - 1 then other else |s| - 1]] + Branch(hash, Above(hash, s), i / 2)
  {}

  lemma {:induction false} BranchEnds<D>(hash: (D, D) -> D, s: seq<D>, i: nat)
    requires |s| <= 1
    ensures Branch(hash, s, i) == []
  {}
}
