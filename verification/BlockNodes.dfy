/**
 * The shape of the block tree: the fields of CBlockIndex that are fixed when a header is
 * added. A block is named by its pointer; parents are followed one at a time here, and the
 * skip pointers are proved to be a faster way of doing the same.
 */
module BlockNodes {
  import opened Powers

  type Ptr = nat

  const NULL: Ptr := 0

  datatype Node = Node(prev: Ptr, skip: Ptr, height: nat, work: nat)

  type Nodes = map<Ptr, Node>

  /** Parents come first, heights count them, and each block adds work. */
  ghost predicate Shaped(nodes: Nodes) {
    && NULL !in nodes
    && forall b {:trigger nodes[b].prev} | b in nodes ::
         if nodes[b].prev == NULL then nodes[b].height == 0
         else
           && nodes[b].prev in nodes
           && nodes[b].height == nodes[nodes[b].prev].height + 1
           && nodes[b].work > nodes[nodes[b].prev].work
  }

  /** The ancestor at a height, by walking up the parents. */
  ghost function Ancestor(nodes: Nodes, b: Ptr, height: nat): (a: Ptr)
    requires Shaped(nodes) && b in nodes && height <= nodes[b].height
    ensures a in nodes && nodes[a].height == height
    decreases nodes[b].height
  {
    if nodes[b].height == height then b else Ancestor(nodes, nodes[b].prev, height)
  }

  /** All ancestors, genesis first, b itself last. */
  ghost function Path(nodes: Nodes, b: Ptr): (p: seq<Ptr>)
    requires Shaped(nodes) && b in nodes
    ensures |p| == nodes[b].height + 1 && p[nodes[b].height] == b
    ensures forall i | 0 <= i < |p| :: p[i] in nodes && nodes[p[i]].height == i
    decreases nodes[b].height
  {
    (if nodes[b].prev == NULL then [] else Path(nodes, nodes[b].prev)) + [b]
  }

  lemma {:induction false} PathIsAncestors(nodes: Nodes, b: Ptr, h: nat)
    requires Shaped(nodes) && b in nodes && h <= nodes[b].height
    ensures Path(nodes, b)[h] == Ancestor(nodes, b, h)
    ensures Path(nodes, b)[..h + 1] == Path(nodes, Ancestor(nodes, b, h))
    decreases nodes[b].height
  {
    if h < nodes[b].height {
      var p := nodes[b].prev;
      PathIsAncestors(nodes, p, h);
      assert Path(nodes, b)[..h + 1] == Path(nodes, p)[..h + 1];
    } else {
      assert Path(nodes, b)[..h + 1] == Path(nodes, b);
    }
  }

  /** Walking up in two stages is walking up. */
  lemma {:induction false} AncestorOfAncestor(nodes: Nodes, b: Ptr, mid: nat, h: nat)
    requires Shaped(nodes) && b in nodes && h <= mid <= nodes[b].height
    ensures Ancestor(nodes, Ancestor(nodes, b, mid), h) == Ancestor(nodes, b, h)
    decreases nodes[b].height
  {
    if mid < nodes[b].height {
      AncestorOfAncestor(nodes, nodes[b].prev, mid, h);
    }
  }

  lemma {:induction false} AncestorWork(nodes: Nodes, b: Ptr, h: nat)
    requires Shaped(nodes) && b in nodes && h <= nodes[b].height
    ensures nodes[Ancestor(nodes, b, h)].work <= nodes[b].work
    ensures h < nodes[b].height ==> nodes[Ancestor(nodes, b, h)].work < nodes[b].work
    decreases nodes[b].height
  {
    if h < nodes[b].height {
      AncestorWork(nodes, nodes[b].prev, h);
    }
  }

  /** Adding a block leaves the ancestors of the others alone. */
  lemma {:induction false} ExtendPath(nodes: Nodes, more: Nodes, b: Ptr)
    requires Shaped(nodes) && Shaped(more) && b in nodes
    requires forall c | c in nodes :: c in more && more[c] == nodes[c]
    ensures Path(more, b) == Path(nodes, b)
    decreases nodes[b].height
  {
    if nodes[b].prev != NULL {
      ExtendPath(nodes, more, nodes[b].prev);
    }
  }

  // ---------- skip pointers ----------

  /** Clear the lowest set bit, by recursion on the binary digits. */
  function InvertLowestOne(n: nat): (r: nat)
    ensures n > 0 ==> r < n
  {
    if n == 0 then 0 else if n % 2 == 1 then n - 1 else 2 * InvertLowestOne(n / 2)
  }

  /** Bitwise and of two numbers that are not negative, digit by digit. */
  function BitAnd(a: nat, b: nat): (r: nat)
    ensures r <= a && r <= b
  {
    if a == 0 || b == 0 then 0 else 2 * BitAnd(a / 2, b / 2) + if a % 2 == 1 && b % 2 == 1 then 1 else 0
  }

  lemma {:induction false} AndWithItself(a: nat)
    ensures BitAnd(a, a) == a
  {
    if a > 0 {
      AndWithItself(a / 2);
    }
  }

  /** It is n & (n - 1). */
  lemma {:induction false} InvertLowestOneIsBitwise(n: nat)
    requires n > 0
    ensures InvertLowestOne(n) == BitAnd(n, n - 1)
  {
    if n % 2 == 1 {
      AndWithItself(n / 2);
    } else {
      InvertLowestOneIsBitwise(n / 2);
      assert (n - 1) / 2 == n / 2 - 1;
    }
  }

  /** What is cleared is a power of two that divides n, an odd number of times. */
  lemma {:induction false} InvertLowestOneClearsOneBit(n: nat) returns (k: nat, q: nat)
    requires n > 0
    ensures n == (2 * q + 1) * Pow2(k) && InvertLowestOne(n) == 2 * q * Pow2(k)
  {
    if n % 2 == 1 {
      k, q := 0, n / 2;
    } else {
      k, q := InvertLowestOneClearsOneBit(n / 2);
      k := k + 1;
      assert n == 2 * ((2 * q + 1) * Pow2(k - 1));
      assert (2 * q + 1) * Pow2(k) == 2 * ((2 * q + 1) * Pow2(k - 1));
      assert 2 * q * Pow2(k) == 2 * (2 * q * Pow2(k - 1));
    }
  }

  function GetSkipHeight(height: int): (r: nat)
    ensures height >= 1 ==> r < height
  {
    if height < 2 then 0
    else if height % 2 == 1 then InvertLowestOne(InvertLowestOne(height - 1)) + 1
    else InvertLowestOne(height)
  }

  /** An even height skips to itself without its lowest bit, an odd one keeps that and loses the next two. */
  lemma {:induction false} SkipHeightIsBitwise(height: nat)
    requires height >= 2
    ensures height % 2 == 0 ==> GetSkipHeight(height) == BitAnd(height, height - 1)
    ensures height % 2 == 1 ==>
              var m := BitAnd(height - 1, height - 2);
              GetSkipHeight(height) == 1 + if m == 0 then 0 else BitAnd(m, m - 1)
  {
    hide BitAnd, InvertLowestOne;
    if height % 2 == 0 {
      InvertLowestOneIsBitwise(height);
    } else {
      var m := InvertLowestOne(height - 1);
      InvertLowestOneIsBitwise(height - 1);
      NothingToInvert();
      if m > 0 {
        InvertLowestOneIsBitwise(m);
      }
    }
  }

  lemma {:induction false} NothingToInvert()
    ensures InvertLowestOne(0) == 0
  {}

  /** Every block but genesis points to its ancestor at its skip height. */
  ghost predicate Skips(nodes: Nodes)
    requires Shaped(nodes)
  {
    forall b {:trigger nodes[b].skip} | b in nodes && nodes[b].prev != NULL ::
      nodes[b].skip == Ancestor(nodes, b, GetSkipHeight(nodes[b].height))
  }

  /** CBlockIndex::GetAncestor: jump or step, and arrive where stepping alone would. */
  method GetAncestor(nodes: Nodes, b: Ptr, height: int) returns (a: Ptr)
    requires Shaped(nodes) && Skips(nodes) && b in nodes
    ensures if 0 <= height <= nodes[b].height then a == Ancestor(nodes, b, height) else a == NULL
  {
    if height > nodes[b].height || height < 0 {
      return NULL;
    }
    var pindexWalk := b;
    var heightWalk := nodes[b].height;
    while heightWalk > height
      invariant height <= heightWalk
      invariant pindexWalk in nodes && nodes[pindexWalk].height == heightWalk
      invariant Ancestor(nodes, pindexWalk, height) == Ancestor(nodes, b, height)
    {
      var heightSkip := GetSkipHeight(heightWalk);
      var heightSkipPrev := GetSkipHeight(heightWalk - 1);
      if heightSkip == height ||
         (heightSkip > height && !(heightSkipPrev < heightSkip - 2 && heightSkipPrev >= height)) {
        AncestorOfAncestor(nodes, pindexWalk, heightSkip, height);
        pindexWalk := nodes[pindexWalk].skip;
        heightWalk := heightSkip;
      } else {
        pindexWalk := nodes[pindexWalk].prev;
        heightWalk := heightWalk - 1;
      }
    }
    a := pindexWalk;
  }

  /** A new block, with the skip pointer BuildSkip gives it, keeps the tree in shape. */
  lemma {:induction false} AddNodeKeepsShape(nodes: Nodes, b: Ptr, n: Node)
    requires Shaped(nodes) && Skips(nodes) && b != NULL && b !in nodes
    requires if n.prev == NULL then n.height == 0 else
               && n.prev in nodes
               && n.height == nodes[n.prev].height + 1
               && n.work > nodes[n.prev].work
               && n.skip == Ancestor(nodes, n.prev, GetSkipHeight(n.height))
    ensures Shaped(nodes[b := n]) && Skips(nodes[b := n])
  {
    var more := nodes[b := n];
    forall c | c in more && more[c].prev != NULL
      ensures more[c].skip == Ancestor(more, c, GetSkipHeight(more[c].height))
    {
      var p, h := more[c].prev, GetSkipHeight(more[c].height);
      ExtendPath(nodes, more, p);
      PathIsAncestors(nodes, p, h);
      PathIsAncestors(more, p, h);
      if c != b {
        assert nodes[c].skip == Ancestor(nodes, c, h);
      }
    }
  }
}
