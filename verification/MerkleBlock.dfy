/**
 * CPartialMerkleTree: a block's Merkle tree cut down to what proves that some transactions are
 * in it. Digests are numbers and the hash of two digests is a function given from outside; a
 * root of 0 stands for failure.
 */
module MerkleBlock {
  import opened Powers
  import opened Collisions
  import MerkleTree

  type Digest = nat

  const MAX_BLOCK_SIZE: nat := 1_000_000

  /** The number of nodes at a height. */
  function TreeWidth(n: nat, height: nat): nat {
    (n + Pow2(height) - 1) / Pow2(height)
  }

  /** A node is there exactly when there is a leaf below it. */
  lemma {:induction false} WidthCounts(n: nat, height: nat, pos: nat)
    ensures pos < TreeWidth(n, height) <==> pos * Pow2(height) < n
  {
    hide Pow2;
    var d := Pow2(height);
    var w := (n + d - 1) / d;
    DivParts(n + d - 1, d);
    Scale(pos, w, d);
  }

  lemma {:induction false} DivParts(v: nat, d: nat)
    requires d > 0
    ensures v == v / d * d + v % d && 0 <= v % d < d && v / d >= 0
  {}

  lemma {:induction false} Scale(a: nat, b: nat, d: nat)
    ensures a < b ==> a * d + d <= b * d
    ensures a >= b ==> a * d >= b * d
  {
    if a < b {
      assert (a + 1) * d <= b * d;
    }
  }

  /** The children of a node that is there: the left one always is. */
  lemma {:induction false} Children(n: nat, height: nat, pos: nat)
    requires height > 0 && pos < TreeWidth(n, height)
    ensures 2 * pos < TreeWidth(n, height - 1)
    ensures 2 * pos * Pow2(height - 1) == pos * Pow2(height)
    ensures (2 * pos + 1) * Pow2(height - 1) == pos * Pow2(height) + Pow2(height - 1)
    ensures (2 * pos + 2) * Pow2(height - 1) == (pos + 1) * Pow2(height)
    ensures 2 * pos + 1 < TreeWidth(n, height - 1) <==> (2 * pos + 1) * Pow2(height - 1) < n
  {
    var d := Pow2(height - 1);
    assert Pow2(height) == 2 * d;
    assert 2 * pos * d == pos * (2 * d);
    assert (2 * pos + 1) * d == 2 * pos * d + d;
    assert (2 * pos + 2) * d == (pos + 1) * (2 * d);
    WidthCounts(n, height, pos);
    WidthCounts(n, height - 1, 2 * pos);
    WidthCounts(n, height - 1, 2 * pos + 1);
  }

  // ---------- the whole tree ----------

  /** CalcHash; a missing right child counts as a copy of the left one. */
  function CalcHash(hash: (Digest, Digest) -> Digest, ids: seq<Digest>, height: nat, pos: nat): Digest
    requires pos < TreeWidth(|ids|, height)
    decreases height
  {
    if height == 0 then
      WidthCounts(|ids|, 0, pos);
      ids[pos]
    else
      Children(|ids|, height, pos);
      var left := CalcHash(hash, ids, height - 1, pos * 2);
      var right :=
          if pos * 2 + 1 < TreeWidth(|ids|, height - 1) then CalcHash(hash, ids, height - 1, pos * 2 + 1) else left;
      hash(left, right)
  }

  /** The leaves below a node are those from First on and before Last. */
  function First(height: nat, pos: nat): nat {
    pos * Pow2(height)
  }

  function Last(n: nat, height: nat, pos: nat): nat {
    if (pos + 1) * Pow2(height) < n then (pos + 1) * Pow2(height) else n
  }

  lemma {:induction false} Leaves(n: nat, height: nat, pos: nat)
    requires pos < TreeWidth(n, height)
    ensures First(height, pos) < Last(n, height, pos) <= n
    ensures height == 0 ==> First(0, pos) == pos && Last(n, 0, pos) == pos + 1
    ensures height > 0 ==> First(height - 1, 2 * pos) == First(height, pos)
    ensures height > 0 && 2 * pos + 1 < TreeWidth(n, height - 1) ==>
              && Last(n, height - 1, 2 * pos) == First(height - 1, 2 * pos + 1)
              && Last(n, height - 1, 2 * pos + 1) == Last(n, height, pos)
    ensures height > 0 && 2 * pos + 1 >= TreeWidth(n, height - 1)
            ==> Last(n, height - 1, 2 * pos) == Last(n, height, pos)
  {
    WidthCounts(n, height, pos);
    assert (pos + 1) * Pow2(height) == pos * Pow2(height) + Pow2(height);
    if height > 0 {
      Children(n, height, pos);
    }
  }

  // ---------- what is matched ----------

  predicate AnyMatch(match_: seq<bool>, lo: nat, hi: nat)
    requires lo <= hi <= |match_|
  {
    exists p :: lo <= p < hi && match_[p]
  }

  function CountMatches(match_: seq<bool>, lo: nat, hi: nat): nat
    requires lo <= hi <= |match_|
    decreases hi - lo
  {
    if lo == hi then 0 else (if match_[lo] then 1 else 0) + CountMatches(match_, lo + 1, hi)
  }

  /** The matched leaves in a range, in order. */
  function Matched(ids: seq<Digest>, match_: seq<bool>, lo: nat, hi: nat): seq<Digest>
    requires lo <= hi <= |ids| == |match_|
    decreases hi - lo
  {
    if lo == hi then [] else (if match_[lo] then [ids[lo]] else []) + Matched(ids, match_, lo + 1, hi)
  }

  lemma {:induction false} CountPositive(match_: seq<bool>, lo: nat, hi: nat)
    requires lo <= hi <= |match_|
    ensures CountMatches(match_, lo, hi) > 0 <==> AnyMatch(match_, lo, hi)
    decreases hi - lo
  {
    if lo < hi {
      CountPositive(match_, lo + 1, hi);
      if match_[lo] {
        assert AnyMatch(match_, lo, hi);
      }
    }
  }

  lemma {:induction false} CountSplit(match_: seq<bool>, lo: nat, mid: nat, hi: nat)
    requires lo <= mid <= hi <= |match_|
    ensures CountMatches(match_, lo, hi) == CountMatches(match_, lo, mid) + CountMatches(match_, mid, hi)
    decreases mid - lo
  {
    if lo < mid {
      CountSplit(match_, lo + 1, mid, hi);
    }
  }

  lemma {:induction false} MatchedSplit(ids: seq<Digest>, match_: seq<bool>, lo: nat, mid: nat, hi: nat)
    requires lo <= mid <= hi <= |ids| == |match_|
    ensures Matched(ids, match_, lo, hi) == Matched(ids, match_, lo, mid) + Matched(ids, match_, mid, hi)
    decreases mid - lo
  {
    if lo < mid {
      MatchedSplit(ids, match_, lo + 1, mid, hi);
      var first := if match_[lo] then [ids[lo]] else [];
      var a, b := Matched(ids, match_, lo + 1, mid), Matched(ids, match_, mid, hi);
      assert first + (a + b) == (first + a) + b;
    } else {
      assert [] + Matched(ids, match_, mid, hi) == Matched(ids, match_, mid, hi);
    }
  }

  lemma {:induction false} NoMatches(ids: seq<Digest>, match_: seq<bool>, lo: nat, hi: nat)
    requires lo <= hi <= |ids| == |match_| && !AnyMatch(match_, lo, hi)
    ensures Matched(ids, match_, lo, hi) == []
    decreases hi - lo
  {
    if lo < hi {
      assert !match_[lo];
      NoMatches(ids, match_, lo + 1, hi);
    }
  }

  // ---------- the partial tree ----------

  /** What TraverseAndBuild puts out for a node. */
  function Built(hash: (Digest, Digest) -> Digest, ids: seq<Digest>, match_: seq<bool>, height: nat, pos: nat)
    : (seq<bool>, seq<Digest>)
    requires |ids| == |match_| && pos < TreeWidth(|ids|, height)
    decreases height
  {
    Leaves(|ids|, height, pos);
    var parentOfMatch := AnyMatch(match_, First(height, pos), Last(|ids|, height, pos));
    if height == 0 || !parentOfMatch then
      ([parentOfMatch], [CalcHash(hash, ids, height, pos)])
    else
      Children(|ids|, height, pos);
      var left := Built(hash, ids, match_, height - 1, pos * 2);
      var right :=
          if pos * 2 + 1 < TreeWidth(|ids|, height - 1) then Built(hash, ids, match_, height - 1, pos * 2 + 1)
          else ([], []);
      ([true] + left.0 + right.0, left.1 + right.1)
  }

  /** Built, unfolded once. */
  lemma {:induction false} BuiltStep(hash: (Digest, Digest) -> Digest, ids: seq<Digest>, match_: seq<bool>, height: nat,
                                     pos: nat)
    requires |ids| == |match_| && pos < TreeWidth(|ids|, height)
    ensures First(height, pos) < Last(|ids|, height, pos) <= |ids|
    ensures height == 0 ==> First(height, pos) == pos && Last(|ids|, height, pos) == pos + 1
    ensures var any := AnyMatch(match_, First(height, pos), Last(|ids|, height, pos));
            if height == 0 || !any
              then Built(hash, ids, match_, height, pos) == ([any], [CalcHash(hash, ids, height, pos)])
            else
              && 2 * pos < TreeWidth(|ids|, height - 1) && First(height - 1, 2 * pos) == First(height, pos)
              && var l := Built(hash, ids, match_, height - 1, 2 * pos);
                 if 2 * pos + 1 < TreeWidth(|ids|, height - 1)
                 then
                   && (var r := Built(hash, ids, match_, height - 1, 2 * pos + 1);
                       Built(hash, ids, match_, height, pos) == ([true] + l.0 + r.0, l.1 + r.1))
                   && First(height, pos) <= Last(|ids|, height - 1, 2 * pos) <= Last(|ids|, height, pos)
                   && Last(|ids|, height - 1, 2 * pos) == First(height - 1, 2 * pos + 1)
                   && Last(|ids|, height - 1, 2 * pos + 1) == Last(|ids|, height, pos)
                 else
                   && Built(hash, ids, match_, height, pos) == ([true] + l.0, l.1)
                   && Last(|ids|, height - 1, 2 * pos) == Last(|ids|, height, pos)
  {
    hide Pow2, First, Last, AnyMatch, CalcHash, TreeWidth;
    Leaves(|ids|, height, pos);
    if height > 0 {
      Children(|ids|, height, pos);
      Leaves(|ids|, height - 1, 2 * pos);
      if 2 * pos + 1 < TreeWidth(|ids|, height - 1) {
        Leaves(|ids|, height - 1, 2 * pos + 1);
      } else if AnyMatch(match_, First(height, pos), Last(|ids|, height, pos)) {
        var l := Built(hash, ids, match_, height - 1, pos * 2);
        assert [true] + l.0 + [] == [true] + l.0 && l.1 + [] == l.1;
      }
    }
  }

  /** One hash per leaf at most, one bit per hash at least. */
  lemma {:induction false} BuiltSizes(hash: (Digest, Digest) -> Digest, ids: seq<Digest>, match_: seq<bool>,
                                      height: nat, pos: nat)
    requires |ids| == |match_| && pos < TreeWidth(|ids|, height)
    ensures var b := Built(hash, ids, match_, height, pos);
            1 <= |b.1| <= Last(|ids|, height, pos) - First(height, pos) && |b.1| <= |b.0|
    decreases height
  {
    hide Pow2, First, Last, AnyMatch, CalcHash, TreeWidth, Built;
    BuiltStep(hash, ids, match_, height, pos);
    if height > 0 && AnyMatch(match_, First(height, pos), Last(|ids|, height, pos)) {
      BuiltSizes(hash, ids, match_, height - 1, 2 * pos);
      if 2 * pos + 1 < TreeWidth(|ids|, height - 1) {
        BuiltSizes(hash, ids, match_, height - 1, 2 * pos + 1);
      }
    }
  }

  /** Few matches need few hashes. */
  lemma {:induction false} BuiltIsSmall(hash: (Digest, Digest) -> Digest, ids: seq<Digest>, match_: seq<bool>,
                                        height: nat, pos: nat)
    requires |ids| == |match_| && pos < TreeWidth(|ids|, height)
    ensures First(height, pos) <= Last(|ids|, height, pos) <= |match_|
    ensures var m := CountMatches(match_, First(height, pos), Last(|ids|, height, pos));
            |Built(hash, ids, match_, height, pos).1| <= 1 + m * height
    decreases height
  {
    hide Pow2, First, Last, CalcHash, TreeWidth, Built, AnyMatch, CountMatches;
    BuiltStep(hash, ids, match_, height, pos);
    var lo, hi := First(height, pos), Last(|ids|, height, pos);
    var m := CountMatches(match_, lo, hi);
    CountPositive(match_, lo, hi);
    if height > 0 && AnyMatch(match_, lo, hi) {
      BuiltIsSmall(hash, ids, match_, height - 1, 2 * pos);
      if 2 * pos + 1 < TreeWidth(|ids|, height - 1) {
        BuiltIsSmall(hash, ids, match_, height - 1, 2 * pos + 1);
        var mid := First(height - 1, 2 * pos + 1);
        CountSplit(match_, lo, mid, hi);
        TwoSmall(CountMatches(match_, lo, mid), CountMatches(match_, mid, hi), height);
      } else {
        TwoSmall(m, 0, height);
      }
    } else {
      TwoSmall(m, 0, height);
    }
  }

  lemma {:induction false} TwoSmall(a: nat, b: nat, height: nat)
    ensures 0 <= (a + b) * height && a * height >= 0
    ensures height > 0 && a + b > 0 ==> 1 + a * (height - 1) + 1 + b * (height - 1) <= 1 + (a + b) * height
    ensures height > 0 ==> a * (height - 1) <= a * height
  {
    if height > 0 {
      assert (a + b) * height == a * (height - 1) + b * (height - 1) + a + b;
      assert a * height == a * (height - 1) + a;
    }
  }

  // ---------- reading it back ----------

  /** Where TraverseAndExtract is in the bits and hashes, and what it found. */
  datatype Cursor = Cursor(bits: nat, hashes: nat, found: seq<Digest>, bad: bool)

  function Extracted(hash: (Digest, Digest) -> Digest, n: nat, vBits: seq<bool>, vHash: seq<Digest>, height: nat,
                     pos: nat, c: Cursor)
      : (Digest, Cursor)
    decreases height
  {
    if c.bits >= |vBits| then (0, c.(bad := true))
    else
      var parentOfMatch := vBits[c.bits];
      var c1 := c.(bits := c.bits + 1);
      if height == 0 || !parentOfMatch then
        if c1.hashes >= |vHash| then (0, c1.(bad := true))
        else
          var d := vHash[c1.hashes];
          (d, c1.(hashes := c1.hashes + 1, found := if height == 0 && parentOfMatch then c1.found + [d] else c1.found))
      else
        var (left, c2) := Extracted(hash, n, vBits, vHash, height - 1, pos * 2, c1);
        if pos * 2 + 1 < TreeWidth(n, height - 1) then
          var (right, c3) := Extracted(hash, n, vBits, vHash, height - 1, pos * 2 + 1, c2);
          (hash(left, right), c3)
        else
          (hash(left, left), c2)
  }

  /** Does `s` continue with `part` from i on? */
  predicate At<T(==)>(s: seq<T>, i: nat, part: seq<T>) {
    i + |part| <= |s| && s[i..i + |part|] == part
  }

  lemma {:induction false} AtSplit<T>(s: seq<T>, i: nat, a: seq<T>, b: seq<T>)
    requires At(s, i, a + b)
    ensures At(s, i, a) && At(s, i + |a|, b)
  {
    assert s[i..i + |a|] == s[i..i + |a + b|][..|a|] == a;
    assert s[i + |a|..i + |a| + |b|] == s[i..i + |a + b|][|a|..] == b;
  }

  /** The cursor after reading what was built for a node. */
  function After(c: Cursor, b: (seq<bool>, seq<Digest>), found: seq<Digest>): Cursor {
    Cursor(c.bits + |b.0|, c.hashes + |b.1|, c.found + found, c.bad)
  }

  function MatchedBelow(ids: seq<Digest>, match_: seq<bool>, height: nat, pos: nat): seq<Digest>
    requires |ids| == |match_| && First(height, pos) <= Last(|ids|, height, pos) <= |ids|
  {
    Matched(ids, match_, First(height, pos), Last(|ids|, height, pos))
  }

  /** What was built is read back: the node's hash, and its matched leaves in order. */
  lemma {:induction false} ExtractsBuilt(hash: (Digest, Digest) -> Digest, ids: seq<Digest>, match_: seq<bool>,
                                         vBits: seq<bool>, vHash: seq<Digest>, height: nat, pos: nat, c: Cursor)
    requires |ids| == |match_| && pos < TreeWidth(|ids|, height)
    requires var b := Built(hash, ids, match_, height, pos); At(vBits, c.bits, b.0) && At(vHash, c.hashes, b.1)
    ensures First(height, pos) <= Last(|ids|, height, pos) <= |ids|
    ensures Extracted(hash, |ids|, vBits, vHash, height, pos, c) ==
              (CalcHash(hash, ids, height, pos),
               After(c, Built(hash, ids, match_, height, pos), MatchedBelow(ids, match_, height, pos)))
    decreases height
  {
    hide Pow2, First, Last, TreeWidth, AnyMatch, Built, At, CalcHash, Matched, Extracted;
    BuiltStep(hash, ids, match_, height, pos);
    var lo, hi := First(height, pos), Last(|ids|, height, pos);
    if height == 0 || !AnyMatch(match_, lo, hi) {
      ExtractsLeaf(hash, ids, match_, vBits, vHash, height, pos, c);
    } else {
      var l := Built(hash, ids, match_, height - 1, 2 * pos);
      var c1 := c.(bits := c.bits + 1);
      if 2 * pos + 1 < TreeWidth(|ids|, height - 1) {
        var r := Built(hash, ids, match_, height - 1, 2 * pos + 1);
        assert [true] + l.0 + r.0 == [true] + (l.0 + r.0);
        AtSplit(vBits, c.bits, [true], l.0 + r.0);
        AtSplit(vBits, c.bits + 1, l.0, r.0);
        AtSplit(vHash, c.hashes, l.1, r.1);
        ExtractsBuilt(hash, ids, match_, vBits, vHash, height - 1, 2 * pos, c1);
        var c2 := Extracted(hash, |ids|, vBits, vHash, height - 1, 2 * pos, c1).1;
        ExtractsBuilt(hash, ids, match_, vBits, vHash, height - 1, 2 * pos + 1, c2);
        var mid := First(height - 1, 2 * pos + 1);
        MatchedSplit(ids, match_, lo, mid, hi);
        assert c.found + Matched(ids, match_, lo, mid) + Matched(ids, match_, mid, hi) ==
               c.found + Matched(ids, match_, lo, hi);
      } else {
        AtSplit(vBits, c.bits, [true], l.0);
        ExtractsBuilt(hash, ids, match_, vBits, vHash, height - 1, 2 * pos, c1);
      }
      ExtractsNode(hash, ids, vBits, vHash, height, pos, c);
    }
  }

  lemma {:induction false} ExtractsLeaf(hash: (Digest, Digest) -> Digest, ids: seq<Digest>, match_: seq<bool>,
                                        vBits: seq<bool>, vHash: seq<Digest>, height: nat, pos: nat, c: Cursor)
    requires |ids| == |match_| && pos < TreeWidth(|ids|, height)
             && First(height, pos) < Last(|ids|, height, pos) <= |ids|
    requires height == 0 ==> First(height, pos) == pos && Last(|ids|, height, pos) == pos + 1
    requires var any := AnyMatch(match_, First(height, pos), Last(|ids|, height, pos));
             (height == 0 || !any) && At(vBits, c.bits, [any])
               && At(vHash, c.hashes, [CalcHash(hash, ids, height, pos)])
    ensures var any := AnyMatch(match_, First(height, pos), Last(|ids|, height, pos));
            Extracted(hash, |ids|, vBits, vHash, height, pos, c) ==
              (CalcHash(hash, ids, height, pos),
               After(c, ([any], [CalcHash(hash, ids, height, pos)]), MatchedBelow(ids, match_, height, pos)))
  {
    hide Pow2, First, Last, TreeWidth;
    var lo, hi := First(height, pos), Last(|ids|, height, pos);
    var any := AnyMatch(match_, lo, hi);
    assert vBits[c.bits] == vBits[c.bits..c.bits + 1][0] == any;
    assert vHash[c.hashes] == vHash[c.hashes..c.hashes + 1][0];
    if any {
      assert match_[pos];
      assert Matched(ids, match_, lo, hi) == [ids[pos]] + Matched(ids, match_, pos + 1, pos + 1) == [ids[pos]];
      assert CalcHash(hash, ids, height, pos) == ids[pos];
    } else {
      NoMatches(ids, match_, lo, hi);
      assert c.found + [] == c.found;
    }
  }

  /** Extracted and CalcHash at an inner node with something below, unfolded once. */
  lemma {:induction false} ExtractsNode(hash: (Digest, Digest) -> Digest, ids: seq<Digest>,
                                        vBits: seq<bool>, vHash: seq<Digest>, height: nat, pos: nat, c: Cursor)
    requires pos < TreeWidth(|ids|, height) && height > 0 && At(vBits, c.bits, [true])
             && 2 * pos < TreeWidth(|ids|, height - 1)
    ensures var (left, c2) := Extracted(hash, |ids|, vBits, vHash, height - 1, 2 * pos, c.(bits := c.bits + 1));
            var l := CalcHash(hash, ids, height - 1, 2 * pos);
            if 2 * pos + 1 < TreeWidth(|ids|, height - 1) then
              var (right, c3) := Extracted(hash, |ids|, vBits, vHash, height - 1, 2 * pos + 1, c2);
              && Extracted(hash, |ids|, vBits, vHash, height, pos, c) == (hash(left, right), c3)
              && CalcHash(hash, ids, height, pos) == hash(l, CalcHash(hash, ids, height - 1, 2 * pos + 1))
            else
              && Extracted(hash, |ids|, vBits, vHash, height, pos, c) == (hash(left, left), c2)
              && CalcHash(hash, ids, height, pos) == hash(l, l)
  {
    hide Pow2, TreeWidth;
    assert vBits[c.bits] == vBits[c.bits..c.bits + 1][0];
  }

  // ---------- no forged matches ----------

  ghost predicate Increasing(ps: seq<nat>, lo: nat, hi: nat) {
    && (forall i | 0 <= i < |ps| :: lo <= ps[i] < hi)
    && forall i, j | 0 <= i < j < |ps| :: ps[i] < ps[j]
  }

  ghost function Pick(ids: seq<Digest>, ps: seq<nat>): seq<Digest>
    requires forall i | 0 <= i < |ps| :: ps[i] < |ids|
  {
    seq(|ps|, i requires 0 <= i < |ps| => ids[ps[i]])
  }

  lemma {:induction false} BadStays(hash: (Digest, Digest) -> Digest, n: nat, vBits: seq<bool>, vHash: seq<Digest>,
                                    height: nat, pos: nat, c: Cursor)
    requires c.bad
    ensures Extracted(hash, n, vBits, vHash, height, pos, c).1.bad
    decreases height
  {
    if c.bits < |vBits| && height > 0 && vBits[c.bits] {
      var c1 := c.(bits := c.bits + 1);
      BadStays(hash, n, vBits, vHash, height - 1, pos * 2, c1);
      if pos * 2 + 1 < TreeWidth(n, height - 1) {
        BadStays(hash, n, vBits, vHash, height - 1, pos * 2 + 1,
                 Extracted(hash, n, vBits, vHash, height - 1, pos * 2, c1).1);
      }
    }
  }

  /** All pairs hashed while the part of the tree below a node is read. */
  ghost function ReadPairs(hash: (Digest, Digest) -> Digest, n: nat, vBits: seq<bool>, vHash: seq<Digest>, height: nat,
                           pos: nat, c: Cursor)
      : set<(Digest, Digest)>
    decreases height
  {
    if c.bits >= |vBits| || height == 0 || !vBits[c.bits] then {}
    else
      var c1 := c.(bits := c.bits + 1);
      var (left, c2) := Extracted(hash, n, vBits, vHash, height - 1, pos * 2, c1);
      var below := ReadPairs(hash, n, vBits, vHash, height - 1, pos * 2, c1);
      if pos * 2 + 1 < TreeWidth(n, height - 1) then
        var right := Extracted(hash, n, vBits, vHash, height - 1, pos * 2 + 1, c2).0;
        below + ReadPairs(hash, n, vBits, vHash, height - 1, pos * 2 + 1, c2) + {(left, right)}
      else below + {(left, left)}
  }

  /** All pairs hashed in the true tree below a node. */
  ghost function TreePairs(hash: (Digest, Digest) -> Digest, ids: seq<Digest>, height: nat, pos: nat)
    : set<(Digest, Digest)>
    requires pos < TreeWidth(|ids|, height)
    decreases height
  {
    if height == 0 then {}
    else
      Children(|ids|, height, pos);
      var left, below := CalcHash(hash, ids, height - 1, pos * 2), TreePairs(hash, ids, height - 1, pos * 2);
      if pos * 2 + 1 < TreeWidth(|ids|, height - 1) then
        below + TreePairs(hash, ids, height - 1, pos * 2 + 1) + {(left, CalcHash(hash, ids, height - 1, pos * 2 + 1))}
      else below + {(left, left)}
  }

  /** The pairs of both trees at a node and below it. */
  lemma {:induction false} PairsStep(hash: (Digest, Digest) -> Digest, ids: seq<Digest>, vBits: seq<bool>,
                                     vHash: seq<Digest>, height: nat, pos: nat, c: Cursor)
    requires height > 0 && pos < TreeWidth(|ids|, height) && 2 * pos < TreeWidth(|ids|, height - 1) && c.bits < |vBits|
             && vBits[c.bits]
    ensures var c1 := c.(bits := c.bits + 1);
            var (left, c2) := Extracted(hash, |ids|, vBits, vHash, height - 1, 2 * pos, c1);
            var read, whole := ReadPairs(hash, |ids|, vBits, vHash, height, pos, c), TreePairs(hash, ids, height, pos);
            var l := CalcHash(hash, ids, height - 1, 2 * pos);
            && ReadPairs(hash, |ids|, vBits, vHash, height - 1, 2 * pos, c1) <= read
            && TreePairs(hash, ids, height - 1, 2 * pos) <= whole
            && if 2 * pos + 1 < TreeWidth(|ids|, height - 1) then
                 && ReadPairs(hash, |ids|, vBits, vHash, height - 1, 2 * pos + 1, c2) <= read
                 && TreePairs(hash, ids, height - 1, 2 * pos + 1) <= whole
                 && (left, Extracted(hash, |ids|, vBits, vHash, height - 1, 2 * pos + 1, c2).0) in read
                 && (l, CalcHash(hash, ids, height - 1, 2 * pos + 1)) in whole
               else (left, left) in read && (l, l) in whole
  {
    hide Pow2, TreeWidth, Extracted, CalcHash;
  }

  /** Equal hashes of pairs that do not collide. */
  lemma {:induction false} Same(hash: (Digest, Digest) -> Digest, read: set<(Digest, Digest)>,
                                whole: set<(Digest, Digest)>, a: Digest, b: Digest, c: Digest, d: Digest)
    requires !Collide(hash, read, whole) && (a, b) in read && (c, d) in whole && hash(a, b) == hash(c, d)
    ensures a == c && b == d
  {
    if (a, b) != (c, d) {
      CollideHere(hash, read, whole, (a, b), (c, d));
    }
  }

  lemma {:induction false} NoneInLess(hash: (Digest, Digest) -> Digest, read: set<(Digest, Digest)>,
                                      whole: set<(Digest, Digest)>, less: set<(Digest, Digest)>,
                                      part: set<(Digest, Digest)>)
    requires !Collide(hash, read, whole) && less <= read && part <= whole
    ensures !Collide(hash, less, part)
  {
    if Collide(hash, less, part) {
      CollideInMore(hash, less, part, read, whole);
    }
  }

  /**
   * Whatever the bits and hashes: if a node's hash comes out right and nothing ran short, then
   * what was found are leaves below the node, in order and each at most once, unless two different
   * pairs, one hashed while reading and one of the true tree, have the same hash.
   */
  lemma {:induction false} FoundAreLeaves(hash: (Digest, Digest) -> Digest, ids: seq<Digest>, vBits: seq<bool>,
                                          vHash: seq<Digest>, height: nat, pos: nat, c: Cursor)
    returns (ps: seq<nat>)
    requires pos < TreeWidth(|ids|, height)
    requires !Collide(hash, ReadPairs(hash, |ids|, vBits, vHash, height, pos, c), TreePairs(hash, ids, height, pos))
    requires var (d, c') := Extracted(hash, |ids|, vBits, vHash, height, pos, c);
             d == CalcHash(hash, ids, height, pos) && !c'.bad
    ensures Last(|ids|, height, pos) <= |ids| && Increasing(ps, First(height, pos), Last(|ids|, height, pos))
    ensures Extracted(hash, |ids|, vBits, vHash, height, pos, c).1.found == c.found + Pick(ids, ps)
    decreases height
  {
    hide Pow2, First, Last, TreeWidth, Extracted, CalcHash, Collide, ReadPairs, TreePairs;
    Leaves(|ids|, height, pos);
    ExtractedStep(hash, ids, vBits, vHash, height, pos, c);
    if height == 0 && vBits[c.bits] {
      ps := [pos];
    } else if height == 0 || !vBits[c.bits] {
      ps := [];
    } else {
      ps := FoundInside(hash, ids, vBits, vHash, height, pos, c);
    }
  }

  lemma {:induction false} FoundInside(hash: (Digest, Digest) -> Digest, ids: seq<Digest>, vBits: seq<bool>,
                                       vHash: seq<Digest>, height: nat, pos: nat, c: Cursor)
    returns (ps: seq<nat>)
    requires pos < TreeWidth(|ids|, height) && height > 0 && c.bits < |vBits| && vBits[c.bits]
    requires !Collide(hash, ReadPairs(hash, |ids|, vBits, vHash, height, pos, c), TreePairs(hash, ids, height, pos))
    requires var (d, c') := Extracted(hash, |ids|, vBits, vHash, height, pos, c);
             d == CalcHash(hash, ids, height, pos) && !c'.bad
    ensures Last(|ids|, height, pos) <= |ids| && Increasing(ps, First(height, pos), Last(|ids|, height, pos))
    ensures Extracted(hash, |ids|, vBits, vHash, height, pos, c).1.found == c.found + Pick(ids, ps)
    decreases height, 0
  {
    hide Pow2, First, Last, TreeWidth, Extracted, CalcHash, Collide, ReadPairs, TreePairs;
    Leaves(|ids|, height, pos);
    ExtractedStep(hash, ids, vBits, vHash, height, pos, c);
    PairsStep(hash, ids, vBits, vHash, height, pos, c);
    var c1 := c.(bits := c.bits + 1);
    var (left, c2) := Extracted(hash, |ids|, vBits, vHash, height - 1, 2 * pos, c1);
    var l := CalcHash(hash, ids, height - 1, 2 * pos);
    var read, whole := ReadPairs(hash, |ids|, vBits, vHash, height, pos, c), TreePairs(hash, ids, height, pos);
    NoneInLess(hash, read, whole, ReadPairs(hash, |ids|, vBits, vHash, height - 1, 2 * pos, c1),
               TreePairs(hash, ids, height - 1, 2 * pos));
    if 2 * pos + 1 < TreeWidth(|ids|, height - 1) {
      var (right, c3) := Extracted(hash, |ids|, vBits, vHash, height - 1, 2 * pos + 1, c2);
      var r := CalcHash(hash, ids, height - 1, 2 * pos + 1);
      Same(hash, read, whole, left, right, l, r);
      NoneInLess(hash, read, whole, ReadPairs(hash, |ids|, vBits, vHash, height - 1, 2 * pos + 1, c2),
                 TreePairs(hash, ids, height - 1, 2 * pos + 1));
      if c2.bad {
        BadStays(hash, |ids|, vBits, vHash, height - 1, 2 * pos + 1, c2);
        assert false;
      }
      var ps1 := FoundAreLeaves(hash, ids, vBits, vHash, height - 1, 2 * pos, c1);
      var ps2 := FoundAreLeaves(hash, ids, vBits, vHash, height - 1, 2 * pos + 1, c2);
      ps := ps1 + ps2;
      Leaves(|ids|, height - 1, 2 * pos);
      Leaves(|ids|, height - 1, 2 * pos + 1);
      assert c.found + Pick(ids, ps1) + Pick(ids, ps2) == c.found + Pick(ids, ps);
    } else {
      Same(hash, read, whole, left, left, l, l);
      ps := FoundAreLeaves(hash, ids, vBits, vHash, height - 1, 2 * pos, c1);
    }
  }

  /** Extracted and CalcHash, unfolded once where nothing ran short. */
  lemma {:induction false} ExtractedStep(hash: (Digest, Digest) -> Digest, ids: seq<Digest>, vBits: seq<bool>,
                                         vHash: seq<Digest>, height: nat, pos: nat, c: Cursor)
    requires pos < TreeWidth(|ids|, height) && !Extracted(hash, |ids|, vBits, vHash, height, pos, c).1.bad
    ensures c.bits < |vBits| && !(height == 0 || !vBits[c.bits]) ==> 2 * pos < TreeWidth(|ids|, height - 1)
    ensures c.bits < |vBits|
    ensures height == 0 ==> pos < |ids| && CalcHash(hash, ids, height, pos) == ids[pos] && First(height, pos) == pos
    ensures var e := Extracted(hash, |ids|, vBits, vHash, height, pos, c);
            if height == 0 || !vBits[c.bits] then
              e.1.found == if height == 0 && vBits[c.bits] then c.found + [e.0] else c.found
            else
              var (left, c2) := Extracted(hash, |ids|, vBits, vHash, height - 1, 2 * pos, c.(bits := c.bits + 1));
              var l := CalcHash(hash, ids, height - 1, 2 * pos);
              if 2 * pos + 1 < TreeWidth(|ids|, height - 1) then
                var (right, c3) := Extracted(hash, |ids|, vBits, vHash, height - 1, 2 * pos + 1, c2);
                e == (hash(left, right), c3)
                  && CalcHash(hash, ids, height, pos) == hash(l, CalcHash(hash, ids, height - 1, 2 * pos + 1))
              else
                e == (hash(left, left), c2) && CalcHash(hash, ids, height, pos) == hash(l, l)
  {
    hide Pow2, First, Last, TreeWidth;
    Leaves(|ids|, height, pos);
    if height > 0 {
      Children(|ids|, height, pos);
    }
  }

  // ---------- the height of the tree ----------

  function HeightFrom(n: nat, height: nat): (r: nat)
    decreases if Pow2(height) < n then n - Pow2(height) else 0
  {
    if TreeWidth(n, height) <= 1 then height
    else
      WidthCounts(n, height, 1);
      HeightFrom(n, height + 1)
  }

  /** The first height at which there is at most one node. */
  function TreeHeight(n: nat): nat {
    HeightFrom(n, 0)
  }

  lemma {:induction false} HeightIsTop(n: nat, height: nat)
    requires n > 0
    ensures TreeWidth(n, HeightFrom(n, height)) == 1
    decreases if Pow2(height) < n then n - Pow2(height) else 0
  {
    WidthCounts(n, height, 0);
    if TreeWidth(n, height) > 1 {
      WidthCounts(n, height, 1);
      HeightIsTop(n, height + 1);
    }
  }

  /** The root is there, and all leaves are below it. */
  lemma {:induction false} RootIsTop(n: nat)
    requires n > 0
    ensures var h := TreeHeight(n); 0 < TreeWidth(n, h) && First(h, 0) == 0 && Last(n, h, 0) == n
  {
    HeightIsTop(n, 0);
    WidthCounts(n, TreeHeight(n), 1);
  }

  function Root(hash: (Digest, Digest) -> Digest, ids: seq<Digest>): Digest
    requires |ids| > 0
  {
    RootIsTop(|ids|);
    CalcHash(hash, ids, TreeHeight(|ids|), 0)
  }

  // ---------- the tree of the whole block ----------

  lemma {:induction false} WidthHalves(n: nat, height: nat)
    requires height > 0
    ensures TreeWidth(n, height) == (TreeWidth(n, height - 1) + 1) / 2
  {
    var w, half := TreeWidth(n, height), (TreeWidth(n, height - 1) + 1) / 2;
    HalvedAt(n, height, w);
    HalvedAt(n, height, half);
  }

  lemma {:induction false} HalvedAt(n: nat, height: nat, pos: nat)
    requires height > 0
    ensures pos < TreeWidth(n, height) <==> 2 * pos < TreeWidth(n, height - 1)
  {
    WidthCounts(n, height, pos);
    WidthCounts(n, height - 1, 2 * pos);
    assert 2 * pos * Pow2(height - 1) == pos * Pow2(height);
  }

  lemma {:induction false} LevelWidth(hash: (Digest, Digest) -> Digest, ids: seq<Digest>, height: nat)
    ensures |MerkleTree.Level(hash, ids, height)| == TreeWidth(|ids|, height)
  {
    hide TreeWidth, Pow2;
    if height == 0 {
      OneLeafEach(|ids|);
    } else {
      WidthHalves(|ids|, height);
      LevelWidth(hash, ids, height - 1);
    }
  }

  lemma {:induction false} LevelAbove(hash: (Digest, Digest) -> Digest, ids: seq<Digest>, height: nat, pos: nat)
    requires height > 0 && pos < |MerkleTree.Level(hash, ids, height)|
    ensures var v := MerkleTree.Level(hash, ids, height - 1);
            && 2 * pos < |v|
            && MerkleTree.Level(hash, ids, height)[pos] ==
               hash(v[2 * pos], if 2 * pos + 1 < |v| then v[2 * pos + 1] else v[2 * pos])
  {}

  /** CalcHash, which goes down from a node, and BuildMerkleTree, which goes up by levels, agree. */
  lemma {:induction false} NodeIsInLevel(hash: (Digest, Digest) -> Digest, ids: seq<Digest>, height: nat, pos: nat)
    ensures |MerkleTree.Level(hash, ids, height)| == TreeWidth(|ids|, height)
    ensures pos < TreeWidth(|ids|, height) ==>
              CalcHash(hash, ids, height, pos) == MerkleTree.Level(hash, ids, height)[pos]
    decreases height
  {
    hide TreeWidth, Pow2, MerkleTree.Level;
    LevelWidth(hash, ids, height);
    if pos < TreeWidth(|ids|, height) {
      if height == 0 {
        BottomLevel(hash, ids, pos);
      } else {
        Children(|ids|, height, pos);
        LevelAbove(hash, ids, height, pos);
        NodeIsInLevel(hash, ids, height - 1, 2 * pos);
        NodeIsInLevel(hash, ids, height - 1, 2 * pos + 1);
      }
    }
  }

  lemma {:induction false} BottomLevel(hash: (Digest, Digest) -> Digest, ids: seq<Digest>, pos: nat)
    requires pos < TreeWidth(|ids|, 0)
    ensures MerkleTree.Level(hash, ids, 0) == ids && CalcHash(hash, ids, 0, pos) == ids[pos]
  {}

  lemma {:induction false} OneLeafEach(n: nat)
    ensures TreeWidth(n, 0) == n
  {}

  lemma {:induction false} LevelKeepsRoot(hash: (Digest, Digest) -> Digest, ids: seq<Digest>, height: nat)
    requires MerkleTree.Root(hash, MerkleTree.Level(hash, ids, height), 0) == MerkleTree.Root(hash, ids, 0)
    requires HeightFrom(|ids|, height) == TreeHeight(|ids|)
    ensures MerkleTree.Root(hash, MerkleTree.Level(hash, ids, TreeHeight(|ids|)), 0) == MerkleTree.Root(hash, ids, 0)
    decreases if Pow2(height) < |ids| then |ids| - Pow2(height) else 0
  {
    hide TreeWidth;
    NodeIsInLevel(hash, ids, height, 0);
    if TreeWidth(|ids|, height) > 1 {
      WidthCounts(|ids|, height, 1);
      LevelKeepsRoot(hash, ids, height + 1);
    }
  }

  /** The root that partial trees are checked against is the one BuildMerkleTree computes. */
  lemma {:induction false} RootIsBuilt(hash: (Digest, Digest) -> Digest, ids: seq<Digest>)
    requires ids != []
    ensures Root(hash, ids) == MerkleTree.Root(hash, ids, 0)
  {
    hide TreeWidth, CalcHash, HeightFrom;
    var h := TreeHeight(|ids|);
    RootIsTop(|ids|);
    HeightIsTop(|ids|, 0);
    NodeIsInLevel(hash, ids, h, 0);
    LevelKeepsRoot(hash, ids, 0);
  }

  // ---------- ExtractMatches ----------

  /** The root, or 0, and the matches. */
  function ExtractResult(hash: (Digest, Digest) -> Digest, n: nat, vBits: seq<bool>, vHash: seq<Digest>, fBad: bool)
    : (Digest, seq<Digest>)
  {
    if n == 0 || n > MAX_BLOCK_SIZE / 60 || |vHash| > n || |vBits| < |vHash| then (0, [])
    else
      var (d, c) := Extracted(hash, n, vBits, vHash, TreeHeight(n), 0, Cursor(0, 0, [], fBad));
      (if c.bad || (c.bits + 7) / 8 != (|vBits| + 7) / 8 || c.hashes != |vHash| then 0 else d, c.found)
  }

  /** Bits as they come back from bytes: up to seven more, all zero. */
  ghost predicate Padded(vBits: seq<bool>, padded: seq<bool>) {
    && vBits <= padded && |padded| == (|vBits| + 7) / 8 * 8
    && forall i | |vBits| <= i < |padded| :: !padded[i]
  }

  /**
   * A partial tree built from any transactions and mask, packed to bytes and back, gives exactly
   * the masked transactions in order and the root of the full tree, and uses all its hashes.
   */
  lemma {:induction false} PartialTreeRoundTrip(hash: (Digest, Digest) -> Digest, ids: seq<Digest>, match_: seq<bool>,
                                                padded: seq<bool>)
    requires 0 < |ids| == |match_| && |ids| <= MAX_BLOCK_SIZE / 60
    ensures 0 < TreeWidth(|ids|, TreeHeight(|ids|))
    ensures var b := Built(hash, ids, match_, TreeHeight(|ids|), 0);
            Padded(b.0, padded) || padded == b.0 ==>
              ExtractResult(hash, |ids|, padded, b.1, false) == (Root(hash, ids), Matched(ids, match_, 0, |ids|))
  {
    hide Built, Extracted, CalcHash, Pow2, TreeWidth, Matched, First, Last, HeightFrom;
    RootIsTop(|ids|);
    var h := TreeHeight(|ids|);
    var b := Built(hash, ids, match_, h, 0);
    if Padded(b.0, padded) || padded == b.0 {
      BuiltSizes(hash, ids, match_, h, 0);
      assert padded[0..|b.0|] == b.0 && b.1[0..|b.1|] == b.1;
      ExtractsBuilt(hash, ids, match_, padded, b.1, h, 0, Cursor(0, 0, [], false));
      assert [] + Matched(ids, match_, 0, |ids|) == Matched(ids, match_, 0, |ids|);
    }
  }

  /** The documented bounds on the number of hashes. */
  lemma {:induction false} PartialTreeIsSmall(hash: (Digest, Digest) -> Digest, ids: seq<Digest>, match_: seq<bool>)
    requires 0 < |ids| == |match_|
    ensures 0 < TreeWidth(|ids|, TreeHeight(|ids|))
    ensures var b := Built(hash, ids, match_, TreeHeight(|ids|), 0);
            |b.1| <= |ids| && |b.1| <= 1 + CountMatches(match_, 0, |ids|) * TreeHeight(|ids|)
  {
    hide Built, CalcHash, Pow2, TreeWidth, CountMatches, First, Last, HeightFrom;
    RootIsTop(|ids|);
    BuiltSizes(hash, ids, match_, TreeHeight(|ids|), 0);
    BuiltIsSmall(hash, ids, match_, TreeHeight(|ids|), 0);
  }

  /**
   * No forged matches: whatever bits and hashes a peer sends, if they give the root of a block
   * with that many transactions, then every match is one of its transactions, in block order
   * and none twice, or else the peer found a collision with the tree of that block.
   */
  lemma {:induction false} NoForgedMatches(hash: (Digest, Digest) -> Digest, ids: seq<Digest>, vBits: seq<bool>,
                                           vHash: seq<Digest>, fBad: bool)
      returns (ps: seq<nat>)
    requires |ids| > 0
    requires var (root, found) := ExtractResult(hash, |ids|, vBits, vHash, fBad); root == Root(hash, ids) != 0
    ensures 0 < TreeWidth(|ids|, TreeHeight(|ids|))
    ensures var h := TreeHeight(|ids|);
            || Collide(hash, ReadPairs(hash, |ids|, vBits, vHash, h, 0, Cursor(0, 0, [], fBad)),
                       TreePairs(hash, ids, h, 0))
            || (Increasing(ps, 0, |ids|) && ExtractResult(hash, |ids|, vBits, vHash, fBad).1 == Pick(ids, ps))
  {
    hide Built, Extracted, CalcHash, Pow2, TreeWidth, First, Last, HeightFrom, Collide, ReadPairs, TreePairs;
    RootIsTop(|ids|);
    var h := TreeHeight(|ids|);
    ps := [];
    if !Collide(hash, ReadPairs(hash, |ids|, vBits, vHash, h, 0, Cursor(0, 0, [], fBad)), TreePairs(hash, ids, h, 0)) {
      ps := FoundAreLeaves(hash, ids, vBits, vHash, h, 0, Cursor(0, 0, [], fBad));
      assert [] + Pick(ids, ps) == Pick(ids, ps);
    }
  }

  // ---------- bits in bytes ----------

  function Mask(i: nat): bv8
    requires i < 8
  {
    if i == 0 then 1 else if i == 1 then 2 else if i == 2 then 4 else if i == 3 then 8
    else if i == 4 then 16 else if i == 5 then 32 else if i == 6 then 64 else 128
  }

  predicate BitIn(b: bv8, i: nat)
    requires i < 8
  {
    b & Mask(i) != 0
  }

  predicate BitAt(vBytes: seq<bv8>, p: nat)
    requires p < 8 * |vBytes|
  {
    BitIn(vBytes[p / 8], p % 8)
  }

  function WithBit(b: bv8, i: nat): bv8
    requires i < 8
  {
    b | Mask(i)
  }

  /** Bit i of a byte is worth 2^i. */
  lemma {:induction false} ByteValue(b: bv8)
    ensures b == (if BitIn(b, 0) then 1 else 0) + (if BitIn(b, 1) then 2 else 0) + (if BitIn(b, 2) then 4 else 0)
                 + (if BitIn(b, 3) then 8 else 0) + (if BitIn(b, 4) then 16 else 0) + (if BitIn(b, 5) then 32 else 0)
                 + (if BitIn(b, 6) then 64 else 0) + (if BitIn(b, 7) then 128 else 0)
  {}

  lemma {:induction false} SetBit(b: bv8, i: nat, j: nat)
    requires i < 8 && j < 8
    ensures BitIn(WithBit(b, i), j) == (i == j || BitIn(b, j))
  {}

  lemma {:induction false} SamePlace(p: nat, q: nat)
    ensures p == q <==> p / 8 == q / 8 && p % 8 == q % 8
  {}

  lemma {:induction false} SetBitAt(vBytes: seq<bv8>, p: nat, q: nat)
    requires p < 8 * |vBytes| && q < 8 * |vBytes|
    ensures BitAt(vBytes[p / 8 := WithBit(vBytes[p / 8], p % 8)], q) == (q == p || BitAt(vBytes, q))
  {
    hide Mask, BitIn, WithBit;
    SamePlace(p, q);
    SetBit(vBytes[p / 8], p % 8, q % 8);
  }

  /** The first p bits are in the bytes, and all others are zero. */
  ghost predicate Packed(vBytes: seq<bv8>, vBits: seq<bool>, p: nat) {
    && |vBytes| == (|vBits| + 7) / 8 && p <= |vBits|
    && forall q | 0 <= q < 8 * |vBytes| :: BitAt(vBytes, q) == (q < p && vBits[q])
  }

  lemma {:induction false} ByteThere(p: nat, n: nat)
    requires p < n
    ensures p / 8 < (n + 7) / 8 && p < 8 * ((n + 7) / 8)
  {}

  lemma {:induction false} PackOne(vBytes: seq<bv8>, vBits: seq<bool>, p: nat)
    requires Packed(vBytes, vBits, p) && p < |vBits|
    ensures p / 8 < |vBytes|
    ensures Packed(if vBits[p] then vBytes[p / 8 := WithBit(vBytes[p / 8], p % 8)] else vBytes, vBits, p + 1)
  {
    hide BitIn, WithBit, BitAt;
    ByteThere(p, |vBits|);
    var after := if vBits[p] then vBytes[p / 8 := WithBit(vBytes[p / 8], p % 8)] else vBytes;
    forall q | 0 <= q < 8 * |vBytes|
      ensures BitAt(after, q) == (q < p + 1 && vBits[q])
    {
      SetBitAt(vBytes, p, q);
      assert BitAt(vBytes, q) == (q < p && vBits[q]);
    }
  }

  function Zeroes(n: nat): (vBytes: seq<bv8>)
    ensures |vBytes| == n && forall p | 0 <= p < 8 * n :: !BitAt(vBytes, p)
  {
    seq(n, i => 0)
  }

  /** Packing, least significant bit first. */
  method Pack(vBits: seq<bool>) returns (vBytes: seq<bv8>)
    ensures |vBytes| == (|vBits| + 7) / 8
    ensures forall p | 0 <= p < 8 * |vBytes| :: BitAt(vBytes, p) == (p < |vBits| && vBits[p])
  {
    hide BitIn, WithBit;
    vBytes := Zeroes((|vBits| + 7) / 8);
    for p := 0 to |vBits|
      invariant Packed(vBytes, vBits, p)
    {
      PackOne(vBytes, vBits, p);
      if vBits[p] {
        vBytes := vBytes[p / 8 := WithBit(vBytes[p / 8], p % 8)];
      }
    }
  }

  method Unpack(vBytes: seq<bv8>) returns (vBits: seq<bool>)
    ensures |vBits| == 8 * |vBytes| && forall p | 0 <= p < |vBits| :: vBits[p] == BitAt(vBytes, p)
  {
    hide BitIn;
    vBits := [];
    for p := 0 to 8 * |vBytes|
      invariant |vBits| == p && forall q | 0 <= q < p :: vBits[q] == BitAt(vBytes, q)
    {
      vBits := vBits + [BitIn(vBytes[p / 8], p % 8)];
    }
  }

  // ---------- the class ----------

  class CPartialMerkleTree {
    var nTransactions: nat
    var vBits: seq<bool>
    var vHash: seq<Digest>
    var fBad: bool
    const hash: (Digest, Digest) -> Digest

    /** From a block's transactions and a mask. */
    constructor (hash: (Digest, Digest) -> Digest, vTxid: seq<Digest>, vMatch: seq<bool>)
      requires 0 < |vTxid| == |vMatch|
      ensures this.hash == hash && nTransactions == |vTxid| && !fBad
      ensures 0 < TreeWidth(|vTxid|, TreeHeight(|vTxid|))
      ensures (vBits, vHash) == Built(hash, vTxid, vMatch, TreeHeight(|vTxid|), 0)
    {
      hide Pow2, TreeWidth, Built, CalcHash;
      this.hash := hash;
      nTransactions, fBad := |vTxid|, false;
      vBits, vHash := [], [];
      new;
      RootIsTop(|vTxid|);
      var nHeight := CalcHeight();
      TraverseAndBuild(nHeight, 0, vTxid, vMatch);
      ghost var b := Built(hash, vTxid, vMatch, nHeight, 0);
      assert [] + b.0 == b.0 && [] + b.1 == b.1;
    }

    /** The loop that finds the height of the tree. */
    method CalcHeight() returns (nHeight: nat)
      ensures nHeight == TreeHeight(nTransactions)
    {
      nHeight := 0;
      while TreeWidth(nTransactions, nHeight) > 1
        invariant HeightFrom(nTransactions, nHeight) == TreeHeight(nTransactions)
        decreases if Pow2(nHeight) < nTransactions then nTransactions - Pow2(nHeight) else 0
      {
        WidthCounts(nTransactions, nHeight, 1);
        nHeight := nHeight + 1;
      }
    }

    /** CalcHash, by recursion. */
    method NodeHash(height: nat, pos: nat, vTxid: seq<Digest>) returns (d: Digest)
      requires nTransactions == |vTxid| && pos < TreeWidth(|vTxid|, height)
      ensures d == CalcHash(hash, vTxid, height, pos)
      decreases height
    {
      hide Pow2, TreeWidth;
      Leaves(|vTxid|, height, pos);
      if height == 0 {
        d := vTxid[pos];
      } else {
        Children(|vTxid|, height, pos);
        var left := NodeHash(height - 1, pos * 2, vTxid);
        var right := left;
        if pos * 2 + 1 < TreeWidth(nTransactions, height - 1) {
          right := NodeHash(height - 1, pos * 2 + 1, vTxid);
        }
        d := hash(left, right);
      }
    }

    /** Is any transaction below the node matched? */
    method ParentOfMatch(height: nat, pos: nat, vMatch: seq<bool>) returns (b: bool)
      requires nTransactions == |vMatch| && First(height, pos) <= Last(|vMatch|, height, pos) <= |vMatch|
      ensures b == AnyMatch(vMatch, First(height, pos), Last(|vMatch|, height, pos))
    {
      b := false;
      var p := pos * Pow2(height);
      while p < (pos + 1) * Pow2(height) && p < nTransactions
        invariant First(height, pos) <= p <= Last(|vMatch|, height, pos)
        invariant b == AnyMatch(vMatch, First(height, pos), p)
      {
        b := b || vMatch[p];
        p := p + 1;
      }
    }

    method TraverseAndBuild(height: nat, pos: nat, vTxid: seq<Digest>, vMatch: seq<bool>)
      requires nTransactions == |vTxid| == |vMatch| && pos < TreeWidth(|vTxid|, height)
      modifies this`vBits, this`vHash
      ensures var b := Built(hash, vTxid, vMatch, height, pos); vBits == old(vBits) + b.0 && vHash == old(vHash) + b.1
      decreases height
    {
      hide Pow2, TreeWidth, First, Last, AnyMatch, CalcHash, Built;
      BuiltStep(hash, vTxid, vMatch, height, pos);
      var fParentOfMatch := ParentOfMatch(height, pos, vMatch);
      vBits := vBits + [fParentOfMatch];
      if height == 0 || !fParentOfMatch {
        var d := NodeHash(height, pos, vTxid);
        vHash := vHash + [d];
      } else {
        TraverseAndBuild(height - 1, pos * 2, vTxid, vMatch);
        if pos * 2 + 1 < TreeWidth(nTransactions, height - 1) {
          TraverseAndBuild(height - 1, pos * 2 + 1, vTxid, vMatch);
        }
      }
    }

    /** The two counters and the list of matches are passed in and out. */
    method TraverseAndExtract(height: nat, pos: nat, bits: nat, hashes: nat, found: seq<Digest>)
        returns (d: Digest, nBitsUsed: nat, nHashUsed: nat, vMatch: seq<Digest>)
      modifies this`fBad
      ensures (d, Cursor(nBitsUsed, nHashUsed, vMatch, fBad)) ==
              Extracted(hash, nTransactions, vBits, vHash, height, pos, Cursor(bits, hashes, found, old(fBad)))
      decreases height
    {
      hide Pow2, TreeWidth;
      nBitsUsed, nHashUsed, vMatch, d := bits, hashes, found, 0;
      if nBitsUsed >= |vBits| {
        fBad := true;
        return;
      }
      var fParentOfMatch := vBits[nBitsUsed];
      nBitsUsed := nBitsUsed + 1;
      if height == 0 || !fParentOfMatch {
        if nHashUsed >= |vHash| {
          fBad := true;
          return;
        }
        d := vHash[nHashUsed];
        nHashUsed := nHashUsed + 1;
        if height == 0 && fParentOfMatch {
          vMatch := vMatch + [d];
        }
      } else {
        var left, right;
        left, nBitsUsed, nHashUsed, vMatch := TraverseAndExtract(height - 1, pos * 2, nBitsUsed, nHashUsed, vMatch);
        right := left;
        if pos * 2 + 1 < TreeWidth(nTransactions, height - 1) {
          right, nBitsUsed, nHashUsed, vMatch :=
            TraverseAndExtract(height - 1, pos * 2 + 1, nBitsUsed, nHashUsed, vMatch);
        }
        d := hash(left, right);
      }
    }

    method ExtractMatches() returns (root: Digest, vMatch: seq<Digest>)
      modifies this`fBad
      ensures (root, vMatch) == ExtractResult(hash, nTransactions, vBits, vHash, old(fBad))
    {
      hide Pow2, TreeWidth, Extracted;
      root, vMatch := 0, [];
      if nTransactions == 0 || nTransactions > MAX_BLOCK_SIZE / 60 || |vHash| > nTransactions || |vBits| < |vHash| {
        return;
      }
      var nHeight := CalcHeight();
      var hashMerkleRoot, nBitsUsed, nHashUsed;
      hashMerkleRoot, nBitsUsed, nHashUsed, vMatch := TraverseAndExtract(nHeight, 0, 0, 0, []);
      if !fBad && (nBitsUsed + 7) / 8 == (|vBits| + 7) / 8 && nHashUsed == |vHash| {
        root := hashMerkleRoot;
      }
    }

    /** What another node receives: the counts and hashes as they are, the bits from bytes. */
    method Relay() returns (other: CPartialMerkleTree)
      ensures fresh(other) && other.hash == hash && other.nTransactions == nTransactions && other.vHash == vHash
              && !other.fBad
      ensures Padded(vBits, other.vBits)
    {
      var vBytes := Pack(vBits);
      var bits := Unpack(vBytes);
      other := new CPartialMerkleTree.Received(hash, nTransactions, bits, vHash);
    }

    constructor Received(hash: (Digest, Digest) -> Digest, n: nat, vBits: seq<bool>, vHash: seq<Digest>)
      ensures this.hash == hash && nTransactions == n && this.vBits == vBits && this.vHash == vHash && !fBad
    {
      this.hash, nTransactions, this.vBits, this.vHash, fBad := hash, n, vBits, vHash, false;
    }
  }

  /** Build, relay and extract, all together. */
  method FilteredBlock(hash: (Digest, Digest) -> Digest, vTxid: seq<Digest>, vMatch: seq<bool>)
    returns (root: Digest, found: seq<Digest>)
    requires 0 < |vTxid| == |vMatch| && |vTxid| <= MAX_BLOCK_SIZE / 60
    ensures root == Root(hash, vTxid) && found == Matched(vTxid, vMatch, 0, |vTxid|)
  {
    hide Pow2, TreeWidth, Extracted, Built, CalcHash, Matched, Padded;
    var tree := new CPartialMerkleTree(hash, vTxid, vMatch);
    var received := tree.Relay();
    PartialTreeRoundTrip(hash, vTxid, vMatch, received.vBits);
    root, found := received.ExtractMatches();
  }
}
