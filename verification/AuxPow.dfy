/**
 * CAuxPow: proof that a block's hash is committed to in the coinbase of a parent block of another
 * chain. Digests are 32 bytes, lowest first; hashing two of them is a function given from outside.
 */
module AuxPow {
  import opened Options
  import opened RawBytes
  import opened Powers
  import opened Collisions
  import MerkleTree

  type Digest = d: seq<Byte> | |d| == 32
    witness [0, 0, 0, 0, 0, 0, 0, 0, 0, 0, 0, 0, 0, 0, 0, 0, 0, 0, 0, 0, 0, 0, 0, 0, 0, 0, 0, 0, 0, 0, 0, 0]

  type Hash = (Digest, Digest) -> Digest

  const MAGIC: seq<Byte> := [0xfa, 0xbe, 0x6d, 0x6d]  // pchMergedMiningHeader

  const TWO32: nat := 0x1_0000_0000

  lemma {:induction false} Pow2Injective(a: nat, b: nat)
    requires Pow2(a) == Pow2(b)
    ensures a == b
  {
    if a > 0 && b > 0 {
      Pow2Injective(a - 1, b - 1);
    }
  }

  function Reversed(s: seq<Byte>): (r: seq<Byte>)
    ensures |r| == |s| && forall i | 0 <= i < |s| :: r[i] == s[|s| - 1 - i]
  {
    seq(|s|, i requires 0 <= i < |s| => s[|s| - 1 - i])
  }

  // ---------- Merkle branches ----------

  /** The root a branch leads to. A negative index shifts as a two's complement number does. */
  function Climb(hash: Hash, d: Digest, branch: seq<Digest>, nIndex: int): Digest
    decreases |branch|
  {
    if branch == [] then d
    else Climb(hash, if nIndex % 2 == 1 then hash(branch[0], d) else hash(d, branch[0]), branch[1..], nIndex / 2)
  }

  const ZERO: Digest := [0, 0, 0, 0, 0, 0, 0, 0, 0, 0, 0, 0, 0, 0, 0, 0, 0, 0, 0, 0, 0, 0, 0, 0, 0, 0, 0, 0, 0, 0, 0, 0]

  function BranchRoot(hash: Hash, d: Digest, branch: seq<Digest>, nIndex: int): Digest {
    if nIndex == -1 then ZERO else Climb(hash, d, branch, nIndex)
  }

  lemma {:induction false} ClimbsAlike(hash: Hash, d: Digest, branch: seq<Digest>, i: nat)
    ensures Climb(hash, d, branch, i) == MerkleTree.Climb(hash, d, branch, i)
    decreases |branch|
  {
    if branch != [] {
      ClimbsAlike(hash, if i % 2 == 1 then hash(branch[0], d) else hash(d, branch[0]), branch[1..], i / 2);
    }
  }

  method CheckMerkleBranch(hash: Hash, d: Digest, vMerkleBranch: seq<Digest>, nIndex: int) returns (root: Digest)
    ensures root == BranchRoot(hash, d, vMerkleBranch, nIndex)
    ensures nIndex == -1 ==> root == ZERO
    ensures nIndex >= 0 ==> root == MerkleTree.Climb(hash, d, vMerkleBranch, nIndex)
  {
    if nIndex >= 0 {
      ClimbsAlike(hash, d, vMerkleBranch, nIndex);
    }
    if nIndex == -1 {
      return ZERO;
    }
    root := d;
    var index := nIndex;
    for i := 0 to |vMerkleBranch|
      invariant Climb(hash, root, vMerkleBranch[i..], index) == Climb(hash, d, vMerkleBranch, nIndex)
    {
      assert vMerkleBranch[i..][1..] == vMerkleBranch[i + 1..];
      root := if index % 2 == 1 then hash(vMerkleBranch[i], root) else hash(root, vMerkleBranch[i]);
      index := index / 2;
    }
  }

  /** The two digests that are hashed when a branch is climbed by one step. */
  function Joined(d: Digest, sibling: Digest, nIndex: int): (Digest, Digest) {
    if nIndex % 2 == 1 then (sibling, d) else (d, sibling)
  }

  /** All pairs that are hashed on the way up. */
  ghost function Hashed(hash: Hash, d: Digest, branch: seq<Digest>, nIndex: int): set<(Digest, Digest)>
    decreases |branch|
  {
    if branch == [] then {}
    else
      var pair := Joined(d, branch[0], nIndex);
      {pair} + Hashed(hash, hash(pair.0, pair.1), branch[1..], nIndex / 2)
  }

  /**
   * Branches of one length and index that lead to one root start from one leaf, or else two
   * different pairs hashed on the way up have the same hash.
   */
  lemma {:induction false} OneLeaf(hash: Hash, d: Digest, e: Digest, v: seq<Digest>, w: seq<Digest>, nIndex: int)
    requires |v| == |w| && Climb(hash, d, v, nIndex) == Climb(hash, e, w, nIndex)
    ensures (d == e && v == w) || Collide(hash, Hashed(hash, d, v, nIndex), Hashed(hash, e, w, nIndex))
    decreases |v|
  {
    hide Collide;
    if v != [] {
      var x, y := Joined(d, v[0], nIndex), Joined(e, w[0], nIndex);
      var d', e' := hash(x.0, x.1), hash(y.0, y.1);
      OneLeaf(hash, d', e', v[1..], w[1..], nIndex / 2);
      if Collide(hash, Hashed(hash, d', v[1..], nIndex / 2), Hashed(hash, e', w[1..], nIndex / 2)) {
        CollideInMore(hash, Hashed(hash, d', v[1..], nIndex / 2), Hashed(hash, e', w[1..], nIndex / 2),
                      Hashed(hash, d, v, nIndex), Hashed(hash, e, w, nIndex));
      } else if x == y {
        assert v == [v[0]] + v[1..] && w == [w[0]] + w[1..];
      } else {
        CollideHere(hash, Hashed(hash, d, v, nIndex), Hashed(hash, e, w, nIndex), x, y);
      }
    }
  }

  // ---------- the coinbase script ----------

  predicate Occurs(script: seq<Byte>, pattern: seq<Byte>, i: nat) {
    i + |pattern| <= |script| && script[i..i + |pattern|] == pattern
  }

  /** i is where the pattern occurs first from `from` on, or the end of the script if nowhere. */
  ghost predicate FoundFirst(script: seq<Byte>, pattern: seq<Byte>, from: nat, i: nat) {
    && from <= i <= |script|
    && (i < |script| ==> Occurs(script, pattern, i))
    && forall k | from <= k < i :: !Occurs(script, pattern, k)
  }

  /** std::search */
  method Search(script: seq<Byte>, pattern: seq<Byte>, from: nat) returns (i: nat)
    requires from <= |script| && |pattern| > 0
    ensures FoundFirst(script, pattern, from, i)
  {
    i := from;
    while i < |script| && !Occurs(script, pattern, i)
      invariant from <= i <= |script| && forall k | from <= k < i :: !Occurs(script, pattern, k)
    {
      i := i + 1;
    }
  }

  function ReadLE32(s: seq<Byte>, i: nat): (r: nat)
    requires i + 4 <= |s|
  {
    var b0: nat, b1: nat, b2: nat, b3: nat := s[i], s[i + 1], s[i + 2], s[i + 3];
    b0 + 256 * b1 + 65536 * b2 + 16777216 * b3
  }

  function ExpectedIndex(nNonce: nat, nChainId: int, h: nat): nat {
    var rand := (nNonce * 1103515245 + 12345) % TWO32;
    ((((rand + nChainId) % TWO32) * 1103515245 + 12345) % TWO32) % Pow2(h)
  }

  method GetExpectedIndex(nNonce: nat, nChainId: int, h: nat) returns (r: nat)
    ensures r == ExpectedIndex(nNonce, nChainId, h)
  {
    var rand := nNonce;
    rand := (rand * 1103515245 + 12345) % TWO32;
    rand := (rand + nChainId) % TWO32;
    rand := (rand * 1103515245 + 12345) % TWO32;
    r := rand % Pow2(h);
  }

  /** The multiplier of the generator. */
  const MULTIPLIER: nat := 1103515245

  /** For the heights check allows, the 32-bit overflows make no difference, as the source says. */
  lemma {:induction false} SlotWithoutOverflow(nNonce: nat, nChainId: int, h: nat)
    requires h <= 30
    ensures ExpectedIndex(nNonce, nChainId, h) ==
            (MULTIPLIER * (MULTIPLIER * nNonce + 12345 + nChainId) + 12345) % Pow2(h)
  {
    hide Pow2;
    var x := nNonce * MULTIPLIER + 12345;
    var y := x % TWO32 + nChainId;
    Pow2Of32();
    RemainderTwice((y % TWO32) * MULTIPLIER + 12345, h, 32);
    assert ExpectedIndex(nNonce, nChainId, h) == ((y % TWO32) * MULTIPLIER + 12345) % Pow2(h);
    WrapIsFree(y, h);
    SeedWrapIsFree(x, nChainId, h);
  }

  lemma {:induction false} Pow2Of32()
    ensures Pow2(32) == TWO32
  {
    assert Pow2(8) == 256;
    assert Pow2(16) == 65536 by {
      Pow2Sum(8, 8);
    }
    Pow2Sum(16, 16);
  }

  /** A multiple of 2^32 more or less does not change the slot. */
  lemma {:induction false} WrapIsFree(y: int, h: nat)
    requires h <= 30
    ensures ((y % TWO32) * MULTIPLIER + 12345) % Pow2(h) == (y * MULTIPLIER + 12345) % Pow2(h)
  {
    var q := y / TWO32;
    assert y == q * TWO32 + y % TWO32;
    ManyWraps(-q * MULTIPLIER, h);
    SameRemainder((y % TWO32) * MULTIPLIER + 12345, y * MULTIPLIER + 12345, Pow2(h));
  }

  lemma {:induction false} SeedWrapIsFree(x: nat, nChainId: int, h: nat)
    requires h <= 30
    ensures ((x % TWO32 + nChainId) * MULTIPLIER + 12345) % Pow2(h) == ((x + nChainId) * MULTIPLIER + 12345) % Pow2(h)
  {
    var q := x / TWO32;
    assert x == q * TWO32 + x % TWO32;
    ManyWraps(-q * MULTIPLIER, h);
    SameRemainder((x % TWO32 + nChainId) * MULTIPLIER + 12345, (x + nChainId) * MULTIPLIER + 12345, Pow2(h));
  }

  lemma {:induction false} ManyWraps(k: int, h: nat)
    requires h <= 30
    ensures k * TWO32 % Pow2(h) == 0
  {
    hide Pow2;
    Pow2Of32();
    Pow2Sum(32 - h, h);
    Associate(k, Pow2(32 - h), Pow2(h));
    MultipleOf(k * Pow2(32 - h), Pow2(h));
  }

  lemma {:induction false} Associate(a: int, b: int, c: int)
    ensures a * (b * c) == a * b * c
  {}

  /**
   * For a given nonce and height two chains have the same slot exactly if their numbers are the same
   * in the lowest h bits: the multiplier is odd, so nothing else can collide.
   */
  lemma {:induction false} SlotsCollideExactly(nNonce: nat, a: int, b: int, h: nat)
    requires h <= 30
    ensures ExpectedIndex(nNonce, a, h) == ExpectedIndex(nNonce, b, h) <==> a % Pow2(h) == b % Pow2(h)
  {
    hide Pow2, ExpectedIndex;
    var c := MULTIPLIER * nNonce + 12345;
    SlotWithoutOverflow(nNonce, a, h);
    SlotWithoutOverflow(nNonce, b, h);
    SameRemainder(MULTIPLIER * (c + a) + 12345, MULTIPLIER * (c + b) + 12345, Pow2(h));
    assert MULTIPLIER * (c + a) + 12345 - (MULTIPLIER * (c + b) + 12345) == MULTIPLIER * (a - b);
    OddCancels(MULTIPLIER, a - b, h);
    SameRemainder(a, b, Pow2(h));
  }

  // ---------- check ----------

  /** The coinbase counts by its hash and by the script of its first input, if it has one. */
  datatype AuxPow = AuxPow(txHash: Digest, scriptSig: Option<seq<Byte>>, vMerkleBranch: seq<Digest>, nIndex: int,
                           vChainMerkleBranch: seq<Digest>, nChainIndex: int, parentChainId: int,
                           parentMerkleRoot: Digest)

  ghost function ChainRoot(hash: Hash, p: AuxPow, block: Digest): seq<Byte> {
    Reversed(BranchRoot(hash, block, p.vChainMerkleBranch, p.nChainIndex))
  }

  /** The script has the root at pc, placed as it must be; pc is its first occurrence. */
  ghost predicate RootPlaced(script: seq<Byte>, root: seq<Byte>, pc: nat) {
    && Occurs(script, root, pc) && (forall k | 0 <= k < pc :: !Occurs(script, root, k))
    && if exists k :: 0 <= k < |script| && Occurs(script, MAGIC, k)
       then pc >= 4 && Occurs(script, MAGIC, pc - 4)
         && forall k | 0 <= k < |script| && k != pc - 4 :: !Occurs(script, MAGIC, k)
       else pc <= 20
  }

  /** Behind the root: the size of the chain Merkle tree and a nonce that fixes the slot. */
  ghost predicate SizeAndSlot(script: seq<Byte>, pc: nat, nChainId: int, height: nat, nChainIndex: int) {
    && pc + 40 <= |script|
    && ReadLE32(script, pc + 32) == Pow2(height)
    && nChainIndex == ExpectedIndex(ReadLE32(script, pc + 36), nChainId, height)
  }

  /** What check demands. */
  ghost predicate Passes(hash: Hash, p: AuxPow, block: Digest, nChainId: int) {
    && p.nIndex == 0 && p.parentChainId != nChainId && |p.vChainMerkleBranch| <= 30
    && BranchRoot(hash, p.txHash, p.vMerkleBranch, p.nIndex) == p.parentMerkleRoot
    && p.scriptSig.Some?
    && exists pc: nat :: RootPlaced(p.scriptSig.value, ChainRoot(hash, p, block), pc) &&
                         SizeAndSlot(p.scriptSig.value, pc, nChainId, |p.vChainMerkleBranch|, p.nChainIndex)
  }

  method Check(hash: Hash, p: AuxPow, hashAuxBlock: Digest, nChainId: int) returns (ok: bool)
    ensures ok <==> Passes(hash, p, hashAuxBlock, nChainId)
    ensures ok ==> p.nIndex == 0 && p.parentChainId != nChainId && |p.vChainMerkleBranch| <= 30 && p.scriptSig.Some?
    ensures ok ==> MerkleTree.Climb(hash, p.txHash, p.vMerkleBranch, 0) == p.parentMerkleRoot
  {
    hide RootPlaced, SizeAndSlot, Occurs, ReadLE32, ExpectedIndex, Reversed, FoundFirst;
    ok := false;
    if p.nIndex != 0 || p.parentChainId == nChainId || |p.vChainMerkleBranch| > 30 {
      return;
    }
    var nRootHash := CheckMerkleBranch(hash, hashAuxBlock, p.vChainMerkleBranch, p.nChainIndex);
    var vchRootHash := Reversed(nRootHash);
    var txRoot := CheckMerkleBranch(hash, p.txHash, p.vMerkleBranch, p.nIndex);
    if txRoot != p.parentMerkleRoot || p.scriptSig.None? {
      return;
    }
    var pc, placed := CheckPlace(p.scriptSig.value, vchRootHash);
    if placed {
      ok := CheckSizeAndSlot(p.scriptSig.value, pc, nChainId, |p.vChainMerkleBranch|, p.nChainIndex);
      OnePlace(p.scriptSig.value, vchRootHash, pc);
    }
  }

  /** The part of check that finds the root in the script. */
  method CheckPlace(script: seq<Byte>, root: seq<Byte>) returns (pc: nat, ok: bool)
    requires |root| == 32
    ensures if ok then RootPlaced(script, root, pc) else forall k: nat :: !RootPlaced(script, root, k)
  {
    var pcHead := Search(script, MAGIC, 0);
    pc := Search(script, root, 0);
    ok := pc != |script|;
    if ok && pcHead != |script| {
      var again := Search(script, MAGIC, pcHead + 1);
      ok := again == |script| && pcHead + |MAGIC| == pc;
    } else if ok {
      ok := pc <= 20;
    }
    FirstPlace(script, root, pcHead, pc);
  }

  lemma {:induction false} FirstPlace(script: seq<Byte>, root: seq<Byte>, pcHead: nat, pc: nat)
    requires |root| == 32 && FoundFirst(script, MAGIC, 0, pcHead) && FoundFirst(script, root, 0, pc)
    ensures forall k: nat :: RootPlaced(script, root, k) ==> k == pc && pc < |script|
    ensures (exists k :: 0 <= k < |script| && Occurs(script, MAGIC, k)) <==> pcHead < |script|
    ensures pcHead < |script| && RootPlaced(script, root, pc) ==> pcHead + 4 == pc
  {
    forall k: nat | RootPlaced(script, root, k)
      ensures k == pc && pc < |script|
    {
      assert Occurs(script, root, k);
    }
  }

  lemma {:induction false} OnePlace(script: seq<Byte>, root: seq<Byte>, pc: nat)
    requires RootPlaced(script, root, pc)
    ensures forall k: nat :: RootPlaced(script, root, k) ==> k == pc
  {}

  method CheckSizeAndSlot(script: seq<Byte>, pc: nat, nChainId: int, height: nat, nChainIndex: int) returns (ok: bool)
    ensures ok == SizeAndSlot(script, pc, nChainId, height, nChainIndex)
  {
    var after := pc + 32;
    if |script| - after < 8 {
      return false;
    }
    var nSize := ReadLE32(script, after);
    if nSize != Pow2(height) {
      return false;
    }
    var nNonce := ReadLE32(script, after + 4);
    var index := GetExpectedIndex(nNonce, nChainId, height);
    ok := nChainIndex == index;
  }

  // ---------- one coinbase, one block ----------

  /** The magic fixes the place of the root. */
  lemma {:induction false} MagicFixesPlace(script: seq<Byte>, root: seq<Byte>, root': seq<Byte>, pc: nat, pc': nat,
                                           at: nat)
    requires |root| == |root'| == 32 && at < |script| && Occurs(script, MAGIC, at)
    requires RootPlaced(script, root, pc) && RootPlaced(script, root', pc')
    ensures pc == pc' && root == root'
  {
    assert pc - 4 == at && pc' - 4 == at;
  }

  /** The pairs that check hashes on the way from the block to the root in the coinbase. */
  ghost function ChainPairs(hash: Hash, p: AuxPow, block: Digest): set<(Digest, Digest)> {
    Hashed(hash, block, p.vChainMerkleBranch, p.nChainIndex)
  }

  /**
   * A parent coinbase that carries the merged-mining magic commits to at most one block of a
   * chain: two proofs with the same coinbase that pass for that chain are for the same block, by
   * the same branch, unless the two of them show a collision of the hash function.
   */
  lemma {:induction false} CoinbaseCommitsToOneBlock(hash: Hash, p: AuxPow, q: AuxPow, b: Digest, c: Digest,
                                                     nChainId: int, at: nat)
    requires Passes(hash, p, b, nChainId) && Passes(hash, q, c, nChainId)
    requires p.scriptSig == q.scriptSig && at < |p.scriptSig.value| && Occurs(p.scriptSig.value, MAGIC, at)
    ensures p.nChainIndex == q.nChainIndex && |p.vChainMerkleBranch| == |q.vChainMerkleBranch|
    ensures (b == c && p.vChainMerkleBranch == q.vChainMerkleBranch)
            || Collide(hash, ChainPairs(hash, p, b), ChainPairs(hash, q, c))
  {
    hide RootPlaced, Occurs, Reversed, ReadLE32, Pow2, ExpectedIndex, Collide, Hashed, Climb;
    var script := p.scriptSig.value;
    var pc: nat :| RootPlaced(script, ChainRoot(hash, p, b), pc)
        && SizeAndSlot(script, pc, nChainId, |p.vChainMerkleBranch|, p.nChainIndex);
    var pc': nat :| RootPlaced(script, ChainRoot(hash, q, c), pc')
        && SizeAndSlot(script, pc', nChainId, |q.vChainMerkleBranch|, q.nChainIndex);
    MagicFixesPlace(script, ChainRoot(hash, p, b), ChainRoot(hash, q, c), pc, pc', at);
    Pow2Injective(|p.vChainMerkleBranch|, |q.vChainMerkleBranch|);
    ReversedBack(BranchRoot(hash, b, p.vChainMerkleBranch, p.nChainIndex),
                 BranchRoot(hash, c, q.vChainMerkleBranch, q.nChainIndex));
    OneLeaf(hash, b, c, p.vChainMerkleBranch, q.vChainMerkleBranch, p.nChainIndex);
  }

  lemma {:induction false} ReversedBack(a: seq<Byte>, b: seq<Byte>)
    requires Reversed(a) == Reversed(b)
    ensures a == b
  {
    forall i | 0 <= i < |a|
      ensures a[i] == b[i]
    {
      assert Reversed(a)[|a| - 1 - i] == Reversed(b)[|a| - 1 - i];
    }
  }

  // ---------- what a miner makes passes ----------

  /** With one magic the root stands right behind it; without, it starts in the first 20 bytes. */
  lemma {:induction false} PlacedExactly(script: seq<Byte>, root: seq<Byte>, pc: nat)
    requires |root| == 32 && Occurs(script, root, pc) && forall k | 0 <= k < pc :: !Occurs(script, root, k)
    ensures (forall k: nat :: !Occurs(script, MAGIC, k)) ==> (RootPlaced(script, root, pc) <==> pc <= 20)
    ensures forall m: nat | Occurs(script, MAGIC, m) ::
              RootPlaced(script, root, pc) <==> pc == m + 4 && forall k: nat | k != m :: !Occurs(script, MAGIC, k)
  {
    hide Occurs;
    forall k: nat | Occurs(script, MAGIC, k)
      ensures k < |script|
    {
      OccursInside(script, k);
    }
  }

  lemma {:induction false} OccursInside(script: seq<Byte>, k: nat)
    requires Occurs(script, MAGIC, k)
    ensures k < |script|
  {}

  /** A number as four bytes, lowest first. */
  function LE32(n: nat): (s: seq<Byte>)
    requires n < TWO32
    ensures |s| == 4
  {
    [n % 256, n / 256 % 256, n / 65536 % 256, n / 16777216]
  }

  lemma {:induction false} LE32IsRead(script: seq<Byte>, i: nat, n: nat)
    requires n < TWO32 && i + 4 <= |script| && script[i..i + 4] == LE32(n)
    ensures ReadLE32(script, i) == n
  {
    var s := script[i..i + 4];
    assert s[0] == script[i] && s[1] == script[i + 1] && s[2] == script[i + 2] && s[3] == script[i + 3];
    FourBytes(n);
  }

  lemma {:induction false} FourBytes(n: nat)
    ensures n % 256 + 256 * (n / 256 % 256) + 65536 * (n / 65536 % 256) + 16777216 * (n / 16777216) == n
  {
    assert n / 65536 == n / 256 / 256 && n / 16777216 == n / 65536 / 256;
  }

  /** What a miner of several chains puts into the coinbase behind the magic. */
  function Commitment(root: Digest, size: nat, nNonce: nat): seq<Byte>
    requires size < TWO32 && nNonce < TWO32
  {
    MAGIC + Reversed(root) + LE32(size) + LE32(nNonce)
  }

  /**
   * The proof a miner makes for one of its chains: the branch of the chain's slot in the tree of the
   * chains, and the branch of the coinbase in the parent block.
   */
  ghost function Proof(hash: Hash, chains: seq<Digest>, slot: nat, vtx: seq<Digest>, script: seq<Byte>,
                       parentChainId: int): AuxPow
    requires vtx != []
  {
    AuxPow(vtx[0], Some(script), MerkleTree.Branch(hash, vtx, 0), 0, MerkleTree.Branch(hash, chains, slot), slot,
           parentChainId, MerkleTree.Root(hash, vtx, ZERO))
  }

  lemma {:induction false} HeightOfPow2(h: nat)
    ensures MerkleTree.HeightOf(Pow2(h)) == h
  {
    if h > 0 {
      HeightOfPow2(h - 1);
    }
  }

  /**
   * Merged mining works: with the block in the slot of its chain, and the root of the tree of chains
   * in the coinbase behind a magic that occurs only there, the proof passes.
   */
  lemma {:induction false} MinedPasses(hash: Hash, chains: seq<Digest>, h: nat, nNonce: nat, nChainId: int,
                                       parentChainId: int, vtx: seq<Digest>, before: seq<Byte>, behind: seq<Byte>)
    requires h <= 30 && |chains| == Pow2(h) && Pow2(h) < TWO32 && nNonce < TWO32 && parentChainId != nChainId
             && vtx != []
    requires var root := MerkleTree.Root(hash, chains, ZERO);
             var script := before + Commitment(root, Pow2(h), nNonce) + behind;
             && (forall k: nat | Occurs(script, MAGIC, k) :: k == |before|)
             && (forall k: nat | k < |before| + 4 :: !Occurs(script, Reversed(root), k))
    ensures var root := MerkleTree.Root(hash, chains, ZERO);
            var script := before + Commitment(root, Pow2(h), nNonce) + behind;
            var slot := (MULTIPLIER * (MULTIPLIER * nNonce + 12345 + nChainId) + 12345) % Pow2(h);
            Passes(hash, Proof(hash, chains, slot, vtx, script, parentChainId), chains[slot], nChainId)
  {
    hide Pow2, Reversed, Occurs, RootPlaced, ReadLE32, ExpectedIndex, MerkleTree.Root, MerkleTree.Branch, LE32, Climb;
    hide MerkleTree.Climb;
    var root := MerkleTree.Root(hash, chains, ZERO);
    var script := before + Commitment(root, Pow2(h), nNonce) + behind;
    var slot := (MULTIPLIER * (MULTIPLIER * nNonce + 12345 + nChainId) + 12345) % Pow2(h);
    var p := Proof(hash, chains, slot, vtx, script, parentChainId);
    var pc := |before| + 4;
    MerkleTree.BranchLeadsToRoot(hash, chains, slot, ZERO);
    MerkleTree.BranchLeadsToRoot(hash, vtx, 0, ZERO);
    ClimbsAlike(hash, chains[slot], p.vChainMerkleBranch, slot);
    ClimbsAlike(hash, vtx[0], p.vMerkleBranch, 0);
    HeightOfPow2(h);
    assert ChainRoot(hash, p, chains[slot]) == Reversed(root);
    CommitmentParts(before, root, Pow2(h), nNonce, behind);
    PlacedExactly(script, Reversed(root), pc);
    LE32IsRead(script, pc + 32, Pow2(h));
    LE32IsRead(script, pc + 36, nNonce);
    SlotWithoutOverflow(nNonce, nChainId, h);
  }

  lemma {:induction false} CommitmentParts(before: seq<Byte>, root: Digest, size: nat, nNonce: nat, behind: seq<Byte>)
    requires size < TWO32 && nNonce < TWO32
    ensures var script, pc := before + Commitment(root, size, nNonce) + behind, |before| + 4;
            && Occurs(script, MAGIC, |before|) && Occurs(script, Reversed(root), pc) && pc + 40 <= |script|
            && script[pc + 32..pc + 36] == LE32(size) && script[pc + 36..pc + 40] == LE32(nNonce)
  {
    hide Reversed, LE32;
    var c := Commitment(root, size, nNonce);
    var script, pc := before + c + behind, |before| + 4;
    assert c[..4] == MAGIC && c[4..36] == Reversed(root) && c[36..40] == LE32(size) && c[40..44] == LE32(nNonce);
    assert script[|before|..|before| + 4] == c[..4];
    assert script[pc..pc + 32] == c[4..36];
    assert script[pc + 32..pc + 36] == c[36..40];
    assert script[pc + 36..pc + 40] == c[40..44];
  }

  // ---------- initAuxPow ----------

  /** One push of 40 bytes: the reversed hash, tree size 1 and nonce 0. */
  function InitScript(block: Digest): seq<Byte> {
    [40] + Reversed(block) + [1, 0, 0, 0, 0, 0, 0, 0]
  }

  /** A fake parent block, version 1 and so of chain 0, with that coinbase alone. */
  method InitAuxPow(block: Digest, coinbaseHash: Digest) returns (p: AuxPow)
    ensures p == AuxPow(coinbaseHash, Some(InitScript(block)), [], 0, [], 0, 0, coinbaseHash)
  {
    var inputData := Reversed(block);
    inputData := inputData + [1];
    inputData := inputData + [0, 0, 0, 0, 0, 0, 0];
    var script: seq<Byte> := [|inputData|] + inputData;
    assert script == InitScript(block);
    p := AuxPow(coinbaseHash, Some(script), [], 0, [], 0, 0, coinbaseHash);
  }

  /** Does the magic occur in the hash as the script has it? */
  ghost predicate HasMagic(block: Digest) {
    exists i :: 0 <= i < 32 && Occurs(Reversed(block), MAGIC, i)
  }

  ghost predicate AllForty(block: Digest) {
    forall i | 0 <= i < 32 :: block[i] == 40
  }

  /**
   * The header promises that what initAuxPow builds passes check. It does so exactly when the
   * chain is not chain 0, the hash does not happen to contain the magic, and the hash is not
   * made of the push opcode only (in which case it would be found one byte early).
   */
  lemma {:induction false} InitPassesExactly(hash: Hash, block: Digest, coinbaseHash: Digest, nChainId: int)
    ensures var p := AuxPow(coinbaseHash, Some(InitScript(block)), [], 0, [], 0, 0, coinbaseHash);
            Passes(hash, p, block, nChainId) <==> nChainId != 0 && !HasMagic(block) && !AllForty(block)
  {
    hide RootPlaced, SizeAndSlot, HasMagic, AllForty, Occurs;
    var p := AuxPow(coinbaseHash, Some(InitScript(block)), [], 0, [], 0, 0, coinbaseHash);
    assert ChainRoot(hash, p, block) == Reversed(block);
    InitPlace(block);
    InitSlot(block, nChainId);
  }

  lemma {:induction false} InitPlace(block: Digest)
    ensures forall pc: nat ::
            RootPlaced(InitScript(block), Reversed(block), pc) && pc == 1
            <==> pc == 1 && !HasMagic(block) && !AllForty(block)
    ensures forall pc: nat :: RootPlaced(InitScript(block), Reversed(block), pc) ==> pc <= 1
  {
    hide RootPlaced;
    InitMagic(block);
    InitRoot(block);
    InitPlaced(block);
  }

  /** The magic is in the script exactly when it is in the hash, and then behind the opcode. */
  lemma {:induction false} InitMagic(block: Digest)
    ensures forall k: nat :: Occurs(InitScript(block), MAGIC, k) <==> k > 0 && Occurs(Reversed(block), MAGIC, k - 1)
    ensures forall k: nat :: Occurs(Reversed(block), MAGIC, k) ==> k < 32
  {
    var script, root := InitScript(block), Reversed(block);
    forall k: nat
      ensures Occurs(script, MAGIC, k) <==> k > 0 && Occurs(root, MAGIC, k - 1)
    {
      MagicAt(script, k);
      if k > 0 {
        MagicAt(root, k - 1);
      }
    }
  }

  lemma {:induction false} MagicAt(s: seq<Byte>, k: nat)
    ensures Occurs(s, MAGIC, k)
            <==> k + 4 <= |s| && s[k] == 0xfa && s[k + 1] == 0xbe && s[k + 2] == 0x6d && s[k + 3] == 0x6d
  {
    if k + 4 <= |s| {
      assert s[k..k + 4] == [s[k], s[k + 1], s[k + 2], s[k + 3]];
    }
  }

  /** The root is at 1, and at 0 exactly when all its bytes equal the opcode; never later. */
  lemma {:induction false} InitRoot(block: Digest)
    ensures Occurs(InitScript(block), Reversed(block), 1)
    ensures Occurs(InitScript(block), Reversed(block), 0) <==> AllForty(block)
  {
    var script, root := InitScript(block), Reversed(block);
    assert script[1..33] == root;
    if Occurs(script, root, 0) {
      forall i | 0 <= i < 32
        ensures root[i] == 40
      {
        Forty(script, root, i);
      }
      forall i | 0 <= i < 32
        ensures block[i] == 40
      {
        assert root[31 - i] == block[i];
      }
    }
    if AllForty(block) {
      assert script[0..32] == root;
    }
  }

  lemma {:induction false} Forty(script: seq<Byte>, root: seq<Byte>, i: nat)
    requires |root| == 32 && Occurs(script, root, 0) && |script| > 33 && script[0] == 40 && script[1..33] == root
             && i < 32
    ensures root[i] == 40
  {
    assert root[i] == script[0..32][i] == script[i];
    if i > 0 {
      Forty(script, root, i - 1);
      assert script[i] == script[1..33][i - 1];
    }
  }

  lemma {:induction false} InitPlaced(block: Digest)
    requires forall k: nat :: Occurs(InitScript(block), MAGIC, k) <==> k > 0 && Occurs(Reversed(block), MAGIC, k - 1)
    requires forall k: nat :: Occurs(Reversed(block), MAGIC, k) ==> k < 32
    requires Occurs(InitScript(block), Reversed(block), 1)
    requires Occurs(InitScript(block), Reversed(block), 0) <==> AllForty(block)
    ensures forall pc: nat :: RootPlaced(InitScript(block), Reversed(block), pc) ==> pc <= 1
    ensures RootPlaced(InitScript(block), Reversed(block), 1) <==> !HasMagic(block) && !AllForty(block)
  {
    hide Occurs, AllForty;
    var script, root := InitScript(block), Reversed(block);
    if HasMagic(block) {
      var i :| 0 <= i < 32 && Occurs(root, MAGIC, i);
      assert Occurs(script, MAGIC, i + 1);
    }
  }

  /** Behind the root at 1 there are size 1 and nonce 0; at 0 they would be out of place. */
  lemma {:induction false} InitSlot(block: Digest, nChainId: int)
    ensures SizeAndSlot(InitScript(block), 1, nChainId, 0, 0)
    ensures AllForty(block) || !RootPlaced(InitScript(block), Reversed(block), 0)
    ensures !SizeAndSlot(InitScript(block), 0, nChainId, 0, 0)
  {
    var script := InitScript(block);
    assert script[33..] == [1, 0, 0, 0, 0, 0, 0, 0];
    InitRoot(block);
    assert script[32] == script[1..33][31];
  }

  const FORTIES: Digest :=
    [40, 40, 40, 40, 40, 40, 40, 40, 40, 40, 40, 40, 40, 40, 40, 40,
     40, 40, 40, 40, 40, 40, 40, 40, 40, 40, 40, 40, 40, 40, 40, 40]

  /** A hash of push opcodes only: what initAuxPow builds for it passes for no chain. */
  lemma {:induction false} InitCanFail(hash: Hash, coinbaseHash: Digest, nChainId: int)
    ensures !Passes(hash, AuxPow(coinbaseHash, Some(InitScript(FORTIES)), [], 0, [], 0, 0, coinbaseHash), FORTIES,
                    nChainId)
  {
    InitPassesExactly(hash, FORTIES, coinbaseHash, nChainId);
    assert AllForty(FORTIES);
  }
}
