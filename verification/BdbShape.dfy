/**
 * Which wallet files can be read strictly, told in bytes: those with a tree of pages from the root down to
 * leaves of one level, no page in it twice, every item in order, and no key twice.
 */
module BdbShape {
  import opened Options
  import opened BdbPages
  import opened BdbTree
  import opened BdbRead
  import opened BdbBytes

  /** A page and the trees below it. */
  datatype PageTree = PageTree(pgno: nat, below: seq<PageTree>)

  /** This item of a leaf can be read: it lives, or it is deleted and fits on its page. */
  ghost predicate Readable(f: BDBFile, base: nat, entries: nat, i: nat)
    requires f.pagesize >= 512 && base + f.pagesize <= |f.buf|
  {
    && HasPlace(f, base, entries, i)
    && var at, end := Place(f, base, i), base + f.pagesize;
       Deleted(f, at, end) || exists data :: Live(f, at, end, data)
  }

  /** A leaf: type 5, level 1, readable items in pairs. */
  ghost predicate LeafAt(f: BDBFile, base: nat)
    requires f.pagesize >= 512 && base + f.pagesize <= |f.buf|
  {
    var entries := Word16(f, base + 20);
    f.buf[base + 25] == 5 && f.buf[base + 24] == 1 && entries % 2 == 0
      && forall i | 0 <= i < entries :: Readable(f, base, entries, i)
  }

  /** An internal page of this level above the leaves: type 3, and each item names the next of these pages. */
  ghost predicate InnerAt(f: BDBFile, base: nat, level: nat, below: seq<PageTree>)
    requires base + f.pagesize <= |f.buf| && f.pagesize >= 512
  {
    && f.buf[base + 25] == 3 && f.buf[base + 24] == level > 1 && |below| == Word16(f, base + 20)
    && forall i | 0 <= i < |below| :: ChildAt(f, base, |below|, i, below[i].pgno)
  }

  /** The pages of t have the levels they should have, and point to each other as t says. */
  ghost predicate IsTree(f: BDBFile, t: PageTree, level: nat)
    requires f.pagesize >= 512
    decreases t
  {
    var base := t.pgno * f.pagesize;
    && PageAt(f, t.pgno, base) && Word32(f, base + 8) == t.pgno
    && if level > 1 then
         InnerAt(f, base, level, t.below) && forall i | 0 <= i < |t.below| :: IsTree(f, t.below[i], level - 1)
       else level == 1 && LeafAt(f, base) && t.below == []
  }

  /** All pages of a tree, those above before those below. */
  ghost function PagesOf(t: PageTree): seq<nat>
    decreases t
  {
    [t.pgno] + PagesOfAll(t.below)
  }

  ghost function PagesOfAll(ts: seq<PageTree>): seq<nat>
    decreases ts
  {
    if ts == [] then [] else PagesOfAll(ts[..|ts| - 1]) + PagesOf(ts[|ts| - 1])
  }

  /** All records on these pages. */
  ghost function RecordsOn(f: BDBFile, pages: seq<nat>): seq<Record> {
    if pages == [] then [] else RecordsOn(f, pages[..|pages| - 1]) + PagePairs(f, pages[|pages| - 1])
  }

  lemma {:induction false} RecordsOnBoth(f: BDBFile, a: seq<nat>, b: seq<nat>)
    ensures RecordsOn(f, a + b) == RecordsOn(f, a) + RecordsOn(f, b)
  {
    hide PagePairs;
    if b == [] {
      assert a + b == a;
    } else {
      var n := |b| - 1;
      RecordsOnBoth(f, a, b[..n]);
      assert (a + b)[..|a + b| - 1] == a + b[..n];
    }
  }

  // ---------- what has the shape is read ----------

  lemma {:induction false} ReadableExactly(f: BDBFile, pgno: nat, h: PageHeader, base: nat, i: nat)
    requires f.pagesize >= 512 && PageAt(f, pgno, base)
    ensures LeafItem(f, pgno, h, i).Some? <==> Readable(f, base, h.entries, i)
  {
    hide LeafItem, Live, Deleted, Word16;
    var item := LeafItem(f, pgno, h, i);
    LeafItemBytes(f, pgno, h, i, base, []);
    if item.Some? {
      LeafItemBytes(f, pgno, h, i, base, item.value.data);
      assert item == Some(Item(item.value.deleted, item.value.data));
    }
    if Readable(f, base, h.entries, i) && !Deleted(f, Place(f, base, i), base + f.pagesize) {
      var data :| Live(f, Place(f, base, i), base + f.pagesize, data);
      LeafItemBytes(f, pgno, h, i, base, data);
    }
  }

  lemma {:induction false} ItemsExactly(f: BDBFile, pgno: nat, h: PageHeader, n: nat)
    ensures LeafItems(f, pgno, h, n).Some? <==> forall i | 0 <= i < n :: LeafItem(f, pgno, h, i).Some?
  {
    hide LeafItem;
    if n > 0 {
      ItemsExactly(f, pgno, h, n - 1);
    }
  }

  lemma {:induction false} LeafExactly(f: BDBFile, pgno: nat, h: PageHeader, base: nat)
    requires f.pagesize >= 512 && PageAt(f, pgno, base) && h.entries == Word16(f, base + 20)
    requires f.buf[base + 25] == 5 && f.buf[base + 24] == 1
    ensures LeafPairs(f, pgno, h).Some? <==> LeafAt(f, base)
  {
    hide LeafItem, LeafItems, Readable, Word16, LivePairs;
    ItemsExactly(f, pgno, h, h.entries);
    forall i | 0 <= i < h.entries
      ensures LeafItem(f, pgno, h, i).Some? <==> Readable(f, base, h.entries, i)
    {
      ReadableExactly(f, pgno, h, base, i);
    }
  }

  lemma {:induction false} ChildrenExactly(f: BDBFile, pgno: nat, h: PageHeader, base: nat, n: nat, pages: seq<nat>)
    requires f.pagesize >= 512 && PageAt(f, pgno, base)
    ensures Children(f, pgno, h, n) == Some(pages) <==>
            |pages| == n && forall i | 0 <= i < n :: ChildAt(f, base, h.entries, i, pages[i])
  {
    hide Child, ChildAt;
    if n > 0 {
      var first := Children(f, pgno, h, n - 1);
      if |pages| == n {
        ChildrenExactly(f, pgno, h, base, n - 1, pages[..n - 1]);
        ChildBytes(f, pgno, h, n - 1, base, pages[n - 1]);
        assert pages == pages[..n - 1] + [pages[n - 1]];
      }
      ChildrenCount(f, pgno, h, n);
    }
  }

  lemma {:induction false} ChildrenCount(f: BDBFile, pgno: nat, h: PageHeader, n: nat)
    ensures Children(f, pgno, h, n).Some? ==> |Children(f, pgno, h, n).value| == n
  {
    hide Child;
    if n > 0 {
      ChildrenCount(f, pgno, h, n - 1);
    }
  }

  ghost function Roots(ts: seq<PageTree>): (r: seq<nat>)
    ensures |r| == |ts| && forall i | 0 <= i < |ts| :: r[i] == ts[i].pgno
  {
    seq(|ts|, i requires 0 <= i < |ts| => ts[i].pgno)
  }

  /** What reading a tree gives: its pages and the records on them. */
  ghost predicate ReadsAs(f: BDBFile, r: Option<Forest>, pages: seq<nat>) {
    r == Some(Forest(multiset(pages), multiset(RecordsOn(f, pages))))
  }

  lemma {:induction false} ReadsBoth(f: BDBFile, a: Option<Forest>, b: Option<Forest>, p: seq<nat>, q: seq<nat>)
    requires ReadsAs(f, a, p) && ReadsAs(f, b, q)
    ensures ReadsAs(f, Some(Both(a.value, b.value)), p + q)
  {
    hide RecordsOn;
    RecordsOnBoth(f, p, q);
  }

  lemma {:induction false} ShapeIsRead(f: BDBFile, t: PageTree, level: nat)
    requires f.pagesize >= 512 && IsTree(f, t, level)
    ensures ReadsAs(f, Subtree(f, t.pgno, level), PagesOf(t))
    decreases t
  {
    hide InnerAt, LeafAt, ReadsAs, Subtree, Subtrees;
    if level > 1 {
      ShapesAreRead(f, t.below, level - 1);
      InnerIsRead(f, t, level);
    } else {
      LeafIsRead(f, t.pgno);
      assert PagesOf(t) == [t.pgno];
    }
  }

  lemma {:induction false} LeafIsRead(f: BDBFile, pgno: nat)
    requires f.pagesize >= 512 && PageAt(f, pgno, pgno * f.pagesize) && Word32(f, pgno * f.pagesize + 8) == pgno
    requires LeafAt(f, pgno * f.pagesize)
    ensures ReadsAs(f, Subtree(f, pgno, 1), [pgno])
  {
    hide Readable, LeafPairs, BDBFile.ReadHeader, BDBFile.NumPages, Word16, Word32, RecordsOn;
    HeaderBytes(f, pgno, pgno * f.pagesize);
    LeafExactly(f, pgno, f.ReadHeader(pgno).value, pgno * f.pagesize);
    LeafIsScanned(f, pgno);
    PageAlone(f, pgno);
  }

  lemma {:induction false} InnerIsRead(f: BDBFile, t: PageTree, level: nat)
    requires f.pagesize >= 512 && PageAt(f, t.pgno, t.pgno * f.pagesize) && Word32(f, t.pgno * f.pagesize + 8) == t.pgno
    requires level > 1 && InnerAt(f, t.pgno * f.pagesize, level, t.below)
    requires ReadsAs(f, Subtrees(f, Roots(t.below), level - 1), PagesOfAll(t.below))
    ensures ReadsAs(f, Subtree(f, t.pgno, level), PagesOf(t))
  {
    hide ChildAt, Children, BDBFile.ReadHeader, BDBFile.NumPages, Word16, Word32, Subtrees, RecordsOn;
    var base := t.pgno * f.pagesize;
    HeaderBytes(f, t.pgno, base);
    var h := f.ReadHeader(t.pgno).value;
    ChildrenExactly(f, t.pgno, h, base, h.entries, Roots(t.below));
    InnerHasNone(f, t.pgno);
    PageAlone(f, t.pgno);
    var this_ := Some(Forest(multiset{t.pgno}, multiset{}));
    ReadsBoth(f, this_, Subtrees(f, Roots(t.below), level - 1), [t.pgno], PagesOfAll(t.below));
  }

  lemma {:induction false} ShapesAreRead(f: BDBFile, ts: seq<PageTree>, level: nat)
    requires f.pagesize >= 512 && forall i | 0 <= i < |ts| :: IsTree(f, ts[i], level)
    ensures ReadsAs(f, Subtrees(f, Roots(ts), level), PagesOfAll(ts))
    decreases ts
  {
    hide IsTree, Subtree;
    var n := |ts| - 1;
    if ts != [] {
      ShapesAreRead(f, ts[..n], level);
      ShapeIsRead(f, ts[n], level);
      assert Roots(ts)[..n] == Roots(ts[..n]);
      ReadsBoth(f, Subtrees(f, Roots(ts[..n]), level), Subtree(f, ts[n].pgno, level), PagesOfAll(ts[..n]),
                PagesOf(ts[n]));
    }
  }

  lemma {:induction false} PageAlone(f: BDBFile, pgno: nat)
    ensures RecordsOn(f, [pgno]) == PagePairs(f, pgno) && multiset([pgno]) == multiset{pgno}
  {
    hide PagePairs;
    assert [pgno][..0] == [];
  }

  lemma {:induction false} InnerHasNone(f: BDBFile, pgno: nat)
    requires f.ReadHeader(pgno).Some? && f.ReadHeader(pgno).value.kind == P_IBTREE
    ensures PagePairs(f, pgno) == []
  {}

  // ---------- what is read has the shape ----------

  lemma {:induction false} ReadHasShape(f: BDBFile, pgno: nat, level: nat) returns (t: PageTree)
    requires f.pagesize >= 512 && Subtree(f, pgno, level).Some?
    ensures t.pgno == pgno && IsTree(f, t, level)
    decreases level, 0
  {
    hide LeafAt, ChildAt, LeafPairs, Children, BDBFile.ReadHeader, BDBFile.NumPages, Word16, Word32, Subtrees;
    var base := pgno * f.pagesize;
    HeaderIsHere(f, pgno);
    PageIsThere(f, pgno);
    HeaderBytes(f, pgno, base);
    var h := f.ReadHeader(pgno).value;
    if level > 1 {
      var pages := Children(f, pgno, h, h.entries).value;
      ChildrenExactly(f, pgno, h, base, h.entries, pages);
      var below := ReadHaveShapes(f, pages, level - 1);
      t := PageTree(pgno, below);
    } else {
      LeafExactly(f, pgno, h, base);
      t := PageTree(pgno, []);
    }
  }

  lemma {:induction false} ReadHaveShapes(f: BDBFile, pages: seq<nat>, level: nat) returns (ts: seq<PageTree>)
    requires f.pagesize >= 512 && Subtrees(f, pages, level).Some?
    ensures |ts| == |pages| && forall i | 0 <= i < |ts| :: ts[i].pgno == pages[i] && IsTree(f, ts[i], level)
    decreases level, |pages|
  {
    hide IsTree, Subtree;
    ts := [];
    if pages != [] {
      var n := |pages| - 1;
      var first := ReadHaveShapes(f, pages[..n], level);
      var last := ReadHasShape(f, pages[n], level);
      ts := first + [last];
    }
  }

  // ---------- no key twice ----------

  ghost predicate KeysApart(a: seq<Record>, b: seq<Record>) {
    forall r, s | r in a && s in b :: r.key != s.key
  }

  lemma {:induction false} KeysSplit(a: seq<Record>, b: seq<Record>)
    ensures KeysDiffer(multiset(a + b)) <==> KeysDiffer(multiset(a)) && KeysDiffer(multiset(b)) && KeysApart(a, b)
  {
    var m, n := multiset(a), multiset(b);
    assert multiset(a + b) == m + n == n + m;
    if KeysDiffer(m + n) {
      if !KeysDiffer(m) {
        StaysDouble(m, n);
      }
      if !KeysDiffer(n) {
        StaysDouble(n, m);
      }
      forall r, s | r in a && s in b
        ensures r.key != s.key
      {
        assert r in m + n && s in m + n && (m + n)[r] == m[r] + n[r];
      }
    }
  }

  ghost predicate PairsOnce(f: BDBFile, pgno: nat, h: PageHeader, n: nat) {
    forall j: nat, k: nat, r, s |
      j < n && k < n && r in PairAt(f, pgno, h, j) && s in PairAt(f, pgno, h, k) && r.key == s.key :: j == k
  }

  /** No record of the first n pairs has the key of the next. */
  ghost predicate PairApart(f: BDBFile, pgno: nat, h: PageHeader, n: nat) {
    forall j: nat, r, s | j < n && r in PairAt(f, pgno, h, j) && s in PairAt(f, pgno, h, n) :: r.key != s.key
  }

  lemma {:induction false} PairsOnceSplit(f: BDBFile, pgno: nat, h: PageHeader, n: nat)
    ensures PairsOnce(f, pgno, h, n + 1) <==> PairsOnce(f, pgno, h, n) && PairApart(f, pgno, h, n)
  {
    hide PairAt;
  }

  lemma {:induction false} PairApartExactly(f: BDBFile, pgno: nat, h: PageHeader, n: nat)
    ensures PairApart(f, pgno, h, n) <==> KeysApart(PairsBelow(f, pgno, h, n), PairAt(f, pgno, h, n))
  {
    hide PairAt, PairsBelow;
    forall r
      ensures r in PairsBelow(f, pgno, h, n) <==> exists j: nat :: j < n && r in PairAt(f, pgno, h, j)
    {
      PairsBelowHas(f, pgno, h, n, r);
    }
  }

  lemma {:induction false} NoPairsOnce(f: BDBFile, pgno: nat, h: PageHeader)
    ensures PairsOnce(f, pgno, h, 0)
  {
    hide PairAt;
  }

  lemma {:induction false} PairsExactly(f: BDBFile, pgno: nat, h: PageHeader, n: nat)
    ensures KeysDiffer(multiset(PairsBelow(f, pgno, h, n))) <==> PairsOnce(f, pgno, h, n)
  {
    hide PairAt, KeysDiffer, PairApart, KeysApart, PairsOnce, LeafItem;
    NoneDiffer();
    NoPairsOnce(f, pgno, h);
    if n > 0 {
      PairsExactly(f, pgno, h, n - 1);
      PairsOnceSplit(f, pgno, h, n - 1);
      PairApartExactly(f, pgno, h, n - 1);
      KeysSplit(PairsBelow(f, pgno, h, n - 1), PairAt(f, pgno, h, n - 1));
      OneDiffers(f, pgno, h, n - 1);
    }
  }

  lemma {:induction false} NoneDiffer()
    ensures KeysDiffer(multiset([]))
  {}

  lemma {:induction false} OneDiffers(f: BDBFile, pgno: nat, h: PageHeader, i: nat)
    ensures KeysDiffer(multiset(PairAt(f, pgno, h, i)))
    ensures forall r, s | r in PairAt(f, pgno, h, i) && s in PairAt(f, pgno, h, i) :: r == s
  {
    hide LeafItem;
  }

  /** No two places on these pages hold records with the same key. */
  ghost predicate KeysOnce(f: BDBFile, pages: seq<nat>)
    requires f.pagesize >= 512
  {
    forall a, b, j: nat, k: nat, r, s |
      0 <= a < |pages| && 0 <= b < |pages| && RecordAt(f, pages[a], j, r) && RecordAt(f, pages[b], k, s)
        && r.key == s.key :: a == b && j == k
  }

  ghost predicate PageOnce(f: BDBFile, pgno: nat)
    requires f.pagesize >= 512
  {
    forall j: nat, k: nat, r, s |
      RecordAt(f, pgno, j, r) && RecordAt(f, pgno, k, s) && r.key == s.key :: j == k
  }

  lemma {:induction false} PageExactly(f: BDBFile, pgno: nat)
    requires f.pagesize >= 512
    ensures KeysDiffer(multiset(PagePairs(f, pgno))) <==> PageOnce(f, pgno)
  {
    hide BDBFile.ReadHeader, PairsBelow, PairAt, RecordAt, KeysDiffer;
    var h := f.ReadHeader(pgno);
    forall j: nat, r
      ensures RecordAt(f, pgno, j, r) <==>
              h.Some? && h.value.kind == P_LBTREE && h.value.level == LEAF_LEVEL && j < h.value.entries / 2
                && r in PairAt(f, pgno, h.value, j)
    {
      RecordIsPair(f, pgno, j, r);
    }
    NoneDiffer();
    if h.Some? {
      PairsExactly(f, pgno, h.value, h.value.entries / 2);
    }
  }

  lemma {:induction false} RecordsOnHas(f: BDBFile, pages: seq<nat>, r: Record)
    requires f.pagesize >= 512
    ensures r in RecordsOn(f, pages) <==> exists a, j: nat :: 0 <= a < |pages| && RecordAt(f, pages[a], j, r)
  {
    hide PagePairs, RecordAt;
    if pages != [] {
      var n := |pages| - 1;
      RecordsOnHas(f, pages[..n], r);
      PagePairsBytes(f, pages[n], r);
      assert forall a | 0 <= a < n :: pages[..n][a] == pages[a];
      assert r in RecordsOn(f, pages) <==> r in RecordsOn(f, pages[..n]) || r in PagePairs(f, pages[n]);
    }
  }

  ghost predicate Apart(f: BDBFile, pages: seq<nat>, n: nat)
    requires f.pagesize >= 512 && n < |pages|
  {
    forall a, j: nat, k: nat, r, s |
      0 <= a < n && RecordAt(f, pages[a], j, r) && RecordAt(f, pages[n], k, s) :: r.key != s.key
  }

  lemma {:induction false} KeysOnceSplit(f: BDBFile, pages: seq<nat>, n: nat)
    requires f.pagesize >= 512 && |pages| == n + 1
    ensures KeysOnce(f, pages) <==> KeysOnce(f, pages[..n]) && PageOnce(f, pages[n]) && Apart(f, pages, n)
  {
    hide RecordAt;
    assert forall a | 0 <= a < n :: pages[..n][a] == pages[a];
  }

  lemma {:induction false} ApartExactly(f: BDBFile, pages: seq<nat>, n: nat)
    requires f.pagesize >= 512 && |pages| == n + 1
    ensures Apart(f, pages, n) <==> KeysApart(RecordsOn(f, pages[..n]), PagePairs(f, pages[n]))
  {
    hide PagePairs, RecordAt, RecordsOn;
    forall r
      ensures r in RecordsOn(f, pages[..n]) <==> exists a, j: nat :: 0 <= a < n && RecordAt(f, pages[a], j, r)
      ensures r in PagePairs(f, pages[n]) <==> exists j: nat :: RecordAt(f, pages[n], j, r)
    {
      RecordsOnHas(f, pages[..n], r);
      PagePairsBytes(f, pages[n], r);
      assert forall a | 0 <= a < n :: pages[..n][a] == pages[a];
    }
  }

  lemma {:induction false} NoKeysOnce(f: BDBFile)
    requires f.pagesize >= 512
    ensures KeysOnce(f, [])
  {}

  lemma {:induction false} KeysExactly(f: BDBFile, pages: seq<nat>)
    requires f.pagesize >= 512
    ensures KeysDiffer(multiset(RecordsOn(f, pages))) <==> KeysOnce(f, pages)
  {
    hide PagePairs, RecordAt, KeysDiffer, Apart, PageOnce, KeysApart, KeysOnce;
    NoneDiffer();
    NoKeysOnce(f);
    if pages != [] {
      var n := |pages| - 1;
      KeysExactly(f, pages[..n]);
      PageExactly(f, pages[n]);
      KeysSplit(RecordsOn(f, pages[..n]), PagePairs(f, pages[n]));
      ApartExactly(f, pages, n);
      KeysOnceSplit(f, pages, n);
    }
  }

  // ---------- what a strict read needs ----------

  /** No page twice, and none of the outer database. */
  ghost predicate PagesOnce(pages: seq<nat>, outer: set<nat>) {
    (forall a, b | 0 <= a < b < |pages| :: pages[a] != pages[b]) && forall a | 0 <= a < |pages| :: pages[a] !in outer
  }

  lemma {:induction false} CountIs(pages: seq<nat>, a: nat)
    requires a < |pages|
    ensures multiset(pages)[pages[a]] == 1 <==> forall b | 0 <= b < |pages| && b != a :: pages[b] != pages[a]
  {
    var rest := pages[..a] + pages[a + 1..];
    assert pages == pages[..a] + [pages[a]] + pages[a + 1..];
    assert multiset(pages) == multiset(rest) + multiset{pages[a]};
    if pages[a] in rest {
      var k :| 0 <= k < |rest| && rest[k] == pages[a];
      assert pages[if k < a then k else k + 1] == pages[a];
    }
    forall b | 0 <= b < |pages| && b != a && pages[b] == pages[a]
      ensures pages[a] in rest
    {
      assert rest[if b < a then b else b - 1] == pages[a];
    }
  }

  lemma {:induction false} PagesExactly(pages: seq<nat>, outer: set<nat>)
    ensures (forall p | p in multiset(pages) :: multiset(pages)[p] == 1 && p !in outer) <==> PagesOnce(pages, outer)
  {
    forall a | 0 <= a < |pages|
      ensures pages[a] in multiset(pages)
      ensures multiset(pages)[pages[a]] == 1 <==> forall b | 0 <= b < |pages| && b != a :: pages[b] != pages[a]
    {
      CountIs(pages, a);
    }
  }

  /** This is the tree of the wallet, and nothing in it occurs twice. */
  ghost predicate Sound(w: Wallet, t: PageTree) {
    && w.f.pagesize >= 512 && t.pgno == w.root && (exists level: nat :: IsTree(w.f, t, level))
    && PagesOnce(PagesOf(t), w.outer) && KeysOnce(w.f, PagesOf(t))
  }

  lemma {:induction false} TreeIsSound(w: Wallet, t: PageTree, level: nat)
    requires w.f.pagesize >= 512 && t.pgno == w.root && IsTree(w.f, t, level)
    ensures ReadsAs(w.f, Tree(w.f, w.root), PagesOf(t)) && (Sound(w, t) <==> Proper(Tree(w.f, w.root).value, w.outer))
  {
    hide IsTree, Subtree, KeysDiffer, KeysOnce, PagesOnce, RecordsOn, PagesOf, BDBFile.ReadHeader, BDBFile.NumPages;
    LevelIsRead(w.f, t, level);
    ShapeIsRead(w.f, t, level);
    KeysExactly(w.f, PagesOf(t));
    PagesExactly(PagesOf(t), w.outer);
  }

  lemma {:induction false} LevelIsRead(f: BDBFile, t: PageTree, level: nat)
    requires f.pagesize >= 512 && IsTree(f, t, level)
    ensures f.ReadHeader(t.pgno).Some? && f.ReadHeader(t.pgno).value.level == level
  {
    hide BDBFile.ReadHeader, BDBFile.NumPages, Word16, Word32, Readable, ChildAt;
    HeaderBytes(f, t.pgno, t.pgno * f.pagesize);
  }

  /** A strict read of an opened wallet succeeds exactly if its pages form a sound tree. */
  lemma {:induction false} StrictReadExactly(buf: Bytes, w: Wallet)
    requires OpenWallet(buf) == Some(w)
    ensures AllRecords(buf).Some? <==> exists t :: Sound(w, t)
  {
    hide OpenWallet, Subtree, IsTree, Sound, Proper, ReadsAs, BDBFile.ReadHeader;
    var f := w.f;
    OpenedPages(buf, w);
    if AllRecords(buf).Some? {
      var t := ReadHasShape(f, w.root, f.ReadHeader(w.root).value.level);
      TreeIsSound(w, t, f.ReadHeader(w.root).value.level);
    }
    if t :| Sound(w, t) {
      var level := SoundIsTree(w, t);
      TreeIsSound(w, t, level);
      ReadsSome(f, Tree(f, w.root), PagesOf(t));
    }
  }

  lemma {:induction false} OpenedPages(buf: Bytes, w: Wallet)
    requires OpenWallet(buf) == Some(w)
    ensures w.f.buf == buf && w.f.pagesize >= 512
  {
    hide Open, MainSubdb, BDBFile.ReadMeta, BDBFile.NumPages;
    OpenBytes(buf);
  }

  lemma {:induction false} SoundIsTree(w: Wallet, t: PageTree) returns (level: nat)
    requires Sound(w, t)
    ensures w.f.pagesize >= 512 && t.pgno == w.root && IsTree(w.f, t, level)
  {
    level :| IsTree(w.f, t, level);
  }

  lemma {:induction false} ReadsSome(f: BDBFile, r: Option<Forest>, pages: seq<nat>)
    requires ReadsAs(f, r, pages)
    ensures r.Some?
  {}

  /**
   * What it returns: exactly the records whose bytes stand on a page of that tree, both halves live. A pair
   * with a type byte of 0x80 or more is not among them.
   */
  lemma {:induction false} WalletBytes(buf: Bytes, w: Wallet, t: PageTree, r: Record)
    requires OpenWallet(buf) == Some(w) && Sound(w, t)
    ensures w.f.buf == buf && AllRecords(buf).Some?
    ensures r in AllRecords(buf).value <==>
            exists a, j: nat :: 0 <= a < |PagesOf(t)| && RecordAt(w.f, PagesOf(t)[a], j, r)
  {
    hide OpenWallet, Subtree, IsTree, KeysOnce, PagesOnce, RecordsOn, PagesOf, RecordAt, BDBFile.ReadHeader;
    OpenedPages(buf, w);
    var level := SoundIsTree(w, t);
    TreeIsSound(w, t, level);
    RecordsOnHas(w.f, PagesOf(t), r);
  }
}
