/**
 * ReadAll and Salvage. The strict read checks the whole file first and then walks the tree; the
 * lenient one scans the pages without looking at the tree, and is proved to find at least the keys
 * of every part of the tree that can still be read.
 */
module BdbRead {
  import opened Options
  import opened BdbPages
  import opened BdbTree

  const MAIN: Bytes := [0x6d, 0x61, 0x69, 0x6e]

  predicate IsPagesize(n: nat) {
    n in {512, 1024, 2048, 4096, 8192, 16384, 32768, 65536}
  }

  /** The magic number as read little-endian. */
  function Magic(buf: Bytes): nat
    requires |buf| >= 512
  {
    Big32(buf[15], buf[14], buf[13], buf[12])
  }

  /** The file and its outer metadata page. */
  function Open(buf: Bytes): Option<(BDBFile, Meta)> {
    if |buf| < 512 || Magic(buf) !in {BTREE_MAGIC, BTREE_MAGIC_OE} then None
    else
      var otherEndian := Magic(buf) == BTREE_MAGIC_OE;
      var pagesize :- BDBFile(buf, otherEndian, 0).Get32(20);
      if !IsPagesize(pagesize) then None
      else
        var f := BDBFile(buf, otherEndian, pagesize);
        var meta :- f.ReadMeta(0);
        Some((f, meta))
  }

  // ---------- ReadAll ----------

  /** The metadata page of the subdatabase "main". */
  ghost function MainSubdb(f: BDBFile, outer: Meta): Option<nat> {
    var h :- f.ReadHeader(outer.root);
    if h.kind != P_LBTREE || h.entries != 2 then None
    else
      var pairs :- LeafPairs(f, outer.root, h);
      if |pairs| != 1 || pairs[0].key != MAIN || |pairs[0].value| != 4 then None
      else
        var v := pairs[0].value;
        Some(Big32(v[0], v[1], v[2], v[3]))
  }

  method FindMainSubdb(f: BDBFile, outer: Meta) returns (r: Option<nat>)
    ensures r == MainSubdb(f, outer)
  {
    hide LeafPairs;
    var h :- f.ReadHeader(outer.root);
    if h.kind != P_LBTREE {
      return None;
    }
    if h.entries != 2 {
      return None;
    }
    var pairs :- ReadLeafPairs(f, outer.root, h);
    if |pairs| != 1 || pairs[0].key != MAIN {
      return None;
    }
    if |pairs[0].value| != 4 {
      return None;
    }
    var v := pairs[0].value;
    r := Some(Big32(v[0], v[1], v[2], v[3]));
  }

  /** The page was written by a clean shutdown. */
  predicate Flushed(f: BDBFile, pgno: nat) {
    var base := f.PageOffset(pgno);
    base.Some? && f.Get32(base.value) == Some(0) && f.Get32(base.value + 4) == Some(1)
  }

  method AllFlushed(f: BDBFile, lastPgno: nat) returns (r: bool)
    ensures r <==> forall i: nat | i <= lastPgno :: Flushed(f, i)
  {
    hide Flushed;
    r := true;
    for i := 0 to lastPgno + 1
      invariant forall j: nat | j < i :: Flushed(f, j)
    {
      if !Flushed(f, i) {
        return false;
      }
    }
  }

  /** Where the tree of the wallet starts, and the pages that belong to the outer database. */
  datatype Wallet = Wallet(f: BDBFile, root: nat, outer: set<nat>)

  ghost function OpenWallet(buf: Bytes): Option<Wallet> {
    var file :- Open(buf);
    var f, outer := file.0, file.1;
    if outer.lastPgno != f.NumPages() - 1 || outer.flags != BTM_SUBDB
      || !(forall i: nat | i <= outer.lastPgno :: Flushed(f, i)) then None
    else
      var main :- MainSubdb(f, outer);
      if main > outer.lastPgno then None
      else
        var inner :- f.ReadMeta(main);
        Some(Wallet(f, inner.root, {0, main} + if outer.root != inner.root then {outer.root} else {}))
  }

  /** The flattening of the wallet's tree, if the file is sound. */
  ghost function AllRecords(buf: Bytes): Option<multiset<Record>> {
    var w :- OpenWallet(buf);
    var t :- Tree(w.f, w.root);
    if Proper(t, w.outer) then Some(t.records) else None
  }

  lemma {:induction false} OpenedHere(buf: Bytes)
    requires Open(buf).Some?
    ensures 0 < Open(buf).value.0.NumPages()
  {}

  lemma {:induction false} MainHere(f: BDBFile, outer: Meta)
    requires MainSubdb(f, outer).Some?
    ensures outer.root < f.NumPages()
  {
    hide LeafPairs;
  }

  method ReadAll(buf: Bytes) returns (r: Option<map<Bytes, Bytes>>)
    ensures r.Some? <==> AllRecords(buf).Some?
    ensures r.Some? ==> Holds(r.value, AllRecords(buf).value)
  {
    hide Open, MainSubdb, Flushed, Tree, Proper, Holds, BDBFile.ReadMeta, BDBFile.NumPages;
    var file :- Open(buf);
    var f, outer := file.0, file.1;
    OpenedHere(buf);
    if outer.lastPgno != f.NumPages() - 1 {
      return None;
    }
    if outer.flags != BTM_SUBDB {
      return None;
    }
    var flushed := AllFlushed(f, outer.lastPgno);
    if !flushed {
      return None;
    }
    var main :- FindMainSubdb(f, outer);
    MainHere(f, outer);
    if main > outer.lastPgno {
      return None;
    }
    var inner :- f.ReadMeta(main);
    var visited := {0, main};
    if outer.root != inner.root {
      visited := visited + {outer.root};
    }
    assert visited == {0, main} + if outer.root != inner.root then {outer.root} else {};
    assert OpenWallet(buf) == Some(Wallet(f, inner.root, visited));
    r := ReadTree(f, inner.root, visited);
  }

  // ---------- the scan ----------

  /** Pair number i of a leaf page, if both halves can be read and live. */
  ghost function PairAt(f: BDBFile, pgno: nat, h: PageHeader, i: nat): seq<Record> {
    var k, v := LeafItem(f, pgno, h, 2 * i), LeafItem(f, pgno, h, 2 * i + 1);
    if k.Some? && v.Some? && !k.value.deleted && !v.value.deleted then [Record(k.value.data, v.value.data)] else []
  }

  ghost function PairsBelow(f: BDBFile, pgno: nat, h: PageHeader, n: nat): seq<Record> {
    if n == 0 then [] else PairsBelow(f, pgno, h, n - 1) + PairAt(f, pgno, h, n - 1)
  }

  /** All that can be read of one page if it is a leaf. */
  ghost function PagePairs(f: BDBFile, pgno: nat): seq<Record> {
    var h := f.ReadHeader(pgno);
    if h == None || h.value.kind != P_LBTREE || h.value.level != LEAF_LEVEL then []
    else PairsBelow(f, pgno, h.value, h.value.entries / 2)
  }

  /** The outer database's pointer to "main". */
  predicate IsPointer(r: Record) {
    r.key == MAIN && |r.value| == 4
  }

  predicate HasKey(records: seq<Record>, key: Bytes) {
    exists i | 0 <= i < |records| :: records[i].key == key
  }

  /** Add those whose key is new, but not the pointer. */
  function AddNew(records: seq<Record>, more: seq<Record>): seq<Record> {
    if more == [] then records
    else
      var before, r := AddNew(records, more[..|more| - 1]), more[|more| - 1];
      if IsPointer(r) || HasKey(before, r.key) then before else before + [r]
  }

  ghost function Scan(f: BDBFile, n: nat): seq<Record> {
    if n <= 1 then [] else AddNew(Scan(f, n - 1), PagePairs(f, n - 1))
  }

  /** One pair; what cannot be read costs its own pair only. */
  method ScanPair(f: BDBFile, pgno: nat, h: PageHeader, i: nat) returns (pairs: seq<Record>)
    ensures pairs == PairAt(f, pgno, h, i)
  {
    hide LeafItem;
    pairs := [];
    var k := ReadLeafItem(f, pgno, h, 2 * i);
    if k.Some? {
      var v := ReadLeafItem(f, pgno, h, 2 * i + 1);
      if v.Some? && !k.value.deleted && !v.value.deleted {
        pairs := [Record(k.value.data, v.value.data)];
      }
    }
  }

  /** The loop over the pairs of a leaf page. */
  method ScanLeaf(f: BDBFile, pgno: nat, h: PageHeader) returns (pairs: seq<Record>)
    ensures pairs == PairsBelow(f, pgno, h, h.entries / 2)
  {
    hide PairAt;
    pairs := [];
    var j: nat := 0;
    while 2 * j + 1 < h.entries
      invariant 2 * j <= h.entries && pairs == PairsBelow(f, pgno, h, j)
    {
      var more := ScanPair(f, pgno, h, j);
      pairs := pairs + more;
      j := j + 1;
    }
  }

  method ScanPage(f: BDBFile, pgno: nat) returns (pairs: seq<Record>)
    ensures pairs == PagePairs(f, pgno)
  {
    hide PairsBelow, BDBFile.ReadHeader;
    pairs := [];
    var h := f.ReadHeader(pgno);
    if h.Some? && h.value.kind == P_LBTREE && h.value.level == LEAF_LEVEL {
      pairs := ScanLeaf(f, pgno, h.value);
    }
  }

  ghost predicate SeenIs(seen: set<Bytes>, records: seq<Record>) {
    forall key {:trigger key in seen} {:trigger HasKey(records, key)} :: key in seen <==> HasKey(records, key)
  }

  lemma {:induction false} SeeOne(seen: set<Bytes>, records: seq<Record>, r: Record)
    requires SeenIs(seen, records)
    ensures SeenIs(seen + {r.key}, records + [r])
  {
    forall key
      ensures HasKey(records + [r], key) <==> HasKey(records, key) || key == r.key
    {
      if HasKey(records, key) {
        var i :| 0 <= i < |records| && records[i].key == key;
        assert (records + [r])[i].key == key;
      }
      if key == r.key {
        assert (records + [r])[|records|].key == key;
      }
    }
  }

  method AddPairs(records: seq<Record>, seen: set<Bytes>, pairs: seq<Record>)
    returns (all: seq<Record>, allSeen: set<Bytes>)
    requires SeenIs(seen, records)
    ensures all == AddNew(records, pairs) && SeenIs(allSeen, all)
  {
    hide SeenIs;
    all, allSeen := records, seen;
    for i := 0 to |pairs|
      invariant all == AddNew(records, pairs[..i]) && SeenIs(allSeen, all)
    {
      assert pairs[..i + 1][..i] == pairs[..i];
      SeenIsKey(allSeen, all, pairs[i].key);
      if !IsPointer(pairs[i]) && pairs[i].key !in allSeen {
        SeeOne(allSeen, all, pairs[i]);
        allSeen := allSeen + {pairs[i].key};
        all := all + [pairs[i]];
      }
    }
    assert pairs[..|pairs|] == pairs;
  }

  lemma {:induction false} SeenIsKey(seen: set<Bytes>, records: seq<Record>, key: Bytes)
    requires SeenIs(seen, records)
    ensures key in seen <==> HasKey(records, key)
  {}

  /** The file as Salvage takes it; a bad page size is replaced by the one that was always used. */
  function SalvageFile(buf: Bytes): BDBFile
    requires |buf| >= 512
  {
    var f := BDBFile(buf, Magic(buf) == BTREE_MAGIC_OE, 0);
    var pagesize := f.Get32(20).value;
    f.(pagesize := if IsPagesize(pagesize) then pagesize else 4096)
  }

  /** The records of a map as a list. */
  ghost predicate Lists(records: seq<Record>, m: map<Bytes, Bytes>) {
    && (forall i, j | 0 <= i < j < |records| :: records[i].key != records[j].key)
    && (forall i | 0 <= i < |records| :: records[i].key in m && m[records[i].key] == records[i].value)
    && forall key | key in m :: HasKey(records, key)
  }

  method ToList(m: map<Bytes, Bytes>) returns (records: seq<Record>)
    ensures Lists(records, m)
  {
    records := [];
    var todo := m.Keys;
    ghost var seen: set<Bytes> := {};
    while todo != {}
      invariant seen == m.Keys - todo && SeenIs(seen, records) && todo <= m.Keys
      invariant forall i, j | 0 <= i < j < |records| :: records[i].key != records[j].key
      invariant forall i | 0 <= i < |records| :: records[i].key in m && m[records[i].key] == records[i].value
    {
      var key :| key in todo;
      assert !HasKey(records, key);
      SeeOne(seen, records, Record(key, m[key]));
      records := records + [Record(key, m[key])];
      seen := seen + {key};
      todo := todo - {key};
    }
  }

  /** A strict read if that succeeds, otherwise what the scan finds. */
  method Salvage(buf: Bytes) returns (ok: bool, records: seq<Record>)
    ensures AllRecords(buf).Some? ==> ok && forall r :: r in records <==> AllRecords(buf).value[r] > 0
    ensures AllRecords(buf) == None ==>
              records == (if |buf| < 512 then [] else Scan(SalvageFile(buf), SalvageFile(buf).NumPages()))
                && ok == (records != [])
  {
    hide AllRecords, Open, Scan, SalvageFile, Holds, Lists;
    var m := ReadAll(buf);
    if m.Some? {
      records := ToList(m.value);
      ListIsMultiset(records, m.value, AllRecords(buf).value);
      return true, records;
    }
    if |buf| < 512 {
      return false, [];
    }
    records := ScanFile(SalvageFile(buf));
    ok := records != [];
  }

  method ScanFile(f: BDBFile) returns (records: seq<Record>)
    ensures records == Scan(f, f.NumPages())
  {
    hide BDBFile.NumPages, SeenIs, PagePairs, AddNew;
    records := [];
    var seen: set<Bytes> := {};
    NothingSeen();
    var pgno := 1;
    while pgno < f.NumPages()
      invariant 1 <= pgno && (pgno <= f.NumPages() || pgno == 1)
      invariant records == Scan(f, pgno) && SeenIs(seen, records)
    {
      var pairs := ScanPage(f, pgno);
      records, seen := AddPairs(records, seen, pairs);
      pgno := pgno + 1;
    }
  }

  lemma {:induction false} NothingSeen()
    ensures SeenIs({}, [])
  {}

  lemma {:induction false} ListIsMultiset(records: seq<Record>, m: map<Bytes, Bytes>, all: multiset<Record>)
    requires Lists(records, m) && Holds(m, all)
    ensures forall r :: r in records <==> all[r] > 0
  {
    forall r
      ensures r in records <==> all[r] > 0
    {
      if r.key in m && m[r.key] == r.value {
        var i :| 0 <= i < |records| && records[i].key == r.key;
        assert records[i] == r;
      }
    }
  }

  // ---------- what the scan finds ----------

  ghost predicate KeysDistinct(records: seq<Record>) {
    forall i, j | 0 <= i < j < |records| :: records[i].key != records[j].key
  }

  /** What was found first stays; every other key is added once. */
  lemma {:induction false} AddNewKeeps(records: seq<Record>, more: seq<Record>)
    requires KeysDistinct(records)
    ensures records <= AddNew(records, more) && KeysDistinct(AddNew(records, more))
    ensures forall r | r in AddNew(records, more) :: r in records || (r in more && !IsPointer(r))
  {
    if more != [] {
      AddNewKeeps(records, more[..|more| - 1]);
    }
  }

  lemma {:induction false} KeyStays(a: seq<Record>, b: seq<Record>, key: Bytes)
    requires a <= b && HasKey(a, key)
    ensures HasKey(b, key)
  {
    var i :| 0 <= i < |a| && a[i].key == key;
    assert b[i].key == key;
  }

  lemma {:induction false} AddNewFinds(records: seq<Record>, more: seq<Record>, r: Record)
    requires KeysDistinct(records) && r in more && !IsPointer(r)
    ensures HasKey(AddNew(records, more), r.key)
  {
    var n := |more| - 1;
    var before := AddNew(records, more[..n]);
    AddNewKeeps(records, more[..n]);
    if more[n] == r {
      if !HasKey(before, r.key) {
        assert (before + [r])[|before|].key == r.key;
      }
    } else {
      AddNewFinds(records, more[..n], r);
      KeyStays(before, AddNew(records, more), r.key);
    }
  }

  /** The scan returns each key once, and of each key the first record it meets. */
  lemma {:induction false} FirstOneWins(f: BDBFile, m: nat, n: nat)
    requires m <= n
    ensures KeysDistinct(Scan(f, m)) && KeysDistinct(Scan(f, n)) && Scan(f, m) <= Scan(f, n)
    decreases n
  {
    hide PagePairs;
    if n > 1 {
      if m < n {
        FirstOneWins(f, m, n - 1);
        AddNewKeeps(Scan(f, n - 1), PagePairs(f, n - 1));
      } else {
        FirstOneWins(f, n - 1, n - 1);
        AddNewKeeps(Scan(f, n - 1), PagePairs(f, n - 1));
      }
    }
  }

  /** It returns nothing but readable records, never the pointer. */
  lemma {:induction false} ScanIsSound(f: BDBFile, n: nat, r: Record) returns (pgno: nat)
    requires r in Scan(f, n)
    ensures 1 <= pgno < n && r in PagePairs(f, pgno) && !IsPointer(r)
  {
    hide PagePairs;
    FirstOneWins(f, n - 1, n - 1);
    AddNewKeeps(Scan(f, n - 1), PagePairs(f, n - 1));
    if r in Scan(f, n - 1) {
      pgno := ScanIsSound(f, n - 1, r);
    } else {
      pgno := n - 1;
    }
  }

  /** It misses no key on any page. */
  lemma {:induction false} ScanFinds(f: BDBFile, n: nat, pgno: nat, r: Record)
    requires 1 <= pgno < n && r in PagePairs(f, pgno) && !IsPointer(r)
    ensures HasKey(Scan(f, n), r.key)
  {
    hide PagePairs;
    FirstOneWins(f, pgno, pgno);
    AddNewFinds(Scan(f, pgno), PagePairs(f, pgno), r);
    FirstOneWins(f, pgno + 1, n);
    KeyStays(Scan(f, pgno + 1), Scan(f, n), r.key);
  }

  // A leaf page that can be read as a whole is read by the scan just the same.

  lemma {:induction false} ItemIs(f: BDBFile, pgno: nat, h: PageHeader, n: nat, i: nat)
    requires LeafItems(f, pgno, h, n).Some? && i < n
    ensures LeafItem(f, pgno, h, i) == Some(LeafItems(f, pgno, h, n).value[i])
  {
    hide LeafItem;
    if i < n - 1 {
      ItemIs(f, pgno, h, n - 1, i);
    }
  }

  lemma {:induction false} LivePairsAreScanned(f: BDBFile, pgno: nat, h: PageHeader, n: nat)
    requires LeafItems(f, pgno, h, h.entries).Some? && 2 * n <= h.entries
    ensures LivePairs(LeafItems(f, pgno, h, h.entries).value[..2 * n]) == PairsBelow(f, pgno, h, n)
  {
    hide LeafItem, LivePairs, LeafItems;
    var items := LeafItems(f, pgno, h, h.entries).value;
    if n == 0 {
      NoPairs();
      assert items[..0] == [];
    } else {
      LivePairsAreScanned(f, pgno, h, n - 1);
      LivePairsNext(items, 2 * n - 2);
      ItemIs(f, pgno, h, h.entries, 2 * n - 2);
      ItemIs(f, pgno, h, h.entries, 2 * n - 1);
    }
  }

  lemma {:induction false} LeafIsScanned(f: BDBFile, pgno: nat)
    requires f.ReadHeader(pgno).Some? && f.ReadHeader(pgno).value.kind == P_LBTREE
             && f.ReadHeader(pgno).value.level == LEAF_LEVEL
    requires LeafPairs(f, pgno, f.ReadHeader(pgno).value).Some?
    ensures LeafPairs(f, pgno, f.ReadHeader(pgno).value) == Some(PagePairs(f, pgno))
  {
    hide LeafItems, LivePairs, BDBFile.ReadHeader;
    var h := f.ReadHeader(pgno).value;
    var items := LeafItems(f, pgno, h, h.entries).value;
    LivePairsAreScanned(f, pgno, h, h.entries / 2);
    assert items[..2 * (h.entries / 2)] == items;
  }

  /** A record of a tree is on one of its pages. */
  lemma {:induction false} RecordIsOnPage(f: BDBFile, pgno: nat, level: nat, r: Record) returns (page: nat)
    requires Subtree(f, pgno, level).Some? && r in Subtree(f, pgno, level).value.records
    ensures page in Subtree(f, pgno, level).value.pages && r in PagePairs(f, page) && page < f.NumPages()
    decreases level, 0
  {
    hide LeafPairs, Children, BDBFile.ReadHeader, PagePairs, BDBFile.NumPages;
    HeaderIsHere(f, pgno);
    var h := f.ReadHeader(pgno).value;
    if h.kind == P_IBTREE {
      page := RecordIsBelow(f, Children(f, pgno, h, h.entries).value, level - 1, r);
    } else {
      LeafIsScanned(f, pgno);
      page := pgno;
    }
  }

  lemma {:induction false} HeaderIsHere(f: BDBFile, pgno: nat)
    ensures f.ReadHeader(pgno).Some? ==> pgno < f.NumPages()
  {}

  lemma {:induction false} RecordIsBelow(f: BDBFile, pages: seq<nat>, level: nat, r: Record) returns (page: nat)
    requires Subtrees(f, pages, level).Some? && r in Subtrees(f, pages, level).value.records
    ensures page in Subtrees(f, pages, level).value.pages && r in PagePairs(f, page) && page < f.NumPages()
    decreases level, |pages|
  {
    hide Subtree, PagePairs, BDBFile.NumPages;
    var n := |pages| - 1;
    if r in Subtrees(f, pages[..n], level).value.records {
      page := RecordIsBelow(f, pages[..n], level, r);
    } else {
      page := RecordIsOnPage(f, pages[n], level, r);
    }
  }

  /**
   * Whatever else is damaged: of every part of the tree that can still be read, the scan recovers
   * all keys, with a value some readable page gives them.
   */
  lemma {:induction false} ReadableIsRecovered(f: BDBFile, pgno: nat, level: nat, r: Record)
    requires Subtree(f, pgno, level).Some? && 0 !in Subtree(f, pgno, level).value.pages
    requires r in Subtree(f, pgno, level).value.records && !IsPointer(r)
    ensures HasKey(Scan(f, f.NumPages()), r.key)
  {
    hide Subtree, PagePairs, BDBFile.NumPages, Scan;
    var page := RecordIsOnPage(f, pgno, level, r);
    ScanFinds(f, f.NumPages(), page, r);
  }
}
