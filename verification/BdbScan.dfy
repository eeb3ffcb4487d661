/**
 * What the lenient scan returns, told in bytes of the file: of each key the first live record, page by page
 * from the second page on and place by place.
 */
module BdbScan {
  import opened Options
  import opened BdbPages
  import opened BdbRead
  import opened BdbBytes

  /** A live record behind the first page, and not the outer database's: "main" with four bytes. */
  ghost predicate Counted(f: BDBFile, page: nat, j: nat, r: Record)
    requires f.pagesize >= 512
  {
    page >= 1 && RecordAt(f, page, j, r) && !(r.key == [0x6d, 0x61, 0x69, 0x6e] && |r.value| == 4)
  }

  ghost predicate FirstOfKey(f: BDBFile, page: nat, j: nat, r: Record)
    requires f.pagesize >= 512
  {
    && Counted(f, page, j, r)
    && forall p: nat, k: nat, s | Counted(f, p, k, s) && (p < page || (p == page && k < j)) :: s.key != r.key
  }

  // ---------- one page ----------

  ghost predicate AnyPair(f: BDBFile, pgno: nat, h: PageHeader, m: nat, key: Bytes) {
    exists j: nat, s :: j < m && s in PairAt(f, pgno, h, j) && !IsPointer(s) && s.key == key
  }

  /** The record is the first of its key among these pairs. */
  ghost predicate FirstPair(f: BDBFile, pgno: nat, h: PageHeader, j: nat, r: Record) {
    r in PairAt(f, pgno, h, j) && !IsPointer(r) && !AnyPair(f, pgno, h, j, r.key)
  }

  lemma {:induction false} AnyPairNext(f: BDBFile, pgno: nat, h: PageHeader, m: nat, key: Bytes)
    ensures AnyPair(f, pgno, h, m + 1, key) <==>
            AnyPair(f, pgno, h, m, key) || exists s :: s in PairAt(f, pgno, h, m) && !IsPointer(s) && s.key == key
  {
    hide PairAt;
  }

  lemma {:induction false} OneAdded(records: seq<Record>, more: seq<Record>, last: seq<Record>, key: Bytes)
    requires |last| <= 1
    ensures var before, all := AddNew(records, more), AddNew(records, more + last);
            && (HasKey(all, key) <==> HasKey(before, key) || exists s :: s in last && !IsPointer(s) && s.key == key)
            && (forall r :: r in all <==> r in before || (r in last && !IsPointer(r) && !HasKey(before, r.key)))
  {
    if last == [] {
      assert more + last == more;
    } else {
      assert (more + last)[..|more + last| - 1] == more;
      var before := AddNew(records, more);
      if !IsPointer(last[0]) && !HasKey(before, last[0].key) {
        HasKeyNext(before, last[0], key);
      }
    }
  }

  lemma {:induction false} HasKeyNext(records: seq<Record>, r: Record, key: Bytes)
    ensures HasKey(records + [r], key) <==> HasKey(records, key) || r.key == key
  {
    var all := records + [r];
    assert all[|records|] == r && forall i | 0 <= i < |records| :: all[i] == records[i];
  }

  lemma {:induction false} AtMostOnePair(f: BDBFile, pgno: nat, h: PageHeader, i: nat)
    ensures |PairAt(f, pgno, h, i)| <= 1
  {
    hide LeafItem;
  }

  /** Of the pairs of a page those are added whose key is neither there yet nor earlier on the page. */
  lemma {:induction false} PairsAdded(f: BDBFile, pgno: nat, h: PageHeader, m: nat, records: seq<Record>)
    ensures var all := AddNew(records, PairsBelow(f, pgno, h, m));
            && (forall key :: HasKey(all, key) <==> HasKey(records, key) || AnyPair(f, pgno, h, m, key))
            && forall r :: r in all <==>
                 r in records || (!HasKey(records, r.key) && exists j: nat :: j < m && FirstPair(f, pgno, h, j, r))
  {
    hide PairAt, HasKey, AnyPair, AddNew;
    if m == 0 {
      NothingAdded(f, pgno, h, records);
    } else {
      PairsAdded(f, pgno, h, m - 1, records);
      AtMostOnePair(f, pgno, h, m - 1);
      var before, last := AddNew(records, PairsBelow(f, pgno, h, m - 1)), PairAt(f, pgno, h, m - 1);
      var all := AddNew(records, PairsBelow(f, pgno, h, m));
      forall key
        ensures HasKey(all, key) <==> HasKey(records, key) || AnyPair(f, pgno, h, m, key)
      {
        OneAdded(records, PairsBelow(f, pgno, h, m - 1), last, key);
        AnyPairNext(f, pgno, h, m - 1, key);
      }
      OneAdded(records, PairsBelow(f, pgno, h, m - 1), last, []);
      forall r
        ensures r in all <==>
                r in records || (!HasKey(records, r.key) && exists j: nat :: j < m && FirstPair(f, pgno, h, j, r))
      {
        assert FirstPair(f, pgno, h, m - 1, r) <==>
               r in last && !IsPointer(r) && !AnyPair(f, pgno, h, m - 1, r.key);
      }
    }
  }

  lemma {:induction false} NothingAdded(f: BDBFile, pgno: nat, h: PageHeader, records: seq<Record>)
    ensures AddNew(records, PairsBelow(f, pgno, h, 0)) == records && forall key :: !AnyPair(f, pgno, h, 0, key)
  {}

  // ---------- all pages ----------

  lemma {:induction false} MainIsPointer(r: Record)
    ensures IsPointer(r) <==> r.key == [0x6d, 0x61, 0x69, 0x6e] && |r.value| == 4
  {}

  lemma {:induction false} ScanHas(f: BDBFile, n: nat, key: Bytes)
    requires f.pagesize >= 512
    ensures HasKey(Scan(f, n), key)
            <==> exists page: nat, j: nat, s :: page < n && Counted(f, page, j, s) && s.key == key
  {
    hide PagePairs, Scan, RecordAt;
    if HasKey(Scan(f, n), key) {
      var i :| 0 <= i < |Scan(f, n)| && Scan(f, n)[i].key == key;
      var r := Scan(f, n)[i];
      var page := ScanIsSound(f, n, r);
      PagePairsBytes(f, page, r);
      var j: nat :| RecordAt(f, page, j, r);
      assert Counted(f, page, j, r);
    }
    if page: nat, j: nat, s :| page < n && Counted(f, page, j, s) && s.key == key {
      PagePairsBytes(f, page, s);
      ScanFinds(f, n, page, s);
    }
  }

  ghost predicate IsLeaf(f: BDBFile, page: nat, h: PageHeader) {
    f.ReadHeader(page) == Some(h) && h.kind == P_LBTREE && h.level == LEAF_LEVEL
  }

  lemma {:induction false} PairIsCounted(f: BDBFile, page: nat, h: PageHeader, j: nat, r: Record)
    requires f.pagesize >= 512 && page >= 1 && IsLeaf(f, page, h)
    ensures Counted(f, page, j, r) <==> j < h.entries / 2 && r in PairAt(f, page, h, j) && !IsPointer(r)
  {
    hide BDBFile.ReadHeader, PairAt, RecordAt;
    RecordIsPair(f, page, j, r);
    MainIsPointer(r);
  }

  lemma {:induction false} FirstIsFirst(f: BDBFile, page: nat, h: PageHeader, j: nat, r: Record)
    requires f.pagesize >= 512 && page >= 1 && IsLeaf(f, page, h)
    ensures FirstOnPage(f, page, j, r) <==> j < h.entries / 2 && FirstPair(f, page, h, j, r)
  {
    hide Counted, PairAt, IsLeaf, IsPointer;
    PairIsCounted(f, page, h, j, r);
    forall k: nat, s
      ensures Counted(f, page, k, s) <==> k < h.entries / 2 && s in PairAt(f, page, h, k) && !IsPointer(s)
    {
      PairIsCounted(f, page, h, k, s);
    }
  }

  lemma {:induction false} OnlyLeavesCount(f: BDBFile, page: nat, j: nat, r: Record)
    requires f.pagesize >= 512 && Counted(f, page, j, r)
    ensures f.ReadHeader(page).Some? && IsLeaf(f, page, f.ReadHeader(page).value)
  {
    hide BDBFile.ReadHeader, PairAt, RecordAt;
    RecordIsPair(f, page, j, r);
  }

  /** What a page adds. */
  lemma {:induction false} PageAdds(f: BDBFile, page: nat, r: Record)
    requires f.pagesize >= 512 && page >= 1
    ensures r in Scan(f, page + 1) <==>
            r in Scan(f, page) || (!HasKey(Scan(f, page), r.key) && exists j: nat :: FirstOnPage(f, page, j, r))
  {
    hide BDBFile.ReadHeader, FirstPair, Counted, AddNew, HasKey, PairsBelow;
    var h := f.ReadHeader(page);
    if h.Some? && IsLeaf(f, page, h.value) {
      PairsAdded(f, page, h.value, h.value.entries / 2, Scan(f, page));
      forall j: nat
        ensures FirstOnPage(f, page, j, r) <==> j < h.value.entries / 2 && FirstPair(f, page, h.value, j, r)
      {
        FirstIsFirst(f, page, h.value, j, r);
      }
    } else {
      AddNothing(Scan(f, page));
      forall j: nat
        ensures !FirstOnPage(f, page, j, r)
      {
        if Counted(f, page, j, r) {
          OnlyLeavesCount(f, page, j, r);
        }
      }
    }
  }

  lemma {:induction false} AddNothing(records: seq<Record>)
    ensures AddNew(records, []) == records
  {}

  ghost predicate FirstOnPage(f: BDBFile, page: nat, j: nat, r: Record)
    requires f.pagesize >= 512
  {
    Counted(f, page, j, r) && forall k: nat, s | k < j && Counted(f, page, k, s) :: s.key != r.key
  }

  /** The scan of the pages below n returns a record exactly if it is the first of its key. */
  lemma {:induction false} ScanExactly(f: BDBFile, n: nat, r: Record)
    requires f.pagesize >= 512
    ensures r in Scan(f, n) <==> exists page: nat, j: nat :: page < n && FirstOfKey(f, page, j, r)
  {
    hide RecordAt, Scan, HasKey;
    if n <= 1 {
      NothingScanned(f, n);
    } else {
      var page := n - 1;
      ScanExactly(f, page, r);
      PageAdds(f, page, r);
      ScanHas(f, page, r.key);
      assert forall j: nat ::
             FirstOfKey(f, page, j, r) <==> FirstOnPage(f, page, j, r) && !HasKey(Scan(f, page), r.key);
    }
  }

  lemma {:induction false} NothingScanned(f: BDBFile, n: nat)
    requires n <= 1
    ensures Scan(f, n) == []
  {}
}
