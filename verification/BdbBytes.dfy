/**
 * What the reader finds, told in bytes of the file: where an item of a leaf page stands, which items
 * are deleted, which bytes a record is made of. Offsets and type bytes are those of Berkeley DB's
 * page layout.
 */
module BdbBytes {
  import opened Options
  import opened Powers
  import opened BdbPages
  import opened BdbRead

  /** The bytes from p on as a number, in the byte order of the file. */
  ghost function Word16(f: BDBFile, p: nat): nat
    requires p + 2 <= |f.buf|
  {
    var a: nat, b: nat := f.buf[p], f.buf[p + 1];
    if f.otherEndian then 256 * a + b else a + 256 * b
  }

  ghost function Word32(f: BDBFile, p: nat): nat
    requires p + 4 <= |f.buf|
  {
    if f.otherEndian then 65536 * Word16(f, p) + Word16(f, p + 2) else Word16(f, p) + 65536 * Word16(f, p + 2)
  }

  lemma {:induction false} WordsAreRead(f: BDBFile, p: nat)
    ensures p + 2 <= |f.buf| ==> f.Get16(p) == Some(Word16(f, p))
    ensures p + 4 <= |f.buf| ==> f.Get32(p) == Some(Word32(f, p))
  {}

  /** All of this page is there, and it starts at byte base. */
  ghost predicate PageAt(f: BDBFile, pgno: nat, base: nat) {
    pgno < f.NumPages() && base == pgno * f.pagesize && base + f.pagesize <= |f.buf|
  }

  lemma {:induction false} PageIsThere(f: BDBFile, pgno: nat)
    ensures f.PageOffset(pgno) == if pgno < f.NumPages() then Some(pgno * f.pagesize) else None
    ensures pgno < f.NumPages() ==> PageAt(f, pgno, pgno * f.pagesize)
  {}

  /** The first 26 bytes of a page: its number, its type and level, and three counts. */
  lemma {:induction false} HeaderBytes(f: BDBFile, pgno: nat, base: nat)
    requires f.pagesize >= 512 && PageAt(f, pgno, base)
    ensures f.ReadHeader(pgno) ==
            if Word32(f, base + 8) != pgno then None
            else Some(PageHeader(Word32(f, base + 16), Word16(f, base + 20), Word16(f, base + 22), f.buf[base + 24],
                                 f.buf[base + 25]))
  {
    hide BDBFile.NumPages, Big16, Big32;
    PageIsThere(f, pgno);
    WordsAreRead(f, base);
    WordsAreRead(f, base + 4);
    WordsAreRead(f, base + 8);
    WordsAreRead(f, base + 12);
    WordsAreRead(f, base + 16);
    WordsAreRead(f, base + 20);
    WordsAreRead(f, base + 22);
  }

  // ---------- chains of overflow pages ----------

  /** These pages, from the first to the one that names no next page, hold these bytes behind their heads. */
  ghost predicate Chain(f: BDBFile, first: nat, pages: seq<nat>, data: Bytes)
    requires f.pagesize >= 512
    decreases |pages|
  {
    if pages == [] then first == 0 && data == []
    else
      && first == pages[0] && first != 0 && PageAt(f, first, first * f.pagesize)
      && var base := first * f.pagesize;
         var len := Word16(f, base + 22);
         && Word32(f, base + 8) == first && f.buf[base + 25] == 7 && f.buf[base + 24] == 0
         && 26 + len <= f.pagesize && len <= |data| && data[..len] == f.buf[base + 26..base + 26 + len]
         && Chain(f, Word32(f, base + 16), pages[1..], data[len..])
  }

  lemma {:induction false} OverflowPageBytes(f: BDBFile, pgno: nat)
    requires f.pagesize >= 512
    ensures f.OverflowPage(pgno) <==>
            && PageAt(f, pgno, pgno * f.pagesize)
            && var base := pgno * f.pagesize;
               Word32(f, base + 8) == pgno && f.buf[base + 25] == 7 && f.buf[base + 24] == 0
               && 26 + Word16(f, base + 22) <= f.pagesize
    ensures f.OverflowPage(pgno) ==>
              var base := pgno * f.pagesize;
              f.Next(pgno) == Word32(f, base + 16)
              && f.Content(pgno) == f.buf[base + 26..base + 26 + Word16(f, base + 22)]
  {
    hide BDBFile.NumPages, BDBFile.ReadHeader, Word16, Word32;
    PageIsThere(f, pgno);
    if pgno < f.NumPages() {
      HeaderBytes(f, pgno, pgno * f.pagesize);
    } else {
      NoHeader(f, pgno);
    }
  }

  lemma {:induction false} NoHeader(f: BDBFile, pgno: nat)
    requires pgno >= f.NumPages()
    ensures f.ReadHeader(pgno) == None
  {}

  /** The chains the reader follows are these. */
  lemma {:induction false} ChainBytes(f: BDBFile, first: nat, pages: seq<nat>, data: Bytes)
    requires f.pagesize >= 512
    ensures Chain(f, first, pages, data) <==> f.Linked(first, pages, 0) && f.Joined(first, pages, 0) == data
    decreases |pages|
  {
    hide BDBFile.OverflowPage, BDBFile.Next, BDBFile.Content, BDBFile.NumPages, Word16, Word32;
    if pages != [] && first == pages[0] && first != 0 {
      OverflowPageBytes(f, first);
      if f.OverflowPage(first) {
        var len := Word16(f, first * f.pagesize + 22);
        if len <= |data| {
          ChainBytes(f, f.Next(first), pages[1..], data[len..]);
          assert data == data[..len] + data[len..];
        }
        assert f.Linked(first, pages, 0) && f.Joined(first, pages, 0) == data ==>
                 data[..len] == f.Content(first) && data[len..] == f.Joined(f.Next(first), pages[1..], 0);
      }
    }
  }

  // ---------- items of a leaf ----------

  /** The index table of a page with this many items gives item i a place behind the table. */
  ghost predicate HasPlace(f: BDBFile, base: nat, entries: nat, i: nat)
    requires base + f.pagesize <= |f.buf|
  {
    26 + 2 * i + 2 <= f.pagesize && base + 26 + 2 * entries <= Place(f, base, i)
      && Place(f, base, i) + 3 <= base + f.pagesize
  }

  ghost function Place(f: BDBFile, base: nat, i: nat): nat
    requires base + 26 + 2 * i + 2 <= |f.buf|
  {
    base + Word16(f, base + 26 + 2 * i)
  }

  /** A live item is its type, 1 or 3, and its bytes: behind its head, or on the chain it names. */
  ghost predicate Live(f: BDBFile, at: nat, end: nat, data: Bytes)
    requires f.pagesize >= 512 && at + 3 <= end <= |f.buf|
  {
    || (f.buf[at + 2] == 1 && at + 3 + Word16(f, at) <= end && data == f.buf[at + 3..at + 3 + Word16(f, at)])
    || (f.buf[at + 2] == 3 && at + 12 <= end && OnChain(f, Word32(f, at + 4), Word32(f, at + 8), data))
  }

  /**
   * A deleted item has the bit 0x80 in its type byte; it must fit on its page, but a chain it names is not followed.
   */
  ghost predicate Deleted(f: BDBFile, at: nat, end: nat)
    requires at + 3 <= end <= |f.buf|
  {
    || (f.buf[at + 2] == 0x81 && at + 3 + Word16(f, at) <= end)
    || (f.buf[at + 2] == 0x83 && at + 12 <= end)
  }

  ghost predicate OnChain(f: BDBFile, first: nat, total: nat, data: Bytes)
    requires f.pagesize >= 512
  {
    |data| == total && exists pages :: Chain(f, first, pages, data)
  }

  lemma {:induction false} OffsetBytes(f: BDBFile, pgno: nat, h: PageHeader, i: nat, base: nat)
    requires PageAt(f, pgno, base)
    ensures var off := f.ItemOffset(pgno, h, i, 3);
            if HasPlace(f, base, h.entries, i) then off.Some? && base + off.value == Place(f, base, i) else off == None
  {
    hide BDBFile.NumPages, Big16;
    PageIsThere(f, pgno);
    if 26 + 2 * i + 2 <= f.pagesize {
      WordsAreRead(f, base + 26 + 2 * i);
    }
  }

  lemma {:induction false} OverflowBytes(f: BDBFile, first: nat, total: nat, data: Bytes)
    requires f.pagesize >= 512
    ensures f.Overflow(first, total) == Some(data) <==> OnChain(f, first, total, data)
  {
    hide BDBFile.Linked, BDBFile.Joined, Chain;
    if f.Overflow(first, total) == Some(data) {
      var pages :| f.IsItem(first, total, pages) && data == f.Joined(first, pages, 0);
      ChainBytes(f, first, pages, data);
    }
    if pages :| Chain(f, first, pages, data) {
      ChainBytes(f, first, pages, data);
      OverflowIs(f, first, total, pages);
    }
  }

  /** An item is live with these bytes, or deleted, exactly if it has a place and the bytes of the file say so. */
  lemma {:induction false} LeafItemBytes(f: BDBFile, pgno: nat, h: PageHeader, i: nat, base: nat, data: Bytes)
    requires f.pagesize >= 512 && PageAt(f, pgno, base)
    ensures LeafItem(f, pgno, h, i) == Some(Item(false, data)) <==>
            HasPlace(f, base, h.entries, i) && Live(f, Place(f, base, i), base + f.pagesize, data)
    ensures LeafItem(f, pgno, h, i).Some? && LeafItem(f, pgno, h, i).value.deleted <==>
            HasPlace(f, base, h.entries, i) && Deleted(f, Place(f, base, i), base + f.pagesize)
  {
    hide BDBFile.NumPages, BDBFile.ItemOffset, BDBFile.Overflow, BDBFile.Get16, BDBFile.Get32;
    hide Big16, Big32, Word16, Word32, OnChain;
    PageIsThere(f, pgno);
    OffsetBytes(f, pgno, h, i, base);
    if HasPlace(f, base, h.entries, i) {
      var at := Place(f, base, i);
      WordsAreRead(f, at);
      if at + 12 <= base + f.pagesize {
        WordsAreRead(f, at + 4);
        WordsAreRead(f, at + 8);
        OverflowBytes(f, Word32(f, at + 4), Word32(f, at + 8), data);
      }
    }
  }

  // ---------- records ----------

  /** The j-th pair of this page is this record, and both halves of it live. */
  ghost predicate LivePair(f: BDBFile, base: nat, entries: nat, j: nat, r: Record)
    requires f.pagesize >= 512 && base + f.pagesize <= |f.buf|
  {
    && HasPlace(f, base, entries, 2 * j) && HasPlace(f, base, entries, 2 * j + 1)
    && Live(f, Place(f, base, 2 * j), base + f.pagesize, r.key)
    && Live(f, Place(f, base, 2 * j + 1), base + f.pagesize, r.value)
  }

  /** The same for a page that is a leaf of the btree. */
  ghost predicate RecordAt(f: BDBFile, pgno: nat, j: nat, r: Record)
    requires f.pagesize >= 512
  {
    && PageAt(f, pgno, pgno * f.pagesize)
    && var base := pgno * f.pagesize;
       var entries := Word16(f, base + 20);
       && Word32(f, base + 8) == pgno && f.buf[base + 25] == 5 && f.buf[base + 24] == 1
       && 2 * j + 1 < entries && LivePair(f, base, entries, j, r)
  }

  lemma {:induction false} PairsBelowHas(f: BDBFile, pgno: nat, h: PageHeader, n: nat, r: Record)
    ensures r in PairsBelow(f, pgno, h, n) <==> exists j: nat :: j < n && r in PairAt(f, pgno, h, j)
  {
    hide PairAt;
    if n > 0 {
      PairsBelowHas(f, pgno, h, n - 1, r);
    }
  }

  lemma {:induction false} PairBytes(f: BDBFile, pgno: nat, h: PageHeader, base: nat, j: nat, r: Record)
    requires f.pagesize >= 512 && PageAt(f, pgno, base)
    ensures r in PairAt(f, pgno, h, j) <==> LivePair(f, base, h.entries, j, r)
  {
    hide LeafItem, Live, Place, HasPlace;
    LeafItemBytes(f, pgno, h, 2 * j, base, r.key);
    LeafItemBytes(f, pgno, h, 2 * j + 1, base, r.value);
  }

  /** On the j-th place of a page the scan finds exactly what its bytes hold. */
  lemma {:induction false} RecordIsPair(f: BDBFile, pgno: nat, j: nat, r: Record)
    requires f.pagesize >= 512
    ensures var h := f.ReadHeader(pgno);
            RecordAt(f, pgno, j, r) <==>
            h.Some? && h.value.kind == P_LBTREE && h.value.level == LEAF_LEVEL && j < h.value.entries / 2
              && r in PairAt(f, pgno, h.value, j)
  {
    hide BDBFile.NumPages, BDBFile.ReadHeader, PairAt, LivePair, Word16, Word32;
    var base := pgno * f.pagesize;
    PageIsThere(f, pgno);
    if pgno < f.NumPages() {
      HeaderBytes(f, pgno, base);
      if Word32(f, base + 8) == pgno {
        PairBytes(f, pgno, f.ReadHeader(pgno).value, base, j, r);
      }
    } else {
      NoHeader(f, pgno);
    }
  }

  /** The scan finds on a page exactly the records its bytes hold. */
  lemma {:induction false} PagePairsBytes(f: BDBFile, pgno: nat, r: Record)
    requires f.pagesize >= 512
    ensures r in PagePairs(f, pgno) <==> exists j: nat :: RecordAt(f, pgno, j, r)
  {
    hide BDBFile.ReadHeader, PairsBelow, PairAt, RecordAt;
    var h := f.ReadHeader(pgno);
    forall j: nat
      ensures RecordAt(f, pgno, j, r) <==>
              h.Some? && h.value.kind == P_LBTREE && h.value.level == LEAF_LEVEL && j < h.value.entries / 2
                && r in PairAt(f, pgno, h.value, j)
    {
      RecordIsPair(f, pgno, j, r);
    }
    if h.Some? {
      PairsBelowHas(f, pgno, h.value, h.value.entries / 2, r);
    }
  }

  lemma {:induction false} OpenBytes(buf: Bytes)
    ensures Open(buf).Some? ==> Open(buf).value.0.buf == buf && Open(buf).value.0.pagesize >= 512
  {}

  // ---------- children of an internal page ----------

  /** A child is named in the four bytes from the fourth on of a plain item that is not deleted. */
  ghost predicate ChildAt(f: BDBFile, base: nat, entries: nat, i: nat, child: nat)
    requires base + f.pagesize <= |f.buf|
  {
    && HasPlace(f, base, entries, i)
    && var at, end := Place(f, base, i), base + f.pagesize;
       at + 12 <= end && f.buf[at + 2] == 1 && at + 12 + Word16(f, at) <= end && child == Word32(f, at + 4)
  }

  lemma {:induction false} ChildBytes(f: BDBFile, pgno: nat, h: PageHeader, i: nat, base: nat, child: nat)
    requires PageAt(f, pgno, base)
    ensures Child(f, pgno, h, i) == Some(child) <==> ChildAt(f, base, h.entries, i, child)
  {
    hide BDBFile.NumPages, BDBFile.Get16, BDBFile.Get32, Big16, Big32, Word16, Word32;
    PageIsThere(f, pgno);
    if 26 + 2 * i + 2 <= f.pagesize {
      WordsAreRead(f, base + 26 + 2 * i);
      var at := Place(f, base, i);
      WordsAreRead(f, at);
      WordsAreRead(f, at + 4);
    }
  }

  // ---------- the head of the file ----------

  /** A metadata page: its number, the magic number, version 9, the page size, no encryption, type 9. */
  ghost predicate MetaAt(f: BDBFile, pgno: nat, base: nat)
    requires f.pagesize >= 512
  {
    && PageAt(f, pgno, base)
    && Word32(f, base + 8) == pgno && Word32(f, base + 12) == 0x53162 && Word32(f, base + 16) == 9
    && Word32(f, base + 20) == f.pagesize && f.buf[base + 24] == 0 && f.buf[base + 25] == 9
    && Word32(f, base + 48) in {0, 0x20}
  }

  /** What it says: the last page, whether there are subdatabases, and where the tree starts. */
  lemma {:induction false} MetaBytes(f: BDBFile, pgno: nat, base: nat)
    requires f.pagesize >= 512 && base == pgno * f.pagesize
    ensures f.ReadMeta(pgno) ==
            if MetaAt(f, pgno, base) then Some(Meta(Word32(f, base + 32), Word32(f, base + 48), Word32(f, base + 88)))
            else None
  {
    hide BDBFile.NumPages, BDBFile.Get16, BDBFile.Get32, Big16, Big32, Word16, Word32;
    PageIsThere(f, pgno);
    WordsAreRead(f, base + 8);
    WordsAreRead(f, base + 12);
    WordsAreRead(f, base + 16);
    WordsAreRead(f, base + 20);
    WordsAreRead(f, base + 32);
    WordsAreRead(f, base + 48);
    WordsAreRead(f, base + 88);
  }

  /** The first page says which machine wrote the file and how large its pages are: a power of two from 2^9 to 2^16. */
  ghost predicate Begins(buf: Bytes, f: BDBFile) {
    && f.buf == buf && |buf| >= 512
    && buf[12..16] == (if f.otherEndian then [0x00, 0x05, 0x31, 0x62] else [0x62, 0x31, 0x05, 0x00])
    && f.pagesize == Word32(f, 20) && IsPowerFrom9To16(f.pagesize)
  }

  ghost predicate IsPowerFrom9To16(n: nat) {
    exists k :: 9 <= k <= 16 && Pow2(k) == n
  }

  lemma {:induction false} PagesizesArePowers(n: nat)
    ensures IsPagesize(n) <==> IsPowerFrom9To16(n)
  {
    assert Pow2(9) == 512;
    assert Pow2(10) == 1024;
    assert Pow2(11) == 2048;
    assert Pow2(12) == 4096;
    assert Pow2(13) == 8192;
    assert Pow2(14) == 16384;
    assert Pow2(15) == 32768;
    assert Pow2(16) == 65536;
  }

  lemma {:induction false} MagicBytes(buf: Bytes)
    requires |buf| >= 512
    ensures Magic(buf) == BTREE_MAGIC <==> buf[12..16] == [0x62, 0x31, 0x05, 0x00]
    ensures Magic(buf) == BTREE_MAGIC_OE <==> buf[12..16] == [0x00, 0x05, 0x31, 0x62]
  {
    var s := buf[12..16];
    assert s[0] == buf[12] && s[1] == buf[13] && s[2] == buf[14] && s[3] == buf[15];
    assert s == [s[0], s[1], s[2], s[3]];
  }

  /** A file opens exactly if it begins like this and its first page is a metadata page. */
  lemma {:induction false} OpenExactly(buf: Bytes, f: BDBFile, meta: Meta)
    ensures Open(buf) == Some((f, meta)) <==> Begins(buf, f) && f.ReadMeta(0) == Some(meta)
  {
    hide Magic, Word32, IsPagesize, IsPowerFrom9To16, BDBFile.ReadMeta, BDBFile.Get32, Pow2;
    if |buf| >= 512 {
      MagicBytes(buf);
      var g := BDBFile(buf, Magic(buf) == BTREE_MAGIC_OE, 0);
      WordsAreRead(g, 20);
      if f.buf == buf && f.otherEndian == g.otherEndian {
        SameWords(f, g, 20);
      }
      PagesizesArePowers(f.pagesize);
      PagesizesArePowers(Word32(g, 20));
    }
  }

  lemma {:induction false} SameWords(f: BDBFile, g: BDBFile, p: nat)
    requires p + 4 <= |f.buf| && f.buf == g.buf && f.otherEndian == g.otherEndian
    ensures Word32(f, p) == Word32(g, p)
  {}

  /**
   * With a damaged first page the scan assumes pages of 4096 bytes, and a little-endian machine unless told otherwise.
   */
  lemma {:induction false} ScanAssumes(buf: Bytes)
    requires |buf| >= 512
    ensures var f := SalvageFile(buf);
            && f.buf == buf && (f.otherEndian <==> buf[12..16] == [0x00, 0x05, 0x31, 0x62])
            && f.pagesize == if IsPowerFrom9To16(Word32(f, 20)) then Word32(f, 20) else 4096
  {
    hide Magic, Word32, IsPagesize, IsPowerFrom9To16, BDBFile.Get32, Pow2;
    MagicBytes(buf);
    var g := BDBFile(buf, Magic(buf) == BTREE_MAGIC_OE, 0);
    WordsAreRead(g, 20);
    SameWords(SalvageFile(buf), g, 20);
    PagesizesArePowers(Word32(g, 20));
  }

  /** A leaf with a single live pair: the name "main" and a page number, highest byte first. */
  ghost predicate MainAt(f: BDBFile, pgno: nat, main: nat)
    requires f.pagesize >= 512
  {
    && PageAt(f, pgno, pgno * f.pagesize)
    && var base := pgno * f.pagesize;
       && Word32(f, base + 8) == pgno && f.buf[base + 25] == 5 && Word16(f, base + 20) == 2
       && exists v: Bytes :: LivePair(f, base, 2, 0, Record([0x6d, 0x61, 0x69, 0x6e], v)) && IsBigEndian(v, main)
  }

  ghost predicate IsBigEndian(v: Bytes, n: nat) {
    |v| == 4 && var a: nat, b: nat, c: nat, d: nat := v[0], v[1], v[2], v[3];
                n == 16777216 * a + 65536 * b + 256 * c + d
  }

  lemma {:induction false} OnePair(f: BDBFile, pgno: nat, h: PageHeader, base: nat, r: Record)
    requires f.pagesize >= 512 && PageAt(f, pgno, base) && h.entries == 2
    ensures LeafPairs(f, pgno, h) == Some([r]) <==> LivePair(f, base, 2, 0, r)
  {
    hide LeafItem, Live, Place, HasPlace;
    LeafItemBytes(f, pgno, h, 0, base, r.key);
    LeafItemBytes(f, pgno, h, 1, base, r.value);
    TwoItems(f, pgno, h);
  }

  lemma {:induction false} TwoItems(f: BDBFile, pgno: nat, h: PageHeader)
    requires h.entries == 2
    ensures var k, v := LeafItem(f, pgno, h, 0), LeafItem(f, pgno, h, 1);
            LeafPairs(f, pgno, h) ==
            if k == None || v == None then None
            else if k.value.deleted || v.value.deleted then Some([])
            else Some([Record(k.value.data, v.value.data)])
  {
    hide LeafItem;
    assert LeafItems(f, pgno, h, 0) == Some([]);
    var k, v := LeafItem(f, pgno, h, 0), LeafItem(f, pgno, h, 1);
    if k == None {
      OneBadItem(f, pgno, h, 2, 0);
    } else if v == None {
      OneBadItem(f, pgno, h, 2, 1);
    } else {
      var items := [k.value, v.value];
      assert [] + [k.value] == [k.value] && [k.value] + [v.value] == items;
      assert LeafItems(f, pgno, h, 1) == Some([k.value]);
      assert LeafItems(f, pgno, h, 2) == Some(items);
      NoPairs();
      LivePairsNext(items, 0);
      assert items[..0] == [] && items[..2] == items;
      var pairs := if k.value.deleted || v.value.deleted then [] else [Record(k.value.data, v.value.data)];
      assert LivePairs(items) == [] + pairs == pairs;
    }
  }

  /** Where the outer database says the wallet is. */
  lemma {:induction false} MainExactly(f: BDBFile, outer: Meta, main: nat)
    requires f.pagesize >= 512
    ensures MainSubdb(f, outer) == Some(main) <==> MainAt(f, outer.root, main)
  {
    hide BDBFile.NumPages, BDBFile.ReadHeader, LeafPairs, LivePair, Word16, Word32;
    var base := outer.root * f.pagesize;
    PageIsThere(f, outer.root);
    if outer.root < f.NumPages() {
      HeaderBytes(f, outer.root, base);
      if Word32(f, base + 8) == outer.root && Word16(f, base + 20) == 2 {
        var h := f.ReadHeader(outer.root).value;
        forall r: Record
          ensures LeafPairs(f, outer.root, h) == Some([r]) <==> LivePair(f, base, 2, 0, r)
        {
          OnePair(f, outer.root, h, base, r);
        }
        var pairs := LeafPairs(f, outer.root, h);
        if pairs.Some? && |pairs.value| == 1 {
          assert pairs.value == [pairs.value[0]];
        }
      }
    } else {
      NoHeader(f, outer.root);
    }
  }

  /** The number of whole pages, in 32 bits. */
  lemma {:induction false} PagesCounted(f: BDBFile, n: nat)
    requires f.pagesize > 0 && n < 0x1_0000_0000 && |f.buf| < 0x1_0000_0000 * f.pagesize
    ensures n == f.NumPages() <==> n * f.pagesize <= |f.buf| < (n + 1) * f.pagesize
  {
    var q := |f.buf| / f.pagesize;
    WholePages(|f.buf|, f.pagesize);
    Quotient(|f.buf|, f.pagesize, q);
    Quotient(|f.buf|, f.pagesize, n);
    if q >= 0x1_0000_0000 {
      MorePages(0x1_0000_0000, q, f.pagesize);
    }
  }

  lemma {:induction false} Quotient(size: nat, p: nat, q: nat)
    requires p > 0
    ensures q == size / p <==> q * p <= size < (q + 1) * p
  {
    var d := size / p;
    assert size == d * p + size % p;
    if q * p <= size < (q + 1) * p {
      RemainderIs(q, p, size - q * p);
      assert d * p == q * p;
      if d < q {
        MorePages(d + 1, q, p);
      } else if q < d {
        MorePages(q + 1, d, p);
      }
    }
  }

  /** The log sequence number of this page is reset to 0, 1. */
  ghost predicate LogReset(f: BDBFile, pgno: nat)
    requires f.pagesize >= 512
  {
    && PageAt(f, pgno, pgno * f.pagesize)
    && Word32(f, pgno * f.pagesize) == 0 && Word32(f, pgno * f.pagesize + 4) == 1
  }

  lemma {:induction false} FlushedBytes(f: BDBFile, pgno: nat)
    requires f.pagesize >= 512
    ensures Flushed(f, pgno) <==> LogReset(f, pgno)
  {
    hide BDBFile.NumPages, BDBFile.Get32, Word32;
    PageIsThere(f, pgno);
    WordsAreRead(f, pgno * f.pagesize);
    WordsAreRead(f, pgno * f.pagesize + 4);
  }

  /**
   * A wallet file that was closed cleanly: as many pages as the first one says, with the log sequence
   * number of each reset, and subdatabases, of which "main" has its metadata page here. The tree starts at
   * the root named there. The outer database has the first page, that metadata page and its own root.
   */
  ghost predicate Opens(f: BDBFile, main: nat, base: nat, root: nat, outer: set<nat>) {
    && f.pagesize >= 512 && MetaAt(f, 0, 0) && Word32(f, 32) + 1 == f.NumPages() && Word32(f, 48) == 0x20
    && MainAt(f, Word32(f, 88), main) && MetaAt(f, main, base) && root == Word32(f, base + 88)
    && outer == {0, main} + ({Word32(f, 88)} - {root})
    && AllReset(f)
  }

  ghost predicate AllReset(f: BDBFile)
    requires f.pagesize >= 512
  {
    forall pgno: nat | pgno < f.NumPages() :: LogReset(f, pgno)
  }

  lemma {:induction false} OpensExactly(buf: Bytes, w: Wallet)
    ensures OpenWallet(buf) == Some(w) <==>
            Begins(buf, w.f) && exists main: nat, base: nat :: Opens(w.f, main, base, w.root, w.outer)
  {
    hide Opens, Begins, OpenWallet, Open;
    var f := w.f;
    if OpenWallet(buf) == Some(w) {
      OpensIfRead(buf, w);
    }
    if Begins(buf, f) && exists main: nat, base: nat :: Opens(f, main, base, w.root, w.outer) {
      var main: nat, base: nat :| Opens(f, main, base, w.root, w.outer);
      ReadIfOpens(buf, w, main, base);
    }
  }

  lemma {:induction false} OpensIfRead(buf: Bytes, w: Wallet)
    requires OpenWallet(buf) == Some(w)
    ensures Begins(buf, w.f) && exists main: nat, base: nat :: Opens(w.f, main, base, w.root, w.outer)
  {
    hide MainSubdb, MainAt, MetaAt, LogReset, BDBFile.ReadMeta, BDBFile.NumPages, Word32, Open, Begins, Flushed;
    var (f, outer) := Open(buf).value;
    OpenBytes(buf);
    OpenedHere(buf);
    OpenExactly(buf, f, outer);
    MetaBytes(f, 0, 0);
    var main := MainSubdb(f, outer).value;
    MainExactly(f, outer, main);
    MetaBytes(f, main, main * f.pagesize);
    forall pgno: nat | pgno < f.NumPages()
      ensures LogReset(f, pgno)
    {
      FlushedBytes(f, pgno);
    }
    assert Opens(w.f, main, main * f.pagesize, w.root, w.outer);
  }

  lemma {:induction false} ReadIfOpens(buf: Bytes, w: Wallet, main: nat, base: nat)
    requires Begins(buf, w.f) && Opens(w.f, main, base, w.root, w.outer)
    ensures OpenWallet(buf) == Some(w)
  {
    hide MainSubdb, MainAt, MetaAt, LogReset, BDBFile.ReadMeta, BDBFile.NumPages, Word32, Open, Begins, Flushed;
    var f := w.f;
    MetaBytes(f, 0, 0);
    var outer := f.ReadMeta(0).value;
    OpenExactly(buf, f, outer);
    MainExactly(f, outer, main);
    MetaIsHere(f, main, base);
    MetaBytes(f, main, base);
    forall pgno: nat | pgno <= outer.lastPgno
      ensures Flushed(f, pgno)
    {
      FlushedBytes(f, pgno);
    }
    assert w.outer == {0, main} + if outer.root != w.root then {outer.root} else {};
  }

  lemma {:induction false} MetaIsHere(f: BDBFile, pgno: nat, base: nat)
    requires f.pagesize >= 512 && MetaAt(f, pgno, base)
    ensures pgno < f.NumPages() && base == pgno * f.pagesize
  {}
}
