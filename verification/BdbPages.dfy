/**
 * Pages of a Berkeley DB btree file, read from bytes that may say anything. A read returns None
 * where the source throws. Every access is inside the bytes; that is checked at each index and
 * slice below.
 */
module BdbPages {
  import opened Options
  import opened RawBytes
  import opened Sets

  type Bytes = seq<Byte>

  const BTREE_MAGIC: nat := 0x53162
  const BTREE_MAGIC_OE: nat := 0x62310500
  const P_IBTREE: nat := 3
  const P_LBTREE: nat := 5
  const P_OVERFLOW: nat := 7
  const P_BTREEMETA: nat := 9
  const B_KEYDATA: nat := 1
  const B_OVERFLOW: nat := 3
  const B_DELETE: nat := 0x80
  const BTM_SUBDB: nat := 0x20
  const PAGE_HEADER_SIZE: nat := 26
  const LEAF_LEVEL: nat := 1

  datatype Meta = Meta(lastPgno: nat, flags: nat, root: nat)

  datatype PageHeader = PageHeader(nextPgno: nat, entries: nat, hfOffset: nat, level: nat, kind: nat)

  datatype Item = Item(deleted: bool, data: Bytes)

  datatype Record = Record(key: Bytes, value: Bytes)

  function Big16(a: Byte, b: Byte): (v: nat)
    ensures v < 0x1_0000
  {
    a * 0x100 + b
  }

  function Big32(a: Byte, b: Byte, c: Byte, d: Byte): (v: nat)
    ensures v < 0x1_0000_0000
  {
    a * 0x100_0000 + b * 0x1_0000 + c * 0x100 + d
  }

  /** A larger number of pages takes at least as many bytes. */
  lemma {:induction false} MorePages(m: nat, n: nat, pagesize: nat)
    requires m <= n
    ensures m * pagesize <= n * pagesize
  {
    if m < n {
      MorePages(m, n - 1, pagesize);
      assert n * pagesize == (n - 1) * pagesize + pagesize;
    }
  }

  lemma {:induction false} WholePages(size: nat, pagesize: nat)
    requires pagesize > 0
    ensures size / pagesize * pagesize <= size
  {
    assert size == size / pagesize * pagesize + size % pagesize;
  }

  lemma {:induction false} PagesFit(size: nat, pagesize: nat, pgno: nat)
    requires pagesize > 0 && pgno < size / pagesize
    ensures pgno * pagesize + pagesize <= size
  {
    WholePages(size, pagesize);
    var n := size / pagesize;
    MorePages(pgno + 1, n, pagesize);
    assert (pgno + 1) * pagesize == pgno * pagesize + pagesize;
  }

  datatype BDBFile = BDBFile(buf: Bytes, otherEndian: bool, pagesize: nat)
  {
    /** Counted in 32 bits. */
    function NumPages(): nat {
      if pagesize == 0 then 0 else |buf| / pagesize % 0x1_0000_0000
    }

    function Get8(off: nat): Option<nat> {
      if off < |buf| then Some(buf[off]) else None
    }

    function Get16(off: nat): Option<nat> {
      if off + 2 > |buf| then None
      else if otherEndian then Some(Big16(buf[off], buf[off + 1]))
      else Some(Big16(buf[off + 1], buf[off]))
    }

    function Get32(off: nat): Option<nat> {
      if off + 4 > |buf| then None
      else if otherEndian then Some(Big32(buf[off], buf[off + 1], buf[off + 2], buf[off + 3]))
      else Some(Big32(buf[off + 3], buf[off + 2], buf[off + 1], buf[off]))
    }

    /** Where a page starts; all of it is there. */
    function PageOffset(pgno: nat): (base: Option<nat>)
      ensures base.Some? <==> pgno < NumPages()
      ensures base.Some? ==> base.value + pagesize <= |buf|
    {
      if pgno >= NumPages() then None
      else
        PagesFit(|buf|, pagesize, pgno);
        Some(pgno * pagesize)
    }

    function ReadMeta(pgno: nat): (m: Option<Meta>)
      ensures m.Some? ==> pgno < NumPages() && m.value.flags in {0, BTM_SUBDB}
    {
      var base :- PageOffset(pgno);
      var mPgno :- Get32(base + 8);
      var magic :- Get32(base + 12);
      var version :- Get32(base + 16);
      var mPagesize :- Get32(base + 20);
      var encryptAlg :- Get8(base + 24);
      var kind :- Get8(base + 25);
      var lastPgno :- Get32(base + 32);
      var flags :- Get32(base + 48);
      var root :- Get32(base + 88);
      if mPgno != pgno || magic != BTREE_MAGIC || version != 9 || mPagesize != pagesize || kind != P_BTREEMETA
         || encryptAlg != 0 || flags !in {0, BTM_SUBDB} then None
      else Some(Meta(lastPgno, flags, root))
    }

    function ReadHeader(pgno: nat): (h: Option<PageHeader>)
      ensures h.Some? ==> pgno < NumPages()
    {
      var base :- PageOffset(pgno);
      var lsnFile :- Get32(base);
      var lsnOffset :- Get32(base + 4);
      var hPgno :- Get32(base + 8);
      var prevPgno :- Get32(base + 12);
      var nextPgno :- Get32(base + 16);
      var entries :- Get16(base + 20);
      var hfOffset :- Get16(base + 22);
      var level :- Get8(base + 24);
      var kind :- Get8(base + 25);
      if hPgno != pgno then None else Some(PageHeader(nextPgno, entries, hfOffset, level, kind))
    }

    /** Where item i starts in its page: behind the index table, with minlen bytes left. */
    function ItemOffset(pgno: nat, h: PageHeader, i: nat, minlen: nat): (off: Option<nat>)
      ensures off.Some? ==> PAGE_HEADER_SIZE + 2 * h.entries <= off.value && off.value + minlen <= pagesize
    {
      var base :- PageOffset(pgno);
      if PAGE_HEADER_SIZE + 2 * i + 2 > pagesize then None
      else
        var off :- Get16(base + PAGE_HEADER_SIZE + 2 * i);
        if off < PAGE_HEADER_SIZE + 2 * h.entries || off + minlen > pagesize then None else Some(off)
    }

    // ---------- overflow chains ----------

    predicate OverflowPage(pgno: nat) {
      var h := ReadHeader(pgno);
      h.Some? && h.value.kind == P_OVERFLOW && h.value.level == 0 && PAGE_HEADER_SIZE + h.value.hfOffset <= pagesize
    }

    function Next(pgno: nat): nat
      requires OverflowPage(pgno)
    {
      ReadHeader(pgno).value.nextPgno
    }

    function Content(pgno: nat): Bytes
      requires OverflowPage(pgno)
    {
      var base := PageOffset(pgno).value + PAGE_HEADER_SIZE;
      buf[base..base + ReadHeader(pgno).value.hfOffset]
    }

    /** Following the links from `first` through exactly these overflow pages leads to `last`. */
    predicate Linked(first: nat, pages: seq<nat>, last: nat)
      decreases |pages|
    {
      if pages == [] then first == last
      else first == pages[0] && first != 0 && OverflowPage(first) && Linked(Next(first), pages[1..], last)
    }

    function Joined(first: nat, pages: seq<nat>, last: nat): Bytes
      requires Linked(first, pages, last)
      decreases |pages|
    {
      if pages == [] then [] else Content(first) + Joined(Next(first), pages[1..], last)
    }

    /** Such a chain ends, and it holds `total` bytes. */
    ghost predicate IsItem(first: nat, total: nat, pages: seq<nat>) {
      Linked(first, pages, 0) && |Joined(first, pages, 0)| == total
    }

    /** The bytes of the chain from page `first` to its end, if it ends and holds `total` bytes. */
    ghost function Overflow(first: nat, total: nat): Option<Bytes> {
      if exists pages :: IsItem(first, total, pages) then
        var pages :| IsItem(first, total, pages);
        Some(Joined(first, pages, 0))
      else None
    }
  }

  lemma {:induction false} Extend(f: BDBFile, first: nat, pages: seq<nat>, last: nat)
    requires f.Linked(first, pages, last) && last != 0 && f.OverflowPage(last)
    ensures f.Linked(first, pages + [last], f.Next(last))
    ensures f.Joined(first, pages + [last], f.Next(last)) == f.Joined(first, pages, last) + f.Content(last)
    decreases |pages|
  {
    hide BDBFile.OverflowPage, BDBFile.Next, BDBFile.Content;
    if pages == [] {
    } else {
      Extend(f, f.Next(first), pages[1..], last);
      assert (pages + [last])[1..] == pages[1..] + [last];
    }
  }

  /** A walk is the beginning of every chain that ends. */
  lemma {:induction false} WalkIsPrefix(f: BDBFile, first: nat, done: seq<nat>, last: nat, pages: seq<nat>)
    requires f.Linked(first, done, last) && f.Linked(first, pages, 0)
    ensures |done| <= |pages| && f.Linked(last, pages[|done|..], 0)
    ensures |f.Joined(first, pages, 0)| == |f.Joined(first, done, last)| + |f.Joined(last, pages[|done|..], 0)|
    ensures last == 0 ==> pages == done
    decreases |done|
  {
    hide BDBFile.OverflowPage, BDBFile.Next, BDBFile.Content;
    if done == [] {
      assert pages[0..] == pages;
    } else {
      WalkIsPrefix(f, f.Next(first), done[1..], last, pages[1..]);
      assert pages[1..][|done[1..]|..] == pages[|done|..];
    }
  }

  lemma {:induction false} WalkFrom(f: BDBFile, first: nat, done: seq<nat>, last: nat, j: nat)
    requires f.Linked(first, done, last) && j < |done|
    ensures f.Linked(done[j], done[j..], last)
    decreases j
  {
    hide BDBFile.OverflowPage, BDBFile.Next, BDBFile.Content;
    if j > 0 {
      WalkFrom(f, f.Next(first), done[1..], last, j - 1);
      assert done[1..][j - 1..] == done[j..];
    }
  }

  /** A walk that comes back to its start never ends. */
  lemma {:induction false} LoopNeverEnds(f: BDBFile, page: nat, loop: seq<nat>, pages: seq<nat>)
    requires f.Linked(page, loop, page) && |loop| > 0
    ensures !f.Linked(page, pages, 0)
    decreases |pages|
  {
    hide BDBFile.OverflowPage, BDBFile.Next, BDBFile.Content, BDBFile.Linked, BDBFile.Joined;
    if f.Linked(page, pages, 0) {
      WalkIsPrefix(f, page, loop, page, pages);
      LoopNeverEnds(f, page, loop, pages[|loop|..]);
    }
  }

  lemma {:induction false} WalkGoesOn(f: BDBFile, page: nat, pages: seq<nat>)
    requires f.Linked(page, pages, 0)
    ensures page == 0 || f.OverflowPage(page)
  {}

  lemma {:induction false} OverflowIs(f: BDBFile, first: nat, total: nat, pages: seq<nat>)
    requires f.Linked(first, pages, 0)
    ensures f.Overflow(first, total) ==
            if |f.Joined(first, pages, 0)| == total then Some(f.Joined(first, pages, 0)) else None
  {
    hide BDBFile.OverflowPage, BDBFile.Next, BDBFile.Content, BDBFile.Linked, BDBFile.Joined;
    forall others | f.Linked(first, others, 0)
      ensures others == pages
    {
      WalkIsPrefix(f, first, pages, 0, others);
    }
    if |f.Joined(first, pages, 0)| == total {
      assert f.IsItem(first, total, pages);
    }
  }

  lemma {:induction false} OverflowIsNone(f: BDBFile, first: nat, total: nat, done: seq<nat>, last: nat)
    requires f.Linked(first, done, last)
    requires last in done || (last != 0 && !f.OverflowPage(last)) || |f.Joined(first, done, last)| > total
    ensures f.Overflow(first, total) == None
  {
    hide BDBFile.OverflowPage, BDBFile.Next, BDBFile.Content, BDBFile.Linked, BDBFile.Joined;
    forall pages
      ensures !f.IsItem(first, total, pages)
    {
      if f.IsItem(first, total, pages) {
        WalkIsPrefix(f, first, done, last, pages);
        WalkGoesOn(f, last, pages[|done|..]);
        if last in done {
          var j: nat :| j < |done| && done[j] == last;
          WalkFrom(f, first, done, last, j);
          LoopNeverEnds(f, last, done[j..], pages[|done|..]);
        }
      }
    }
  }

  /** The tests on one page of a chain. */
  method ReadOverflowPage(f: BDBFile, pgno: nat) returns (r: Option<(Bytes, nat)>)
    ensures r.Some? <==> f.OverflowPage(pgno)
    ensures r.Some? ==> r.value == (f.Content(pgno), f.Next(pgno)) && pgno < f.NumPages()
  {
    hide BDBFile.PageOffset, BDBFile.NumPages;
    var h := f.ReadHeader(pgno);
    if h == None || h.value.kind != P_OVERFLOW || h.value.level != 0
      || PAGE_HEADER_SIZE + h.value.hfOffset > f.pagesize {
      return None;
    }
    var base := f.PageOffset(pgno).value + PAGE_HEADER_SIZE;
    r := Some((f.buf[base..base + h.value.hfOffset], h.value.nextPgno));
  }

  /** It ends on every input, never reads a page twice, and finds the chain if there is one. */
  method ReadOverflow(f: BDBFile, first: nat, total: nat) returns (r: Option<Bytes>)
    ensures r == f.Overflow(first, total)
  {
    hide BDBFile.OverflowPage, BDBFile.Next, BDBFile.Content, BDBFile.Linked, BDBFile.Joined, BDBFile.Overflow;
    var out: Bytes := [];
    var seen: set<nat> := {};
    var pgno := first;
    ghost var done: seq<nat> := [];
    NoWalk(f, first);
    while pgno != 0
      invariant f.Linked(first, done, pgno) && out == f.Joined(first, done, pgno)
      invariant (forall p :: p in seen <==> p in done) && (forall p | p in seen :: p < f.NumPages())
      decreases f.NumPages() - |seen|
    {
      if pgno in seen {
        OverflowIsNone(f, first, total, done, pgno);
        return None;
      }
      var page := ReadOverflowPage(f, pgno);
      if page == None {
        OverflowIsNone(f, first, total, done, pgno);
        return None;
      }
      Extend(f, first, done, pgno);
      SetBelow(seen + {pgno}, f.NumPages());
      out := out + page.value.0;
      seen := seen + {pgno};
      done := done + [pgno];
      pgno := page.value.1;
      if |out| > total {
        OverflowIsNone(f, first, total, done, pgno);
        return None;
      }
    }
    OverflowIs(f, first, total, done);
    r := if |out| == total then Some(out) else None;
  }

  lemma {:induction false} NoWalk(f: BDBFile, first: nat)
    ensures f.Linked(first, [], first) && f.Joined(first, [], first) == []
  {}

  // ---------- items of a leaf page ----------

  /** Item i of a leaf page. The bytes of a deleted overflow item are not read. */
  ghost function LeafItem(f: BDBFile, pgno: nat, h: PageHeader, i: nat): Option<Item> {
    var base :- f.PageOffset(pgno);
    var off :- f.ItemOffset(pgno, h, i, 3);
    var len :- f.Get16(base + off);
    var kind :- f.Get8(base + off + 2);
    var deleted := kind >= B_DELETE;
    if kind % B_DELETE == B_KEYDATA then
      if off + 3 + len > f.pagesize then None else Some(Item(deleted, f.buf[base + off + 3..base + off + 3 + len]))
    else if kind % B_DELETE == B_OVERFLOW then
      if off + 12 > f.pagesize then None
      else
        var first :- f.Get32(base + off + 4);
        var total :- f.Get32(base + off + 8);
        if deleted then Some(Item(true, []))
        else
          var data :- f.Overflow(first, total);
          Some(Item(false, data))
    else None
  }

  method ReadLeafItem(f: BDBFile, pgno: nat, h: PageHeader, i: nat) returns (r: Option<Item>)
    ensures r == LeafItem(f, pgno, h, i)
  {
    hide BDBFile.Overflow, BDBFile.PageOffset, BDBFile.NumPages, BDBFile.ItemOffset, Big16, Big32;
    var base :- f.PageOffset(pgno);
    var off :- f.ItemOffset(pgno, h, i, 3);
    // The item is inside its page, so these reads cannot fail.
    var len := f.Get16(base + off).value;
    var kind := f.Get8(base + off + 2).value;
    var deleted := kind >= B_DELETE;
    kind := kind % B_DELETE;
    if kind == B_KEYDATA {
      if off + 3 + len > f.pagesize {
        return None;
      }
      return Some(Item(deleted, f.buf[base + off + 3..base + off + 3 + len]));
    } else if kind == B_OVERFLOW {
      if off + 12 > f.pagesize {
        return None;
      }
      var first := f.Get32(base + off + 4).value;
      var total := f.Get32(base + off + 8).value;
      if deleted {
        return Some(Item(true, []));
      }
      var data :- ReadOverflow(f, first, total);
      return Some(Item(false, data));
    }
    return None;
  }

  /** The first n items, if all can be read. */
  ghost function LeafItems(f: BDBFile, pgno: nat, h: PageHeader, n: nat): (r: Option<seq<Item>>)
    ensures r.Some? ==> |r.value| == n
  {
    if n == 0 then Some([])
    else
      var items :- LeafItems(f, pgno, h, n - 1);
      var item :- LeafItem(f, pgno, h, n - 1);
      Some(items + [item])
  }

  lemma {:induction false} OneBadItem(f: BDBFile, pgno: nat, h: PageHeader, n: nat, i: nat)
    requires i < n && LeafItem(f, pgno, h, i) == None
    ensures LeafItems(f, pgno, h, n) == None
  {
    hide LeafItem;
    if i < n - 1 {
      OneBadItem(f, pgno, h, n - 1, i);
    }
  }

  method ReadLeafItems(f: BDBFile, pgno: nat, h: PageHeader) returns (r: Option<seq<Item>>)
    ensures r == LeafItems(f, pgno, h, h.entries)
  {
    hide LeafItem;
    var items := [];
    for i := 0 to h.entries
      invariant LeafItems(f, pgno, h, i) == Some(items)
    {
      var item := ReadLeafItem(f, pgno, h, i);
      if item == None {
        OneBadItem(f, pgno, h, h.entries, i);
        return None;
      }
      items := items + [item.value];
    }
    r := Some(items);
  }

  /** The pairs of which no half is deleted. */
  function LivePairs(items: seq<Item>): seq<Record> {
    if |items| < 2 then []
    else
      var k, v := items[|items| - 2], items[|items| - 1];
      LivePairs(items[..|items| - 2]) + if k.deleted || v.deleted then [] else [Record(k.data, v.data)]
  }

  lemma {:induction false} LivePairsNext(items: seq<Item>, i: nat)
    requires i + 2 <= |items|
    ensures LivePairs(items[..i + 2]) == LivePairs(items[..i]) +
            if items[i].deleted || items[i + 1].deleted then [] else [Record(items[i].data, items[i + 1].data)]
  {
    var prefix := items[..i + 2];
    assert prefix[..|prefix| - 2] == items[..i];
  }

  ghost function LeafPairs(f: BDBFile, pgno: nat, h: PageHeader): Option<seq<Record>> {
    var items :- LeafItems(f, pgno, h, h.entries);
    if |items| % 2 != 0 then None else Some(LivePairs(items))
  }

  lemma {:induction false} NoPairs()
    ensures LivePairs([]) == []
  {}

  method ReadLeafPairs(f: BDBFile, pgno: nat, h: PageHeader) returns (r: Option<seq<Record>>)
    ensures r == LeafPairs(f, pgno, h)
  {
    hide LivePairs, LeafItems;
    var items :- ReadLeafItems(f, pgno, h);
    if |items| % 2 != 0 {
      return None;
    }
    var out := [];
    var i := 0;
    NoPairs();
    assert items[..0] == [];
    while i < |items|
      invariant 0 <= i <= |items| && i % 2 == 0 && out == LivePairs(items[..i])
    {
      LivePairsNext(items, i);
      if !items[i].deleted && !items[i + 1].deleted {
        out := out + [Record(items[i].data, items[i + 1].data)];
      }
      i := i + 2;
    }
    assert items[..|items|] == items;
    r := Some(out);
  }

  // ---------- children of an internal page ----------

  /** The child item i of an internal page points to. A deleted item is refused. */
  function Child(f: BDBFile, pgno: nat, h: PageHeader, i: nat): Option<nat> {
    var base :- f.PageOffset(pgno);
    var off :- f.ItemOffset(pgno, h, i, 12);
    var len :- f.Get16(base + off);
    var kind :- f.Get8(base + off + 2);
    if kind != B_KEYDATA || off + 12 + len > f.pagesize then None else f.Get32(base + off + 4)
  }

  function Children(f: BDBFile, pgno: nat, h: PageHeader, n: nat): Option<seq<nat>> {
    if n == 0 then Some([])
    else
      var children :- Children(f, pgno, h, n - 1);
      var child :- Child(f, pgno, h, n - 1);
      Some(children + [child])
  }

  lemma {:induction false} OneBadChild(f: BDBFile, pgno: nat, h: PageHeader, n: nat, i: nat)
    requires i < n && Child(f, pgno, h, i) == None
    ensures Children(f, pgno, h, n) == None
  {
    hide Child;
    if i < n - 1 {
      OneBadChild(f, pgno, h, n - 1, i);
    }
  }

  /** The tests on one item of an internal page. */
  method ReadInternalChild(f: BDBFile, pgno: nat, h: PageHeader, i: nat) returns (r: Option<nat>)
    ensures r == Child(f, pgno, h, i)
  {
    hide BDBFile.PageOffset, BDBFile.NumPages, BDBFile.ItemOffset, Big16, Big32;
    var base :- f.PageOffset(pgno);
    var off :- f.ItemOffset(pgno, h, i, 12);
    // The item is inside its page, so these reads cannot fail.
    var len := f.Get16(base + off).value;
    var kind := f.Get8(base + off + 2).value;
    if kind % B_DELETE != B_KEYDATA {
      return None;
    }
    if off + 12 + len > f.pagesize {
      return None;
    }
    if kind >= B_DELETE {
      return None;
    }
    r := f.Get32(base + off + 4);
  }

  method ReadInternalChildren(f: BDBFile, pgno: nat, h: PageHeader) returns (r: Option<seq<nat>>)
    ensures r == Children(f, pgno, h, h.entries)
  {
    hide Child;
    var children := [];
    for i := 0 to h.entries
      invariant Children(f, pgno, h, i) == Some(children)
    {
      var child := ReadInternalChild(f, pgno, h, i);
      if child == None {
        OneBadChild(f, pgno, h, h.entries, i);
        return None;
      }
      children := children + [child.value];
    }
    r := Some(children);
  }
}
