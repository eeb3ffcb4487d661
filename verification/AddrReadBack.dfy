/**
 * Reading back what a consistent address manager wrote, and the two methods that write and read.
 * The stream is followed as it is read: first the new entries, then the tried ones, then slot by
 * slot the new table, with what has been read so far always a renamed part of what was written.
 */
module AddrReadBack {
  import opened AddrTables
  import opened AddrSteps
  import opened AddrMan
  import opened AddrSerial
  import opened Sets

  // ---------- a stream that was written ----------

  predicate Lists(t: Tables, all: seq<nat>) {
    forall n {:trigger all[n]} | 0 <= n < |all| :: all[n] in t.info
  }

  /** The first n entries of all, renamed to their numbers; only reference counts are still open. */
  ghost predicate Numbered(t: Tables, u: Tables, all: seq<nat>, n: nat)
    requires Lists(t, all) && n <= |all|
  {
    && u.nIdCount == n && |u.random| == n
    && (forall k: nat {:trigger u.info[k]} {:trigger all[k]} | k < n ::
          k in u.info && u.info[k] == t.info[all[k]].(nLastTry := 0, nRandomPos := k, nRefCount := u.info[k].nRefCount))
    && (forall k | k in u.info :: k < n)
  }

  /** A table of u says what the same table of t says. */
  ghost predicate Copied(from: Table, to: Table, all: seq<nat>) {
    forall s | s in to :: to[s] < |all| && s in from && from[s] == all[to[s]]
  }

  /** The next entry under the next number. */
  lemma {:induction false} NumberNext(t: Tables, u: Tables, v: Tables, all: seq<nat>, n: nat, i: Info)
    requires Lists(t, all) && n < |all| && Numbered(t, u, all, n)
    requires v.info == u.info[n := i] && v.nIdCount == n + 1 && |v.random| == n + 1
    requires i == t.info[all[n]].(nLastTry := 0, nRandomPos := n, nRefCount := i.nRefCount)
    ensures Numbered(t, v, all, n + 1)
  {}

  lemma {:induction false} NumberIsSize(t: Tables, u: Tables, all: seq<nat>, n: nat)
    requires Lists(t, all) && n <= |all| && Numbered(t, u, all, n)
    ensures u.nIdCount == |u.random| == n
  {}

  /** Entries of all, from number `first` on, as they were saved. */
  ghost predicate SavedFrom(t: Tables, all: seq<nat>, first: int, saved: seq<Saved>) {
    && 0 <= first && first + |saved| <= |all|
    && forall k {:trigger saved[k]} | 0 <= k < |saved| ::
       all[first + k] in t.info && saved[k] == Save(t.info[all[first + k]])
  }

  lemma {:induction false} SavedFromAt(t: Tables, all: seq<nat>, first: int, saved: seq<Saved>, k: nat)
    requires SavedFrom(t, all, first, saved) && k < |saved|
    ensures 0 <= first && first + k < |all| && all[first + k] in t.info && saved[k] == Save(t.info[all[first + k]])
  {
    var s := saved[k];
  }

  lemma {:induction false} EnumeratedAt(t: Tables, all: seq<nat>, n: nat)
    requires Enumerates(t, all) && n < |all|
    ensures Lists(t, all) && all[n] in t.info && t.info[all[n]].fInTried == (n >= t.nNew)
  {}

  lemma {:induction false} NewsCopied(h: Hashing, t: Tables, all: seq<nat>, news: seq<Saved>, n: nat)
    requires Enumerates(t, all) && Lists(t, all) && n <= |news| == t.nNew <= |all| && SavedFrom(t, all, 0, news)
    ensures var u := LoadNews(h, EMPTY, news[..n], true);
            && Numbered(t, u, all, n) && u.newTable == map[] && u.triedTable == map[] && u.nNew == n && u.nTried == 0
  {
    hide Numbered, HomeSlot, Lists, SavedFrom, Enumerates;
    if n == 0 {
      NothingNumbered(t, all);
    } else {
      NewsCopied(h, t, all, news, n - 1);
      assert news[..n][..n - 1] == news[..n - 1];
      var u := LoadNews(h, EMPTY, news[..n - 1], true);
      NumberIsSize(t, u, all, n - 1);
      SavedFromAt(t, all, 0, news, n - 1);
      EnumeratedAt(t, all, n - 1);
      NumberNext(t, u, LoadNew(h, u, news[n - 1], true), all, n - 1, Load(news[n - 1], n - 1));
    }
  }

  lemma {:induction false} NothingNumbered(t: Tables, all: seq<nat>)
    requires Lists(t, all)
    ensures Numbered(t, EMPTY, all, 0)
  {}

  /** What is known after n tried entries were read. */
  ghost predicate TriedsRead(t: Tables, u: Tables, all: seq<nat>, n: nat)
    requires Lists(t, all)
  {
    && 0 <= t.nNew && t.nNew + n <= |all| && Numbered(t, u, all, t.nNew + n)
    && u.newTable == map[] && Copied(t.triedTable, u.triedTable, all) && u.nNew == t.nNew && u.nTried == n
    && forall s | s in u.triedTable :: u.triedTable[s] < t.nNew + n
  }

  ghost predicate FreeFor(h: Hashing, t: Tables, u: Tables, id: nat) {
    id in t.info && var slot := h.TriedSlot(t.info[id].addr);
      slot !in u.triedTable && slot in t.triedTable && t.triedTable[slot] == id
  }

  /** No tried entry is lost: its slot is free. */
  lemma {:induction false} TriedSlotIsFree(h: Hashing, t: Tables, u: Tables, all: seq<nat>, n: nat)
    requires TriedOk(h, t) && Enumerates(t, all) && t.nNew + n < |all| && TriedsRead(t, u, all, n)
    ensures FreeFor(h, t, u, all[t.nNew + n]) && t.info[all[t.nNew + n]].fInTried
  {
    hide Numbered;
  }

  lemma {:induction false} TriedsCopied(h: Hashing, t: Tables, u: Tables, all: seq<nat>, trieds: seq<Saved>, n: nat)
    requires TriedOk(h, t) && Enumerates(t, all) && Lists(t, all) && |trieds| == |all| - t.nNew && n <= |trieds|
    requires SavedFrom(t, all, t.nNew, trieds) && TriedsRead(t, u, all, 0)
    ensures TriedsRead(t, LoadTrieds(h, u, trieds[..n]), all, n)
  {
    hide TriedOk, TriedsRead, LoadTried, FreeFor, SavedFrom, Enumerates, Lists;
    if n > 0 {
      TriedsCopied(h, t, u, all, trieds, n - 1);
      assert trieds[..n][..n - 1] == trieds[..n - 1];
      var v := LoadTrieds(h, u, trieds[..n - 1]);
      SavedFromAt(t, all, t.nNew, trieds, n - 1);
      TriedSlotIsFree(h, t, v, all, n - 1);
      LoadTriedCopies(h, t, v, all, n - 1);
    }
  }

  lemma {:induction false} LoadTriedCopies(h: Hashing, t: Tables, u: Tables, all: seq<nat>, n: nat)
    requires Lists(t, all) && t.nNew >= 0 && t.nNew + n < |all| && TriedsRead(t, u, all, n)
    requires FreeFor(h, t, u, all[t.nNew + n]) && t.info[all[t.nNew + n]].fInTried
    ensures TriedsRead(t, LoadTried(h, u, Save(t.info[all[t.nNew + n]])), all, n + 1)
  {
    hide Numbered, Lists;
    var m := t.nNew + n;
    NumberIsSize(t, u, all, m);
    NumberNext(t, u, LoadTried(h, u, Save(t.info[all[m]])), all, m, Load(Save(t.info[all[m]]), m).(fInTried := true));
  }

  /** Everything is there but for the rest of the new table. */
  ghost predicate NewRead(t: Tables, u: Tables, all: seq<nat>, bucket: nat, pos: nat)
    requires Lists(t, all)
  {
    && Numbered(t, u, all, |all|) && u.nNew == t.nNew && u.nTried == t.nTried && Copied(t.triedTable, u.triedTable, all)
    && Copied(t.newTable, u.newTable, all)
    && forall s | s in t.newTable :: s in u.newTable <==> Before(s, bucket, pos)
  }

  /** The entry that is next in the new table, under its number in the stream. */
  ghost predicate Next(h: Hashing, t: Tables, all: seq<nat>, s: Slot, k: nat) {
    && s in t.newTable && k < |all| && k < t.nNew && all[k] == t.newTable[s] && all[k] in t.info
    && s == h.NewSlot(t.info[all[k]].addr, s.bucket) && s.bucket < NEW_BUCKET_COUNT
    && t.info[all[k]].nRefCount == |Refs(t.newTable, all[k])| <= NEW_BUCKETS_PER_ADDRESS
  }

  lemma {:induction false} NextIsKnown(h: Hashing, t: Tables, s: Slot)
    requires Ok(h, t, {}, 0) && s in t.newTable
    ensures t.newTable[s] in t.info && Next(h, t, Order(t), s, Rank(t, t.newTable[s]))
  {
    hide AddrOk, RandomOk, TriedOk, TimesOk, IdsBelow, Refs;
    SlotKnown(h, t, {}, s);
    CountersAreRight(h, t);
    IdsFind(t, false, t.nIdCount, t.newTable[s]);
  }

  /** No reference is lost: the slot is free, and the entry has fewer references than it had. */
  lemma {:induction false} NextIsTaken(h: Hashing, t: Tables, u: Tables, all: seq<nat>, s: Slot, k: nat,
                                       loose: set<nat>)
    requires Lists(t, all) && NewRead(t, u, all, s.bucket, s.pos) && NewOk(h, u, loose) && Next(h, t, all, s, k)
    ensures Takes(h, u, s.bucket, k, true) && h.NewSlot(u.info[k].addr, s.bucket) == s
  {
    assert u.info[k].addr == t.info[all[k]].addr;
    assert !Before(s, s.bucket, s.pos);
    SmallerSet(Refs(u.newTable, k), Refs(t.newTable, all[k]), s);
  }

  lemma {:induction false} PutCopies(t: Tables, u: Tables, all: seq<nat>, s: Slot, k: nat)
    requires Lists(t, all) && NewRead(t, u, all, s.bucket, s.pos) && k < |all| && k in u.info
    requires s in t.newTable && all[k] == t.newTable[s]
    ensures NewRead(t, PutSlot(u, s, k), all, s.bucket, s.pos + 1)
  {
    hide Numbered;
    PutNumbered(t, u, all, s, k);
  }

  lemma {:induction false} PutNumbered(t: Tables, u: Tables, all: seq<nat>, s: Slot, k: nat)
    requires Lists(t, all) && Numbered(t, u, all, |all|) && k < |all| && k in u.info
    ensures Numbered(t, PutSlot(u, s, k), all, |all|)
  {}

  lemma {:induction false} SkipCopies(t: Tables, u: Tables, all: seq<nat>, s: Slot)
    requires Lists(t, all) && NewRead(t, u, all, s.bucket, s.pos) && s !in t.newTable
    ensures NewRead(t, u, all, s.bucket, s.pos + 1)
  {}

  lemma {:induction false} OkIsNew(h: Hashing, t: Tables, nets: set<NetAddr>)
    requires Ready(h, t, nets)
    ensures NewOk(h, t, Unplaced(t))
  {}

  lemma {:induction false} RowCopied(h: Hashing, t: Tables, u: Tables, nets: set<NetAddr>, bucket: nat, pos: nat)
    requires Ok(h, t, {}, 0) && Lists(t, Order(t)) && Ready(h, u, nets) && bucket < NEW_BUCKET_COUNT
    requires NewRead(t, u, Order(t), bucket, 0)
    ensures NewRead(t, LoadRow(h, u, bucket, Row(t, bucket, pos), true), Order(t), bucket, pos)
  {
    hide Ok, Lists, Ready, NewRead, Order, NewOk, Takes, Rank;
    if pos > 0 {
      RowCopied(h, t, u, nets, bucket, pos - 1);
      var row, s := Row(t, bucket, pos - 1), Slot(bucket, pos - 1);
      var v := LoadRow(h, u, bucket, row, true);
      if s in t.newTable {
        var k := Rank(t, t.newTable[s]);
        assert (row + [k])[..|row + [k]| - 1] == row;
        NextIsKnown(h, t, s);
        LoadRowReady(h, u, nets, bucket, row, true);
        OkIsNew(h, v, nets);
        NextIsTaken(h, t, v, Order(t), s, k, Unplaced(v));
        PutCopies(t, v, Order(t), s, k);
      } else {
        assert row + [] == row;
        SkipCopies(t, v, Order(t), s);
      }
    }
  }

  lemma {:induction false} RowIsDone(h: Hashing, t: Tables, u: Tables, all: seq<nat>, bucket: nat)
    requires NewOk(h, t, {}) && Lists(t, all) && NewRead(t, u, all, bucket, BUCKET_SIZE)
    ensures NewRead(t, u, all, bucket + 1, 0)
  {
    hide Numbered;
  }

  lemma {:induction false} RowsCopied(h: Hashing, t: Tables, u: Tables, nets: set<NetAddr>, rows: seq<seq<int>>, n: nat)
    requires Ok(h, t, {}, 0) && Lists(t, Order(t)) && Ready(h, u, nets) && n <= |rows| == NEW_BUCKET_COUNT
    requires forall b {:trigger rows[b]} | 0 <= b < |rows| :: rows[b] == Row(t, b, BUCKET_SIZE)
    requires NewRead(t, u, Order(t), 0, 0)
    ensures NewRead(t, LoadRows(h, u, rows[..n], true), Order(t), n, 0)
  {
    hide AddrOk, RandomOk, TriedOk, NewOk, CountsOk, TimesOk, Lists, Ready, NewRead, Order, LoadRow, Row;
    if n > 0 {
      RowsCopied(h, t, u, nets, rows, n - 1);
      assert rows[..n][..n - 1] == rows[..n - 1];
      assert rows[n - 1] == Row(t, n - 1, BUCKET_SIZE);
      var v := LoadRows(h, u, rows[..n - 1], true);
      LoadRowsReady(h, u, nets, rows[..n - 1], true);
      RowCopied(h, t, v, nets, n - 1, BUCKET_SIZE);
      RowIsDone(h, t, LoadRow(h, v, n - 1, rows[n - 1], true), Order(t), n - 1);
    } else {
      assert rows[..0] == [];
    }
  }

  // ---------- nothing is lost ----------

  /** u is t with entry all[n] renamed to n; positions and times of attempts are forgotten. */
  ghost predicate Renamed(t: Tables, u: Tables, all: seq<nat>) {
    && Enumerates(t, all) && u.nIdCount == |all|
    && (forall k: nat {:trigger u.info[k]} {:trigger all[k]} | k < |all| ::
          k in u.info && u.info[k] == t.info[all[k]].(nLastTry := 0, nRandomPos := k))
    && (forall k | k in u.info :: k < |all|)
    && u.newTable.Keys == t.newTable.Keys && Copied(t.newTable, u.newTable, all)
    && u.triedTable.Keys == t.triedTable.Keys && Copied(t.triedTable, u.triedTable, all)
    && u.nNew == t.nNew && u.nTried == t.nTried
  }

  /** The addresses are the same. */
  lemma {:induction false} SameAddresses(t: Tables, u: Tables, all: seq<nat>)
    requires Renamed(t, u, all) && AddrOk(t) && AddrOk(u)
    ensures u.addr.Keys == t.addr.Keys
  {
    forall a | a in t.addr
      ensures a in u.addr
    {
      var k :| 0 <= k < |all| && all[k] == t.addr[a];
      assert u.info[k].addr.net == a;
    }
    forall a | a in u.addr
      ensures a in t.addr
    {
      assert t.info[all[u.addr[a]]].addr.net == a;
    }
  }

  lemma {:induction false} SameRefs(h: Hashing, t: Tables, u: Tables, all: seq<nat>, k: nat, loose: set<nat>)
    requires NewOk(h, t, {}) && NewOk(h, u, loose) && Enumerates(t, all) && k < |all| && k in u.info
    requires u.newTable.Keys == t.newTable.Keys && Copied(t.newTable, u.newTable, all)
    ensures u.info[k].nRefCount == t.info[all[k]].nRefCount
  {
    assert Refs(u.newTable, k) == Refs(t.newTable, all[k]);
  }

  lemma {:induction false} SavedAt(h: Hashing, t: Tables)
    requires Ok(h, t, {}, 0)
    ensures Enumerates(t, Order(t)) && Lists(t, Order(t)) && |DumpOf(t).news| == t.nNew
            && |DumpOf(t).trieds| == t.nTried
    ensures SavedFrom(t, Order(t), 0, DumpOf(t).news) && SavedFrom(t, Order(t), t.nNew, DumpOf(t).trieds)
  {
    hide AddrOk, RandomOk, TriedOk, NewOk, CountsOk, TimesOk, Row, IdsBelow;
    CountersAreRight(h, t);
    OrderIsComplete(h, t);
  }

  lemma {:induction false} WrittenDiffers(h: Hashing, t: Tables, i: nat, j: nat)
    requires Ok(h, t, {}, 0) && i < j < |Order(t)|
    ensures Order(t)[i] in t.info && Order(t)[j] in t.info
    ensures t.info[Order(t)[i]].addr.net != t.info[Order(t)[j]].addr.net
  {
    hide RandomOk, TriedOk, NewOk, CountsOk, TimesOk, Order;
    OrderIsComplete(h, t);
  }

  lemma {:induction false} WrittenTimes(h: Hashing, t: Tables, id: nat)
    requires Ok(h, t, {}, 0) && id in t.info
    ensures t.info[id].nLastSuccess >= if t.info[id].fInTried then 1 else 0
  {}

  /** What is written is a complete stream of sound entries with a usable bucket table. */
  lemma {:induction false} WrittenIsSound(h: Hashing, t: Tables)
    requires Ok(h, t, {}, 0)
    ensures Complete(DumpOf(t)) && Sound(DumpOf(t)) && Usable(DumpOf(t))
  {
    hide Ok, Order, DumpOf;
    var d, all := DumpOf(t), Order(t);
    SavedAt(h, t);
    WrittenHead(t);
    forall i, j | 0 <= i < j < |d.news + d.trieds|
      ensures (d.news + d.trieds)[i].addr.net != (d.news + d.trieds)[j].addr.net
    {
      WrittenDiffers(h, t, i, j);
    }
    forall k | 0 <= k < |all|
      ensures t.info[all[k]].nLastSuccess >= if t.info[all[k]].fInTried then 1 else 0
    {
      WrittenTimes(h, t, all[k]);
    }
  }

  lemma {:induction false} WrittenHead(t: Tables)
    ensures var d := DumpOf(t);
            && d.nVersion == 1 && d.nNew == t.nNew && d.nTried == t.nTried
            && Buckets(d) == NEW_BUCKET_COUNT == |d.buckets|
            && forall b {:trigger d.buckets[b]} | 0 <= b < |d.buckets| :: d.buckets[b] == Row(t, b, BUCKET_SIZE)
  {}

  /** Everything is read but the new table. */
  lemma {:induction false} EntriesCopied(h: Hashing, t: Tables)
    requires Ok(h, t, {}, 0)
    ensures Lists(t, Order(t)) && NewRead(t, Entries(h, DumpOf(t)), Order(t), 0, 0)
  {
    hide AddrOk, RandomOk, TriedOk, NewOk, CountsOk, TimesOk, Order, DumpOf, LoadNews, LoadTrieds, Numbered, SavedFrom;
    var d, all := DumpOf(t), Order(t);
    SavedAt(h, t);
    WrittenIsSound(h, t);
    NewsCopied(h, t, all, d.news, t.nNew);
    assert d.news[..t.nNew] == d.news && d.trieds[..t.nTried] == d.trieds;
    NewIsOk(h, t, {}, 0);
    TriedsCopied(h, t, LoadNews(h, EMPTY, d.news, true), all, d.trieds, t.nTried);
  }

  lemma {:induction false} LoadedCopied(h: Hashing, t: Tables)
    requires Ok(h, t, {}, 0)
    ensures Lists(t, Order(t)) && NewRead(t, Loaded(h, DumpOf(t)), Order(t), NEW_BUCKET_COUNT, 0)
  {
    hide Ok, Order, DumpOf, NewRead, Entries, Lists, Ready, LoadRows;
    var d := DumpOf(t);
    EntriesCopied(h, t);
    WrittenHead(t);
    WrittenIsSound(h, t);
    LoadedIsReady(h, d);
    assert d.buckets[..NEW_BUCKET_COUNT] == d.buckets;
    RowsCopied(h, t, Entries(h, d), Nets(d.news + d.trieds), d.buckets, NEW_BUCKET_COUNT);
  }

  lemma {:induction false} NewTableIsBack(h: Hashing, t: Tables, u: Tables, all: seq<nat>)
    requires NewOk(h, t, {}) && Lists(t, all) && NewRead(t, u, all, NEW_BUCKET_COUNT, 0)
    ensures u.newTable.Keys == t.newTable.Keys
  {
    hide Numbered;
  }

  lemma {:induction false} TriedTableIsBack(h: Hashing, t: Tables, u: Tables, all: seq<nat>)
    requires TriedOk(h, t) && TriedOk(h, u) && Enumerates(t, all) && NewRead(t, u, all, NEW_BUCKET_COUNT, 0)
    ensures u.triedTable.Keys == t.triedTable.Keys
  {
    forall s | s in t.triedTable
      ensures s in u.triedTable
    {
      var k :| 0 <= k < |all| && all[k] == t.triedTable[s];
      assert u.info[k].fInTried && u.info[k].addr == t.info[all[k]].addr;
    }
  }

  lemma {:induction false} NothingToPrune(t: Tables, n: nat)
    requires forall id: nat :: !Idle(t, id)
    ensures Pruned(t, n) == t
  {
    hide Idle;
    if n > 0 {
      NothingToPrune(t, n - 1);
    }
  }

  lemma {:induction false} NothingIdle(h: Hashing, t: Tables, u: Tables, all: seq<nat>, id: nat)
    requires TriedOk(h, t) && NewOk(h, t, {}) && Renamed(t, u, all)
    ensures !Idle(u, id)
  {
    if id in u.info {
      WantedIsTried(h, t, all[id]);
    }
  }

  lemma {:induction false} ReadIsRenamed(t: Tables, u: Tables, all: seq<nat>)
    requires Enumerates(t, all) && NewRead(t, u, all, NEW_BUCKET_COUNT, 0)
    requires u.newTable.Keys == t.newTable.Keys && u.triedTable.Keys == t.triedTable.Keys
    requires forall k: nat | k < |all| :: k in u.info && u.info[k].nRefCount == t.info[all[k]].nRefCount
    ensures Renamed(t, u, all)
  {
    hide Copied, Enumerates;
  }

  lemma {:induction false} RefsAreBack(h: Hashing, t: Tables, u: Tables, all: seq<nat>, loose: set<nat>)
    requires NewOk(h, t, {}) && NewOk(h, u, loose) && Enumerates(t, all) && NewRead(t, u, all, NEW_BUCKET_COUNT, 0)
    requires u.newTable.Keys == t.newTable.Keys
    ensures forall k: nat | k < |all| :: k in u.info && u.info[k].nRefCount == t.info[all[k]].nRefCount
  {
    hide NewOk, Copied;
    forall k: nat | k < |all|
      ensures k in u.info && u.info[k].nRefCount == t.info[all[k]].nRefCount
    {
      assert all[k] in t.info;
      SameRefs(h, t, u, all, k, loose);
    }
  }

  lemma {:induction false} LoadedIsRenamed(h: Hashing, t: Tables)
    requires Ok(h, t, {}, 0)
    ensures Renamed(t, Loaded(h, DumpOf(t)), Order(t))
  {
    hide AddrOk, RandomOk, TriedOk, NewOk, CountsOk, TimesOk, Order, DumpOf, Loaded, Unplaced, NewRead, Renamed, Lists,
         Enumerates;
    var u, all := Loaded(h, DumpOf(t)), Order(t);
    OrderIsComplete(h, t);
    LoadedCopied(h, t);
    WrittenIsSound(h, t);
    LoadedIsReady(h, DumpOf(t));
    NewIsOk(h, t, {}, 0);
    NewIsOk(h, u, Unplaced(u), 0);
    NewTableIsBack(h, t, u, all);
    TriedTableIsBack(h, t, u, all);
    RefsAreBack(h, t, u, all, Unplaced(u));
    ReadIsRenamed(t, u, all);
  }

  /**
   * Reading back what a consistent manager wrote loses nothing: the same entries under new ids,
   * in the same slots of both tables, and nothing is pruned.
   */
  lemma {:induction false} ReadBack(h: Hashing, t: Tables)
    requires Ok(h, t, {}, 0)
    ensures Restored(h, DumpOf(t)) == Loaded(h, DumpOf(t))
    ensures Renamed(t, Restored(h, DumpOf(t)), Order(t)) && Ok(h, Restored(h, DumpOf(t)), {}, 0)
    ensures Restored(h, DumpOf(t)).addr.Keys == t.addr.Keys
  {
    hide AddrOk, RandomOk, TriedOk, NewOk, CountsOk, TimesOk, Order, DumpOf, Loaded, Renamed, Idle, Pruned;
    var u := Loaded(h, DumpOf(t));
    LoadedIsRenamed(h, t);
    forall id: nat
      ensures !Idle(u, id)
    {
      NothingIdle(h, t, u, Order(t), id);
    }
    NothingToPrune(u, u.nIdCount);
    WrittenIsSound(h, t);
    RestoredIsOk(h, DumpOf(t));
    SameAddresses(t, u, Order(t));
  }

  // ---------- Serialize ----------

  lemma {:induction false} SaveNext(t: Tables, ids: seq<nat>, id: nat)
    requires Lists(t, ids) && id in t.info
    ensures SaveAll(t, ids + [id]) == SaveAll(t, ids) + [Save(t.info[id])]
  {
    var all := ids + [id];
    assert forall k {:trigger all[k]} | 0 <= k < |ids| :: all[k] == ids[k];
  }

  /** Serialize; the asserts are those of the source. */
  method Serialize(m: CAddrMan) returns (d: Dump)
    requires m.Valid()
    ensures d == DumpOf(m.State())
  {
    hide Ok, Filled, CAddrMan.Sized;
    ghost var t := m.State();
    CountersAreRight(m.h, t);
    var news, mapUnkIds := WriteNews(m);
    var trieds := WriteTrieds(m);
    var buckets := [];
    for bucket := 0 to NEW_BUCKET_COUNT
      invariant |buckets| == bucket
                && forall b {:trigger buckets[b]} | 0 <= b < bucket :: buckets[b] == Row(t, b, BUCKET_SIZE)
    {
      var row := WriteRow(m, bucket, mapUnkIds);
      buckets := buckets + [row];
    }
    d := Dump(1, m.nNew, m.nTried, Flip30(NEW_BUCKET_COUNT), news, trieds, buckets);
  }

  lemma {:induction false} IdsAreKnown(h: Hashing, t: Tables, id: nat)
    requires Ok(h, t, {}, 0) && id in t.info
    ensures id < t.nIdCount && (t.info[id].nRefCount != 0 <==> !t.info[id].fInTried)
    ensures |IdsBelow(t, t.info[id].fInTried, id)| < if t.info[id].fInTried then t.nTried else t.nNew
  {
    hide AddrOk, RandomOk, TriedOk, NewOk, TimesOk, IdsBelow;
    CountersAreRight(h, t);
    WantedIsTried(h, t, id);
    IdsFind(t, t.info[id].fInTried, t.nIdCount, id);
  }

  method WriteNews(m: CAddrMan) returns (news: seq<Saved>, mapUnkIds: map<nat, int>)
    requires m.Valid()
    ensures news == SaveAll(m.State(), IdsBelow(m.State(), false, m.nIdCount))
    ensures forall id | id in m.mapInfo :: id in mapUnkIds && mapUnkIds[id] == Rank(m.State(), id)
  {
    hide Ok, Filled, CAddrMan.Sized, SaveAll;
    ghost var t := m.State();
    news, mapUnkIds := [], map[];
    var nIds := 0;
    SaveNothing(t);
    for id := 0 to m.nIdCount
      invariant nIds == |news| == |IdsBelow(t, false, id)| && news == SaveAll(t, IdsBelow(t, false, id))
      invariant forall k | k in m.mapInfo && k < id :: k in mapUnkIds && mapUnkIds[k] == Rank(t, k)
    {
      assert IdsBelow(t, false, id) + [] == IdsBelow(t, false, id);
      if id in m.mapInfo {
        mapUnkIds := mapUnkIds[id := nIds];
        IdsAreKnown(m.h, t, id);
        if m.mapInfo[id].nRefCount != 0 {
          assert nIds != m.nNew;
          SaveNext(t, IdsBelow(t, false, id), id);
          news := news + [Save(m.mapInfo[id])];
          nIds := nIds + 1;
        }
      }
    }
    forall id | id in m.mapInfo
      ensures id < m.nIdCount
    {
      IdsAreKnown(m.h, t, id);
    }
  }

  lemma {:induction false} SaveNothing(t: Tables)
    ensures SaveAll(t, []) == []
  {}

  method WriteTrieds(m: CAddrMan) returns (trieds: seq<Saved>)
    requires m.Valid()
    ensures trieds == SaveAll(m.State(), IdsBelow(m.State(), true, m.nIdCount))
  {
    hide Ok, Filled, CAddrMan.Sized, SaveAll;
    ghost var t := m.State();
    trieds := [];
    var nIds := 0;
    SaveNothing(t);
    for id := 0 to m.nIdCount
      invariant nIds == |trieds| == |IdsBelow(t, true, id)| && trieds == SaveAll(t, IdsBelow(t, true, id))
    {
      assert IdsBelow(t, true, id) + [] == IdsBelow(t, true, id);
      if id in m.mapInfo && m.mapInfo[id].fInTried {
        IdsAreKnown(m.h, t, id);
        assert nIds != m.nTried;
        SaveNext(t, IdsBelow(t, true, id), id);
        trieds := trieds + [Save(m.mapInfo[id])];
        nIds := nIds + 1;
      }
    }
  }

  method WriteRow(m: CAddrMan, bucket: nat, mapUnkIds: map<nat, int>) returns (row: seq<int>)
    requires m.Valid() && bucket < NEW_BUCKET_COUNT
    requires forall id | id in m.mapInfo :: id in mapUnkIds && mapUnkIds[id] == Rank(m.State(), id)
    ensures row == Row(m.State(), bucket, BUCKET_SIZE)
  {
    hide AddrOk, RandomOk, TriedOk, NewOk, CountsOk, TimesOk, Filled, Rank;
    ghost var t := m.State();
    row := [];
    for i := 0 to BUCKET_SIZE
      invariant row == Row(t, bucket, i)
    {
      FilledAt(m.vvNew, bucket, i);
      if m.vvNew[bucket, i] != -1 {
        SlotKnown(m.h, t, {}, Slot(bucket, i));
        row := row + [mapUnkIds[m.vvNew[bucket, i]]];
      }
    }
  }

  // ---------- Unserialize ----------

  /** The counters as the source has them while it reads: right from the start. */
  ghost function Counted(t: Tables, d: Dump, nIdCount: nat): Tables {
    t.(nNew := d.nNew, nTried := d.nTried, nIdCount := nIdCount)
  }

  method ReadNew(m: CAddrMan, s: Saved, n: nat, usable: bool, ghost u: Tables, ghost d: Dump)
    requires m.Sized() && m.State() == Counted(u, d, 0) && n == u.nIdCount
    modifies m`mapInfo, m`mapAddr, m`vRandom, m.vvNew
    ensures m.Sized() && m.State() == Counted(LoadNew(m.h, u, s, usable), d, 0)
  {
    hide Filled;
    m.mapInfo := m.mapInfo[n := Load(s, |m.vRandom|)];
    m.mapAddr := m.mapAddr[s.addr.net := n];
    m.vRandom := m.vRandom + [n];
    if !usable {
      var slot := m.h.NewSlot(s.addr, m.h.NewBucket(s.addr, s.source));
      FilledAt(m.vvNew, slot.bucket, slot.pos);
      if m.vvNew[slot.bucket, slot.pos] == -1 {
        m.PutIntoNew(n, slot);
      }
    }
  }

  method ReadTried(m: CAddrMan, s: Saved, ghost u: Tables, ghost d: Dump) returns (lost: bool)
    requires m.Sized() && m.State() == Counted(u, d, u.nIdCount)
    modifies m`mapInfo, m`mapAddr, m`vRandom, m`nIdCount, m.vvTried
    ensures m.Sized() && m.State() == Counted(LoadTried(m.h, u, s), d, LoadTried(m.h, u, s).nIdCount)
    ensures LoadTried(m.h, u, s).nTried == if lost then u.nTried else u.nTried + 1
  {
    hide Filled;
    var slot := m.h.TriedSlot(s.addr);
    FilledAt(m.vvTried, slot.bucket, slot.pos);
    lost := m.vvTried[slot.bucket, slot.pos] != -1;
    if !lost {
      KeepTried(m, Load(s, -1), slot);
      ghost var i := Load(s, |u.random|);
      assert u.info[u.nIdCount := i][u.nIdCount := i.(fInTried := true)] == u.info[u.nIdCount := i.(fInTried := true)];
    }
  }

  /** The entry is put in its free slot, under the next id. */
  method KeepTried(m: CAddrMan, i: Info, slot: Slot)
    requires m.Sized() && slot.bucket < TRIED_BUCKET_COUNT && slot.pos < BUCKET_SIZE
    modifies m`mapInfo, m`mapAddr, m`vRandom, m`nIdCount, m.vvTried
    ensures m.Sized()
    ensures var t := old(m.State());
            m.State() ==
              t.(info := t.info[t.nIdCount := i.(nRandomPos := |t.random|, fInTried := true)],
                 addr := t.addr[i.addr.net := t.nIdCount], random := t.random + [t.nIdCount],
                 triedTable := t.triedTable[slot := t.nIdCount], nIdCount := t.nIdCount + 1)
  {
    hide Filled;
    var info := i.(nRandomPos := |m.vRandom|, fInTried := true);
    m.vRandom := m.vRandom + [m.nIdCount];
    m.mapInfo := m.mapInfo[m.nIdCount := info];
    m.mapAddr := m.mapAddr[info.addr.net := m.nIdCount];
    Write(m.vvTried, slot, m.nIdCount);
    m.nIdCount := m.nIdCount + 1;
  }

  method ReadNews(m: CAddrMan, d: Dump, usable: bool)
    requires m.Sized() && m.State() == Counted(EMPTY, d, 0) && |d.news| == d.nNew
    modifies m, m.vvNew
    ensures m.Sized()
    ensures m.State() == Counted(LoadNews(m.h, EMPTY, d.news, usable), d, |d.news|)
  {
    hide Filled, CAddrMan.Sized, LoadNew;
    for n := 0 to |d.news|
      invariant m.Sized() && m.State() == Counted(LoadNews(m.h, EMPTY, d.news[..n], usable), d, 0)
    {
      assert d.news[..n + 1][..n] == d.news[..n];
      ghost var u := LoadNews(m.h, EMPTY, d.news[..n], usable);
      LoadNewsOrder(m.h, d.news[..n], usable);
      ReadNew(m, d.news[n], n, usable, u, d);
    }
    assert d.news[..|d.news|] == d.news;
    m.nIdCount := m.nNew;
  }

  method ReadTrieds(m: CAddrMan, d: Dump, ghost u: Tables)
    requires m.Sized() && m.State() == Counted(u, d, u.nIdCount) && |d.trieds| == d.nTried && u.nTried == 0
             && u.nNew == d.nNew
    modifies m, m.vvTried
    ensures m.Sized() && m.State() == LoadTrieds(m.h, u, d.trieds)
  {
    hide Filled, CAddrMan.Sized, LoadTried;
    var nLost := 0;
    for n := 0 to |d.trieds|
      invariant m.Sized()
                && m.State() ==
                   Counted(LoadTrieds(m.h, u, d.trieds[..n]), d, LoadTrieds(m.h, u, d.trieds[..n]).nIdCount)
      invariant LoadTrieds(m.h, u, d.trieds[..n]).nTried == n - nLost
    {
      assert d.trieds[..n + 1][..n] == d.trieds[..n];
      var lost := ReadTried(m, d.trieds[n], LoadTrieds(m.h, u, d.trieds[..n]), d);
      if lost {
        nLost := nLost + 1;
      }
    }
    assert d.trieds[..|d.trieds|] == d.trieds;
    LoadTriedsCounts(m.h, u, d.trieds);
    m.nTried := m.nTried - nLost;
  }

  lemma {:induction false} LoadTriedsCounts(h: Hashing, t: Tables, trieds: seq<Saved>)
    ensures var u := LoadTrieds(h, t, trieds); u.nNew == t.nNew && t.info.Keys <= u.info.Keys
  {
    if trieds != [] {
      LoadTriedsCounts(h, t, trieds[..|trieds| - 1]);
    }
  }

  lemma {:induction false} LoadNewsCounts(h: Hashing, news: seq<Saved>, usable: bool)
    ensures var u := LoadNews(h, EMPTY, news, usable);
            u.nTried == 0 && u.nNew == u.nIdCount == |news| && forall id: nat | id < |news| :: id in u.info
  {
    if news != [] {
      LoadNewsCounts(h, news[..|news| - 1], usable);
    }
  }

  method ReadEntries(m: CAddrMan, d: Dump)
    requires m.Sized() && m.State() == EMPTY && |d.news| == d.nNew && |d.trieds| == d.nTried
    modifies m, m.vvNew, m.vvTried
    ensures m.Sized() && m.State() == Entries(m.h, d)
    ensures m.nNew == d.nNew && forall id: nat | id < m.nNew :: id in m.mapInfo
  {
    hide Filled, CAddrMan.Sized, LoadNews, LoadTrieds;
    ghost var u := LoadNews(m.h, EMPTY, d.news, Usable(d));
    LoadNewsCounts(m.h, d.news, Usable(d));
    LoadTriedsCounts(m.h, u, d.trieds);
    m.nNew, m.nTried := d.nNew, d.nTried;
    ReadNews(m, d, Usable(d));
    ReadTrieds(m, d, u);
  }

  method ReadIndex(m: CAddrMan, bucket: nat, index: int, usable: bool)
    requires m.Sized() && (usable ==> bucket < NEW_BUCKET_COUNT) && forall id: nat | id < m.nNew :: id in m.mapInfo
    modifies m`mapInfo, m.vvNew
    ensures m.Sized() && m.State() == LoadIndex(m.h, old(m.State()), bucket, index, usable)
    ensures m.mapInfo.Keys == old(m.mapInfo).Keys
  {
    hide Filled;
    if 0 <= index < m.nNew {
      var slot := m.h.NewSlot(m.mapInfo[index].addr, bucket);
      if usable {
        FilledAt(m.vvNew, bucket, slot.pos);
        if m.vvNew[bucket, slot.pos] == -1 && m.mapInfo[index].nRefCount < NEW_BUCKETS_PER_ADDRESS {
          m.PutIntoNew(index, slot);
        }
      }
    }
  }

  method ReadRow(m: CAddrMan, bucket: nat, row: seq<int>, usable: bool)
    requires m.Sized() && (usable ==> bucket < NEW_BUCKET_COUNT) && forall id: nat | id < m.nNew :: id in m.mapInfo
    modifies m`mapInfo, m.vvNew
    ensures m.Sized() && m.State() == LoadRow(m.h, old(m.State()), bucket, row, usable)
    ensures m.mapInfo.Keys == old(m.mapInfo).Keys
  {
    hide Filled, CAddrMan.Sized, LoadIndex;
    ghost var t := m.State();
    for n := 0 to |row|
      invariant m.Sized() && m.State() == LoadRow(m.h, t, bucket, row[..n], usable) && m.mapInfo.Keys == t.info.Keys
    {
      assert row[..n + 1][..n] == row[..n];
      ReadIndex(m, bucket, row[n], usable);
    }
    assert row[..|row|] == row;
  }

  method ReadBuckets(m: CAddrMan, d: Dump)
    requires m.Sized() && |d.buckets| == Later(0, Buckets(d)) && forall id: nat | id < m.nNew :: id in m.mapInfo
    modifies m`mapInfo, m.vvNew
    ensures m.Sized() && m.State() == LoadRows(m.h, old(m.State()), d.buckets, Usable(d))
  {
    hide Filled, CAddrMan.Sized, LoadRow;
    ghost var t := m.State();
    for bucket := 0 to |d.buckets|
      invariant m.Sized() && m.State() == LoadRows(m.h, t, d.buckets[..bucket], Usable(d))
                && m.mapInfo.Keys == t.info.Keys
    {
      assert d.buckets[..bucket + 1][..bucket] == d.buckets[..bucket];
      ReadRow(m, bucket, d.buckets[bucket], Usable(d));
    }
    assert d.buckets[..|d.buckets|] == d.buckets;
  }

  /** Entries that no bucket took are deleted. */
  method Prune(m: CAddrMan, d: Dump)
    requires m.Sized() && m.State() == Loaded(m.h, d)
    modifies m`mapInfo, m`mapAddr, m`vRandom, m`nNew
    ensures m.Sized() && m.State() == Restored(m.h, d)
  {
    hide Filled, CAddrMan.Sized, Loaded, CanDelete, Delete, Orderly;
    for id := 0 to m.nIdCount
      invariant m.Sized() && m.State() == Pruned(Loaded(m.h, d), id)
    {
      PruningIsSafe(m.h, d, id);
      if id in m.mapInfo && !m.mapInfo[id].fInTried && m.mapInfo[id].nRefCount == 0 {
        m.DeleteEntry(id);
      }
    }
  }

  lemma {:induction false} RestoredIfSound(h: Hashing, d: Dump)
    requires Complete(d)
    ensures Sound(d) ==> Ok(h, Restored(h, d), {}, 0)
  {
    hide Ok, Complete, Sound, Restored;
    if Sound(d) {
      RestoredIsOk(h, d);
    }
  }

  /**
   * Unserialize, into a manager just constructed with the key in the stream. Whatever the stream
   * says, no assert of Delete fires.
   */
  method Unserialize(h: Hashing, d: Dump) returns (m: CAddrMan)
    requires Complete(d)
    ensures fresh(m) && fresh(m.vvNew) && fresh(m.vvTried) && m.h == h && m.Sized()
    ensures m.State() == Restored(h, d)
    ensures Sound(d) ==> m.Valid()
  {
    hide Ok, Filled, Sound, Restored, CAddrMan.Sized, Entries, LoadRows;
    m := new CAddrMan(h);
    ReadEntries(m, d);
    ReadBuckets(m, d);
    Prune(m, d);
    RestoredIfSound(h, d);
  }
}
