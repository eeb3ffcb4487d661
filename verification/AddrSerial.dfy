/**
 * Writing the address manager to disk and reading it back. Most of its state is dropped when it
 * is written: ids are renumbered, indexes, reference counts and positions are rebuilt. Reading
 * back what a consistent manager wrote is proved to lose nothing but the ids.
 *
 * The stream is a record with one field for each group of values the source writes; how single
 * values are encoded is not part of this model.
 */
module AddrSerial {
  import opened AddrTables
  import opened AddrSteps
  import opened AddrMan

  /** The part of an entry that is written. */
  datatype Saved = Saved(addr: Service, source: NetAddr, services: set<nat>, nTime: int, nLastSuccess: int,
                         nAttempts: int)

  function Save(i: Info): Saved {
    Saved(i.addr, i.source, i.services, i.nTime, i.nLastSuccess, i.nAttempts)
  }

  function Load(s: Saved, nRandomPos: int): Info {
    Info(s.addr, s.source, s.services, s.nTime, 0, s.nLastSuccess, s.nAttempts, 0, false, nRandomPos)
  }

  datatype Dump = Dump(nVersion: int, nNew: int, nTried: int, nUBuckets: int,
                       news: seq<Saved>, trieds: seq<Saved>, buckets: seq<seq<int>>)

  const BIT_30: int := 0x4000_0000

  /** XOR with 2**30. */
  function Flip30(n: int): int {
    if n / BIT_30 % 2 == 0 then n + BIT_30 else n - BIT_30
  }

  /** For a number below 2**30 it adds 2**30, and takes it away again. */
  lemma {:induction false} FlipsBit30(n: nat)
    requires n < 1_073_741_824
    ensures Flip30(n) == n + 1_073_741_824 && Flip30(n + 1_073_741_824) == n
  {}

  // ---------- writing ----------

  /** The ids below n of new entries, or of tried ones, in order. */
  function IdsBelow(t: Tables, tried: bool, n: nat): (ids: seq<nat>)
    ensures forall k | 0 <= k < |ids| :: ids[k] < n && ids[k] in t.info && Wanted(t.info[ids[k]], tried)
  {
    if n == 0 then []
    else IdsBelow(t, tried, n - 1) + if n - 1 in t.info && Wanted(t.info[n - 1], tried) then [n - 1] else []
  }

  predicate Wanted(i: Info, tried: bool) {
    if tried then i.fInTried else i.nRefCount != 0
  }

  /** mapUnkIds: the number of new entries with smaller ids. */
  function Rank(t: Tables, id: nat): nat {
    |IdsBelow(t, false, id)|
  }

  function SaveAll(t: Tables, ids: seq<nat>): seq<Saved>
    requires forall k | 0 <= k < |ids| :: ids[k] in t.info
  {
    seq(|ids|, k requires 0 <= k < |ids| => Save(t.info[ids[k]]))
  }

  /** The ranks of the entries in the first n positions of a new bucket. */
  function Row(t: Tables, bucket: nat, n: nat): seq<int> {
    if n == 0 then []
    else
      var s := Slot(bucket, n - 1);
      Row(t, bucket, n - 1) + if s in t.newTable then [Rank(t, t.newTable[s])] else []
  }

  function DumpOf(t: Tables): Dump {
    Dump(1, t.nNew, t.nTried, Flip30(NEW_BUCKET_COUNT),
         SaveAll(t, IdsBelow(t, false, t.nIdCount)), SaveAll(t, IdsBelow(t, true, t.nIdCount)),
         seq(NEW_BUCKET_COUNT, b requires 0 <= b < NEW_BUCKET_COUNT => Row(t, b, BUCKET_SIZE)))
  }

  // ---------- reading ----------

  /** The number of buckets in the stream. */
  function Buckets(d: Dump): int {
    if d.nVersion != 0 then Flip30(d.nUBuckets) else d.nUBuckets
  }

  /** Is the stored bucket table of use? */
  predicate Usable(d: Dump) {
    d.nVersion == 1 && Buckets(d) == NEW_BUCKET_COUNT
  }

  /** The stream holds as many values as it says. */
  predicate Complete(d: Dump) {
    |d.news| == d.nNew && |d.trieds| == d.nTried && |d.buckets| == Later(0, Buckets(d))
  }

  /** The next entry, under the next id. */
  function Append(t: Tables, i: Info): Tables {
    t.(info := t.info[t.nIdCount := i], addr := t.addr[i.addr.net := t.nIdCount],
       random := t.random + [t.nIdCount], nIdCount := t.nIdCount + 1)
  }

  /** A new entry. If the bucket table is of no use it is put where its source says, if that is free. */
  ghost function LoadNew(h: Hashing, t: Tables, s: Saved, usable: bool): Tables {
    var u := Append(t, Load(s, |t.random|)).(nNew := t.nNew + 1);
    var slot := HomeSlot(h, Load(s, 0));
    if !usable && slot !in t.newTable then PutSlot(u, slot, t.nIdCount) else u
  }

  /** A tried entry, or nothing if its place is taken. */
  ghost function LoadTried(h: Hashing, t: Tables, s: Saved): Tables {
    if h.TriedSlot(s.addr) in t.triedTable then t else Placed(h, Append(t, Load(s, |t.random|)), t.nIdCount)
  }

  ghost predicate Takes(h: Hashing, t: Tables, bucket: nat, index: int, usable: bool) {
    && 0 <= index < t.nNew && index in t.info && usable
    && h.NewSlot(t.info[index].addr, bucket) !in t.newTable && t.info[index].nRefCount < NEW_BUCKETS_PER_ADDRESS
  }

  /** One index of a bucket's row. */
  ghost function LoadIndex(h: Hashing, t: Tables, bucket: nat, index: int, usable: bool): Tables {
    if Takes(h, t, bucket, index, usable) then PutSlot(t, h.NewSlot(t.info[index].addr, bucket), index) else t
  }

  ghost function LoadNews(h: Hashing, t: Tables, news: seq<Saved>, usable: bool): Tables {
    if news == [] then t else LoadNew(h, LoadNews(h, t, news[..|news| - 1], usable), news[|news| - 1], usable)
  }

  ghost function LoadTrieds(h: Hashing, t: Tables, trieds: seq<Saved>): Tables {
    if trieds == [] then t else LoadTried(h, LoadTrieds(h, t, trieds[..|trieds| - 1]), trieds[|trieds| - 1])
  }

  ghost function LoadRow(h: Hashing, t: Tables, bucket: nat, row: seq<int>, usable: bool): Tables {
    if row == [] then t
    else LoadIndex(h, LoadRow(h, t, bucket, row[..|row| - 1], usable), bucket, row[|row| - 1], usable)
  }

  ghost function LoadRows(h: Hashing, t: Tables, rows: seq<seq<int>>, usable: bool): Tables {
    if rows == [] then t
    else LoadRow(h, LoadRows(h, t, rows[..|rows| - 1], usable), |rows| - 1, rows[|rows| - 1], usable)
  }

  const EMPTY := Tables(map[], map[], [], map[], map[], 0, 0, 0)

  ghost function Entries(h: Hashing, d: Dump): Tables {
    LoadTrieds(h, LoadNews(h, EMPTY, d.news, Usable(d)), d.trieds)
  }

  /** Everything, before entries without a place are pruned. */
  ghost function Loaded(h: Hashing, d: Dump): Tables {
    LoadRows(h, Entries(h, d), d.buckets, Usable(d))
  }

  ghost predicate Idle(t: Tables, id: nat) {
    id in t.info && !t.info[id].fInTried && t.info[id].nRefCount == 0
  }

  /** Entries below n that are in no bucket are deleted. */
  ghost function Pruned(t: Tables, n: nat): Tables {
    if n == 0 then t
    else
      var u := Pruned(t, n - 1);
      if Idle(u, n - 1) && CanDelete(u, n - 1) then Delete(u, n - 1) else u
  }

  ghost function Restored(h: Hashing, d: Dump): Tables {
    Pruned(Loaded(h, d), Loaded(h, d).nIdCount)
  }

  // ---------- what can be said of any stream ----------

  /** Enough for entries to be deleted. */
  ghost predicate Orderly(t: Tables) {
    RandomOk(t) && forall id | id in t.info :: id < t.nIdCount
  }

  lemma {:induction false} AppendKeepsOrder(t: Tables, i: Info)
    requires Orderly(t) && i.nRandomPos == |t.random|
    ensures Orderly(Append(t, i))
  {}

  lemma {:induction false} InfoKeepsOrder(t: Tables, u: Tables, id: nat)
    requires Orderly(t) && OnlyInfo(t, u, id) && u.nIdCount == t.nIdCount
    ensures Orderly(u)
  {
    InfoIsFreeRandom(t, u, id);
  }

  lemma {:induction false} LoadNewsOrder(h: Hashing, news: seq<Saved>, usable: bool)
    ensures Orderly(LoadNews(h, EMPTY, news, usable)) && LoadNews(h, EMPTY, news, usable).nIdCount == |news|
    ensures LoadNews(h, EMPTY, news, usable).nNew == |news|
  {
    hide RandomOk, Orderly, HomeSlot;
    if news == [] {
      EmptyIsOrderly();
    } else {
      var t, s := LoadNews(h, EMPTY, news[..|news| - 1], usable), news[|news| - 1];
      LoadNewsOrder(h, news[..|news| - 1], usable);
      var u := Append(t, Load(s, |t.random|));
      AppendKeepsOrder(t, Load(s, |t.random|));
      InfoKeepsOrder(u, LoadNew(h, t, s, usable), t.nIdCount);
    }
  }

  lemma {:induction false} EmptyIsOrderly()
    ensures Orderly(EMPTY)
  {}

  lemma {:induction false} LoadTriedsOrder(h: Hashing, t: Tables, trieds: seq<Saved>)
    requires Orderly(t)
    ensures Orderly(LoadTrieds(h, t, trieds))
  {
    hide RandomOk, Orderly;
    if trieds != [] {
      var u, s := LoadTrieds(h, t, trieds[..|trieds| - 1]), trieds[|trieds| - 1];
      LoadTriedsOrder(h, t, trieds[..|trieds| - 1]);
      AppendKeepsOrder(u, Load(s, |u.random|));
      InfoKeepsOrder(Append(u, Load(s, |u.random|)), Placed(h, Append(u, Load(s, |u.random|)), u.nIdCount), u.nIdCount);
    }
  }

  lemma {:induction false} LoadRowOrder(h: Hashing, t: Tables, bucket: nat, row: seq<int>, usable: bool)
    requires Orderly(t)
    ensures Orderly(LoadRow(h, t, bucket, row, usable))
  {
    hide RandomOk, Orderly;
    if row != [] {
      var u, index := LoadRow(h, t, bucket, row[..|row| - 1], usable), row[|row| - 1];
      LoadRowOrder(h, t, bucket, row[..|row| - 1], usable);
      if Takes(h, u, bucket, index, usable) {
        InfoKeepsOrder(u, LoadIndex(h, u, bucket, index, usable), index);
      }
    }
  }

  lemma {:induction false} LoadRowsOrder(h: Hashing, t: Tables, rows: seq<seq<int>>, usable: bool)
    requires Orderly(t)
    ensures Orderly(LoadRows(h, t, rows, usable))
  {
    hide RandomOk, Orderly;
    if rows != [] {
      LoadRowsOrder(h, t, rows[..|rows| - 1], usable);
      LoadRowOrder(h, LoadRows(h, t, rows[..|rows| - 1], usable), |rows| - 1, rows[|rows| - 1], usable);
    }
  }

  lemma {:induction false} PlaceKnown(t: Tables, id: nat)
    requires Orderly(t) && id in t.info
    ensures RandomOk(t) && 0 <= t.info[id].nRandomPos < |t.random|
  {}

  lemma {:induction false} DeleteKeepsOrder(t: Tables, id: nat)
    requires Orderly(t) && id in t.info
    ensures CanDelete(t, id) && Orderly(Delete(t, id))
  {
    hide SwapRandom, RandomOk;
    PlaceKnown(t, id);
    var last := |t.random| - 1;
    SwapKeepsRandom(t, t.info[id].nRandomPos, last);
    var u := SwapRandom(t, t.info[id].nRandomPos, last);
    SwapMovesToEnd(t, t.info[id].nRandomPos, id);
    DropLastRandom(u, id);
  }

  /** Whatever the stream says, the asserts of Delete hold when entries are pruned. */
  lemma {:induction false} PruningIsSafe(h: Hashing, d: Dump, n: nat)
    ensures var u := Pruned(Loaded(h, d), n); Orderly(u) && forall id | id in u.info :: CanDelete(u, id)
  {
    hide RandomOk, Orderly, CanDelete, Delete, Loaded, Idle;
    var u := Pruned(Loaded(h, d), n);
    if n == 0 {
      LoadedIsOrderly(h, d);
    } else {
      var v := Pruned(Loaded(h, d), n - 1);
      PruningIsSafe(h, d, n - 1);
      if Idle(v, n - 1) {
        IdleIsKnown(v, n - 1);
        DeleteKeepsOrder(v, n - 1);
      }
    }
    forall id | id in u.info
      ensures CanDelete(u, id)
    {
      DeleteKeepsOrder(u, id);
    }
  }

  lemma {:induction false} IdleIsKnown(t: Tables, id: nat)
    requires Idle(t, id)
    ensures id in t.info
  {}

  lemma {:induction false} LoadedIsOrderly(h: Hashing, d: Dump)
    ensures Orderly(Loaded(h, d))
  {
    hide RandomOk, Orderly, LoadNews, LoadTrieds, LoadRows;
    LoadNewsOrder(h, d.news, Usable(d));
    LoadTriedsOrder(h, LoadNews(h, EMPTY, d.news, Usable(d)), d.trieds);
    LoadRowsOrder(h, Entries(h, d), d.buckets, Usable(d));
  }

  // ---------- ids in order ----------

  /** All entries of t, new ones first, each in order: the entry that gets id n is all[n]. */
  ghost function Order(t: Tables): seq<nat> {
    IdsBelow(t, false, t.nIdCount) + IdsBelow(t, true, t.nIdCount)
  }

  /** Every wanted id is in the list, at its rank. */
  lemma {:induction false} IdsFind(t: Tables, tried: bool, n: nat, id: nat)
    requires id < n && id in t.info && Wanted(t.info[id], tried)
    ensures |IdsBelow(t, tried, id)| < |IdsBelow(t, tried, n)|
    ensures IdsBelow(t, tried, n)[|IdsBelow(t, tried, id)|] == id
    decreases n
  {
    if id < n - 1 {
      IdsFind(t, tried, n - 1, id);
    }
  }

  lemma {:induction false} IdsAscend(t: Tables, tried: bool, n: nat, i: nat, j: nat)
    requires i < j < |IdsBelow(t, tried, n)|
    ensures IdsBelow(t, tried, n)[i] < IdsBelow(t, tried, n)[j]
  {
    if n > 0 && j < |IdsBelow(t, tried, n - 1)| {
      IdsAscend(t, tried, n - 1, i, j);
    }
  }

  lemma {:induction false} IdsCount(t: Tables, tried: bool, n: nat)
    ensures |IdsBelow(t, tried, n)| == |set id | id in t.info && id < n && Wanted(t.info[id], tried)|
  {
    var s := set id | id in t.info && id < n && Wanted(t.info[id], tried);
    if n > 0 {
      IdsCount(t, tried, n - 1);
      var r := set id | id in t.info && id < n - 1 && Wanted(t.info[id], tried);
      if n - 1 in t.info && Wanted(t.info[n - 1], tried) {
        assert s == r + {n - 1};
      } else {
        assert s == r;
      }
    } else {
      assert s == {};
    }
  }

  lemma {:induction false} WantedIsTried(h: Hashing, t: Tables, id: nat)
    requires TriedOk(h, t) && NewOk(h, t, {}) && id in t.info
    ensures t.info[id].nRefCount != 0 <==> !t.info[id].fInTried
  {}

  /** The asserts of Serialize: the counters are the numbers of entries written. */
  lemma {:induction false} CountersAreRight(h: Hashing, t: Tables)
    requires Ok(h, t, {}, 0)
    ensures |IdsBelow(t, false, t.nIdCount)| == t.nNew && |IdsBelow(t, true, t.nIdCount)| == t.nTried
  {
    hide AddrOk, RandomOk, TimesOk, TriedOk, NewOk, IdsBelow;
    IdsCount(t, false, t.nIdCount);
    IdsCount(t, true, t.nIdCount);
    var news := set id | id in t.info && id < t.nIdCount && Wanted(t.info[id], false);
    var trieds := set id | id in t.info && id < t.nIdCount && Wanted(t.info[id], true);
    assert trieds == TriedIds(t);
    forall id | id in t.info
      ensures id in news <==> id !in trieds
    {
      WantedIsTried(h, t, id);
    }
    assert news == t.info.Keys - trieds;
    assert |t.info| == |t.info.Keys|;
  }

  /** all lists every entry once, new ones first. */
  ghost predicate Enumerates(t: Tables, all: seq<nat>) {
    && |all| == |t.info| && 0 <= t.nNew <= |all| && t.nTried == |all| - t.nNew
    && (forall n {:trigger all[n]} | 0 <= n < |all| :: all[n] in t.info && t.info[all[n]].fInTried == (n >= t.nNew))
    && (forall id | id in t.info :: id in all)
    && (forall i, j | 0 <= i < j < |all| :: all[i] != all[j])
  }

  lemma {:induction false} OrderDiffers(h: Hashing, t: Tables, i: nat, j: nat)
    requires Ok(h, t, {}, 0) && i < j < |Order(t)|
    ensures Order(t)[i] != Order(t)[j]
  {
    hide AddrOk, RandomOk, TimesOk, TriedOk, NewOk, CountsOk, IdsBelow;
    var a, b := IdsBelow(t, false, t.nIdCount), IdsBelow(t, true, t.nIdCount);
    if j < |a| {
      IdsAscend(t, false, t.nIdCount, i, j);
    } else if i >= |a| {
      IdsAscend(t, true, t.nIdCount, i - |a|, j - |a|);
    } else {
      WantedIsTried(h, t, a[i]);
      WantedIsTried(h, t, b[j - |a|]);
    }
  }

  lemma {:induction false} OrderIsComplete(h: Hashing, t: Tables)
    requires Ok(h, t, {}, 0)
    ensures Enumerates(t, Order(t))
  {
    hide AddrOk, RandomOk, TimesOk, TriedOk, NewOk, IdsBelow;
    CountersAreRight(h, t);
    forall id | id in t.info
      ensures id in Order(t)
    {
      WantedIsTried(h, t, id);
      IdsFind(t, t.info[id].fInTried, t.nIdCount, id);
    }
    forall n {:trigger Order(t)[n]} | 0 <= n < |Order(t)|
      ensures Order(t)[n] in t.info && t.info[Order(t)[n]].fInTried == (n >= t.nNew)
    {
      WantedIsTried(h, t, Order(t)[n]);
    }
    forall i, j | 0 <= i < j < |Order(t)|
      ensures Order(t)[i] != Order(t)[j]
    {
      OrderDiffers(h, t, i, j);
    }
  }

  // ---------- a stream with sound entries ----------

  ghost function Nets(s: seq<Saved>): set<NetAddr> {
    set k | 0 <= k < |s| :: s[k].addr.net
  }

  ghost predicate Differ(s: seq<Saved>) {
    forall i, j | 0 <= i < j < |s| :: s[i].addr.net != s[j].addr.net
  }

  ghost predicate Timed(s: seq<Saved>, least: int) {
    forall k | 0 <= k < |s| :: s[k].nLastSuccess >= least
  }

  /** All addresses differ, and tried entries were successful once. */
  ghost predicate Sound(d: Dump) {
    Differ(d.news + d.trieds) && Timed(d.news, 0) && Timed(d.trieds, 1)
  }

  ghost function Unplaced(t: Tables): set<nat> {
    set id | id in t.info && Idle(t, id)
  }

  /** Consistent, but for entries in no bucket, and nothing new behind the first nNew ids. */
  ghost predicate Ready(h: Hashing, t: Tables, nets: set<NetAddr>) {
    Ok(h, t, Unplaced(t), 0) && t.addr.Keys <= nets
      && forall id: nat | id < t.nNew :: id in t.info && !t.info[id].fInTried
  }

  lemma {:induction false} UnplacedIsLoose(h: Hashing, t: Tables, loose: set<nat>)
    requires NewOk(h, t, loose)
    ensures Unplaced(t) == loose
  {}

  lemma {:induction false} AppendKeepsOk(h: Hashing, t: Tables, loose: set<nat>, s: Saved)
    requires Ok(h, t, loose, 0) && s.addr.net !in t.addr && s.nLastSuccess >= 0
    ensures t.nIdCount !in t.info && Ok(h, Append(t, Load(s, |t.random|)), loose + {t.nIdCount}, 1)
  {
    hide AddrOk, RandomOk, TriedOk, NewOk, CountsOk, TimesOk;
    var id, i := t.nIdCount, Load(s, |t.random|);
    CreateKeepsOk(h, t, loose, 0, s.addr, s.source, s.services, s.nTime);
    var u := Create(t, s.addr, s.source, s.services, s.nTime);
    StatsAreFree(h, u, loose + {id}, 1, id, i);
    assert u.info[id := i] == t.info[id := i];
  }

  lemma {:induction false} LoadNewKeepsReady(h: Hashing, t: Tables, nets: set<NetAddr>, s: Saved, usable: bool)
    requires Ready(h, t, nets) && t.nNew == t.nIdCount && s.addr.net !in nets && s.nLastSuccess >= 0
    ensures Ready(h, LoadNew(h, t, s, usable), nets + {s.addr.net})
  {
    hide AddrOk, RandomOk, TriedOk, NewOk, CountsOk, TimesOk, Unplaced;
    var loose, v := Unplaced(t) + {t.nIdCount}, Append(t, Load(s, |t.random|));
    AppendKeepsOk(h, t, Unplaced(t), s);
    RecountKeepsOk(h, v, loose, 1, 1);
    var u := v.(nNew := t.nNew + 1);
    assert Ok(h, u, loose, 0);
    OkIsUnplaced(h, u, loose);
    var slot := HomeSlot(h, Load(s, 0));
    if !usable && slot !in t.newTable {
      PutKeepsOk(h, u, loose, 0, slot, t.nIdCount);
      OkIsUnplaced(h, PutSlot(u, slot, t.nIdCount), loose - {t.nIdCount});
    }
  }

  lemma {:induction false} OkIsUnplaced(h: Hashing, t: Tables, loose: set<nat>)
    requires Ok(h, t, loose, 0)
    ensures Unplaced(t) == loose
  {
    hide AddrOk, RandomOk, TriedOk, CountsOk, TimesOk;
    UnplacedIsLoose(h, t, loose);
  }

  lemma {:induction false} LoadTriedKeepsReady(h: Hashing, t: Tables, nets: set<NetAddr>, s: Saved)
    requires Ready(h, t, nets) && s.addr.net !in nets && s.nLastSuccess >= 1 && t.nNew <= t.nIdCount
    ensures Ready(h, LoadTried(h, t, s), nets + {s.addr.net}) && LoadTried(h, t, s).nIdCount >= t.nIdCount
    ensures LoadTried(h, t, s).nNew == t.nNew
  {
    hide AddrOk, RandomOk, TriedOk, NewOk, CountsOk, TimesOk, Unplaced;
    if h.TriedSlot(s.addr) !in t.triedTable {
      var loose, v := Unplaced(t) + {t.nIdCount}, Append(t, Load(s, |t.random|));
      AppendKeepsOk(h, t, Unplaced(t), s);
      PlaceKeepsOk(h, v, loose, 1, t.nIdCount);
      OkIsUnplaced(h, Placed(h, v, t.nIdCount), loose - {t.nIdCount});
    }
  }

  lemma {:induction false} LoadIndexKeepsReady(h: Hashing, t: Tables, nets: set<NetAddr>, bucket: nat, index: int,
                                               usable: bool)
    requires Ready(h, t, nets) && (usable ==> bucket < NEW_BUCKET_COUNT)
    ensures Ready(h, LoadIndex(h, t, bucket, index, usable), nets)
  {
    hide AddrOk, RandomOk, TriedOk, NewOk, CountsOk, TimesOk, Unplaced;
    if Takes(h, t, bucket, index, usable) {
      var slot := h.NewSlot(t.info[index].addr, bucket);
      PutKeepsOk(h, t, Unplaced(t), 0, slot, index);
      OkIsUnplaced(h, PutSlot(t, slot, index), Unplaced(t) - {index});
    }
  }

  lemma {:induction false} EmptyIsReady(h: Hashing)
    ensures Ready(h, EMPTY, Nets([]))
  {
    NothingIsOk(h);
    assert Unplaced(EMPTY) == {};
  }

  lemma {:induction false} NetsGrow(s: seq<Saved>, n: nat)
    requires Differ(s) && n < |s|
    ensures Nets(s[..n + 1]) == Nets(s[..n]) + {s[n].addr.net} && s[n].addr.net !in Nets(s[..n])
  {
    assert s[..n + 1][n] == s[n];
    forall net | net in Nets(s[..n])
      ensures net in Nets(s[..n + 1])
    {
      var k :| 0 <= k < n && s[..n][k].addr.net == net;
      assert s[..n + 1][k].addr.net == net;
    }
    forall net | net in Nets(s[..n + 1]) && net != s[n].addr.net
      ensures net in Nets(s[..n])
    {
      var k :| 0 <= k < n + 1 && s[..n + 1][k].addr.net == net;
      assert s[..n][k].addr.net == net;
    }
  }

  lemma {:induction false} LoadNewsReady(h: Hashing, news: seq<Saved>, n: nat, usable: bool)
    requires Differ(news) && Timed(news, 0) && n <= |news|
    ensures Ready(h, LoadNews(h, EMPTY, news[..n], usable), Nets(news[..n]))
  {
    hide Ready, Nets, LoadNew, Differ;
    if n == 0 {
      EmptyIsReady(h);
    } else {
      LoadNewsReady(h, news, n - 1, usable);
      NetsGrow(news, n - 1);
      LoadNewsOrder(h, news[..n - 1], usable);
      assert news[..n][..n - 1] == news[..n - 1];
      LoadNewKeepsReady(h, LoadNews(h, EMPTY, news[..n - 1], usable), Nets(news[..n - 1]), news[n - 1], usable);
    }
  }

  lemma {:induction false} LoadTriedsReady(h: Hashing, t: Tables, news: seq<Saved>, trieds: seq<Saved>, n: nat)
    requires Ready(h, t, Nets(news)) && t.nNew <= t.nIdCount && Differ(news + trieds) && Timed(trieds, 1)
             && n <= |trieds|
    ensures var u := LoadTrieds(h, t, trieds[..n]);
            Ready(h, u, Nets(news + trieds[..n])) && u.nNew == t.nNew && u.nNew <= u.nIdCount
  {
    hide Ready, Nets, LoadTried, Differ;
    var all := news + trieds;
    assert all[..|news| + n] == news + trieds[..n];
    if n == 0 {
      assert news + trieds[..n] == news;
    } else {
      LoadTriedsReady(h, t, news, trieds, n - 1);
      assert all[..|news| + n - 1] == news + trieds[..n - 1];
      NetsGrow(all, |news| + n - 1);
      assert trieds[..n][..n - 1] == trieds[..n - 1];
      LoadTriedKeepsReady(h, LoadTrieds(h, t, trieds[..n - 1]), Nets(news + trieds[..n - 1]), trieds[n - 1]);
    }
  }

  lemma {:induction false} LoadRowReady(h: Hashing, t: Tables, nets: set<NetAddr>, bucket: nat, row: seq<int>,
                                        usable: bool)
    requires Ready(h, t, nets) && (usable ==> bucket < NEW_BUCKET_COUNT)
    ensures Ready(h, LoadRow(h, t, bucket, row, usable), nets)
  {
    hide Ready, LoadIndex;
    if row != [] {
      LoadRowReady(h, t, nets, bucket, row[..|row| - 1], usable);
      LoadIndexKeepsReady(h, LoadRow(h, t, bucket, row[..|row| - 1], usable), nets, bucket, row[|row| - 1], usable);
    }
  }

  lemma {:induction false} LoadRowsReady(h: Hashing, t: Tables, nets: set<NetAddr>, rows: seq<seq<int>>, usable: bool)
    requires Ready(h, t, nets) && (usable ==> |rows| <= NEW_BUCKET_COUNT)
    ensures Ready(h, LoadRows(h, t, rows, usable), nets)
  {
    hide Ready, LoadRow;
    if rows != [] {
      LoadRowsReady(h, t, nets, rows[..|rows| - 1], usable);
      LoadRowReady(h, LoadRows(h, t, rows[..|rows| - 1], usable), nets, |rows| - 1, rows[|rows| - 1], usable);
    }
  }

  lemma {:induction false} LoadedIsReady(h: Hashing, d: Dump)
    requires Complete(d) && Sound(d)
    ensures Ready(h, Loaded(h, d), Nets(d.news + d.trieds)) && Ready(h, Entries(h, d), Nets(d.news + d.trieds))
  {
    hide Ready, Nets, LoadNews, LoadTrieds, LoadRows;
    assert d.news[..|d.news|] == d.news && d.trieds[..|d.trieds|] == d.trieds;
    assert Differ(d.news) by {
      assert forall k | 0 <= k < |d.news| :: (d.news + d.trieds)[k] == d.news[k];
    }
    LoadNewsReady(h, d.news, |d.news|, Usable(d));
    LoadNewsOrder(h, d.news, Usable(d));
    LoadTriedsReady(h, LoadNews(h, EMPTY, d.news, Usable(d)), d.news, d.trieds, |d.trieds|);
    LoadRowsReady(h, Entries(h, d), Nets(d.news + d.trieds), d.buckets, Usable(d));
  }

  /** u is t without some entries that were in no bucket. */
  ghost predicate OnlyPruned(t: Tables, u: Tables) {
    && u.newTable == t.newTable && u.triedTable == t.triedTable && u.nTried == t.nTried
    && u.info.Keys <= t.info.Keys
    && (forall id | id in t.info && !Idle(t, id) :: SameEntry(t, u, id))
  }

  lemma {:induction false} PruneKeepsOk(h: Hashing, t: Tables, n: nat)
    requires Ok(h, t, Unplaced(t), 0)
    ensures Ok(h, Pruned(t, n), set id | id in Unplaced(t) && id >= n, 0) && OnlyPruned(t, Pruned(t, n))
    ensures forall id | id in Pruned(t, n).info && id in Unplaced(t) :: id >= n
  {
    hide AddrOk, RandomOk, TriedOk, NewOk, CountsOk, TimesOk, CanDelete, Delete, Unplaced, Idle;
    if n == 0 {
      assert (set id | id in Unplaced(t) && id >= n) == Unplaced(t);
    } else {
      PruneKeepsOk(h, t, n - 1);
      var u := Pruned(t, n - 1);
      var loose := set id | id in Unplaced(t) && id >= n - 1;
      OkIsUnplaced(h, u, loose);
      IdleIsUnplaced(u, n - 1);
      if Idle(u, n - 1) {
        NewIsOk(h, u, loose, 0);
        DeleteKeepsOk(h, u, loose, 0, n - 1);
        DeleteFrame(u, n - 1);
        IdleIsUnplaced(t, n - 1);
        assert (set id | id in Unplaced(t) && id >= n) == loose - {n - 1};
        SameEntryTrans(t, u, Delete(u, n - 1), n - 1);
      } else {
        assert (set id | id in Unplaced(t) && id >= n) == loose;
      }
    }
  }

  lemma {:induction false} SameEntryTrans(t: Tables, u: Tables, v: Tables, gone: nat)
    requires Idle(t, gone) && forall id | id in u.info && id != gone :: SameEntry(u, v, id)
    ensures forall id | id in t.info && !Idle(t, id) && SameEntry(t, u, id) :: SameEntry(t, v, id)
  {}

  lemma {:induction false} IdleIsUnplaced(t: Tables, id: nat)
    ensures id in Unplaced(t) <==> Idle(t, id)
  {}

  /**
   * Reading any stream with sound entries gives a consistent manager, whatever its bucket table
   * says and however its entries collide. Exactly the entries without a place are lost.
   */
  lemma {:induction false} RestoredIsOk(h: Hashing, d: Dump)
    requires Complete(d) && Sound(d)
    ensures Ok(h, Restored(h, d), {}, 0) && OnlyPruned(Loaded(h, d), Restored(h, d))
    ensures forall id | id in Loaded(h, d).info :: id in Restored(h, d).info <==> !Idle(Loaded(h, d), id)
  {
    hide Ok, Unplaced, Idle, Pruned, Loaded;
    var t := Loaded(h, d);
    LoadedIsReady(h, d);
    LoadedIsOrderly(h, d);
    PruneKeepsOk(h, t, t.nIdCount);
    forall id
      ensures id in Unplaced(t) <==> Idle(t, id)
    {
      IdleIsUnplaced(t, id);
    }
    forall id: nat | Idle(t, id)
      ensures id < t.nIdCount
    {
      IdleIsKnown(t, id);
    }
    assert (set id | id in Unplaced(t) && id >= t.nIdCount) == {};
  }
}
