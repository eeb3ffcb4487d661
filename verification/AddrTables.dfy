/**
 * The tables of the address manager as values, the invariant that ties its six indexes
 * together, and the single changes made to them. An entry may be loose for a while: known, but
 * in no bucket.
 */
module AddrTables {

  const NEW_BUCKET_COUNT: nat := 1024
  const TRIED_BUCKET_COUNT: nat := 256
  const BUCKET_SIZE: nat := 64
  const NEW_BUCKETS_PER_ADDRESS: nat := 8

  type NetAddr = nat

  datatype Service = Service(net: NetAddr, port: nat)

  datatype Info = Info(addr: Service, source: NetAddr, services: set<nat>, nTime: int, nLastTry: int,
                       nLastSuccess: int, nAttempts: int, nRefCount: int, fInTried: bool, nRandomPos: int)

  datatype Slot = Slot(bucket: nat, pos: nat)

  type Table = map<Slot, nat>

  /** Comes s earlier when buckets are gone through one by one? */
  predicate Before(s: Slot, bucket: nat, pos: nat) {
    s.bucket < bucket || (s.bucket == bucket && s.pos < pos)
  }

  type Group = nat

  const TRIED_BUCKETS_PER_GROUP: nat := 8
  const NEW_BUCKETS_PER_SOURCE_GROUP: nat := 64

  /** The group of a network address, and the keyed hashes that choose buckets and positions. */
  datatype Hashing = Hashing(group: NetAddr -> Group, newHash1: (Group, Group) -> nat, newHash2: (Group, nat) -> nat,
                             triedHash1: Service -> nat, triedHash2: (Group, nat) -> nat,
                             position: (Service, bool, nat) -> nat)
  {
    function NewBucket(a: Service, source: NetAddr): (b: nat)
      ensures b < NEW_BUCKET_COUNT
    {
      var hash1 := newHash1(group(a.net), group(source));
      newHash2(group(source), hash1 % NEW_BUCKETS_PER_SOURCE_GROUP) % NEW_BUCKET_COUNT
    }

    function TriedBucket(a: Service): (b: nat)
      ensures b < TRIED_BUCKET_COUNT
    {
      triedHash2(group(a.net), triedHash1(a) % TRIED_BUCKETS_PER_GROUP) % TRIED_BUCKET_COUNT
    }

    /** The only place a has in a new bucket. */
    function NewSlot(a: Service, bucket: nat): (s: Slot)
      ensures s.bucket == bucket && s.pos < BUCKET_SIZE
    {
      Slot(bucket, position(a, true, bucket) % BUCKET_SIZE)
    }

    /** The only place a has in the tried table. */
    function TriedSlot(a: Service): (s: Slot)
      ensures s.bucket < TRIED_BUCKET_COUNT && s.pos < BUCKET_SIZE
    {
      Slot(TriedBucket(a), position(a, false, TriedBucket(a)) % BUCKET_SIZE)
    }
  }

  datatype Tables = Tables(info: map<nat, Info>, addr: map<NetAddr, nat>, random: seq<nat>,
                           triedTable: Table, newTable: Table, nTried: int, nNew: int, nIdCount: nat)

  // ---------- the invariant ----------

  /** mapAddr finds exactly the entries of mapInfo. */
  ghost predicate AddrOk(t: Tables) {
    && (forall id {:trigger t.info[id]} | id in t.info ::
        t.info[id].addr.net in t.addr && t.addr[t.info[id].addr.net] == id)
    && forall a {:trigger t.addr[a]} | a in t.addr :: t.addr[a] in t.info && t.info[t.addr[a]].addr.net == a
  }

  /** vRandom lists every entry once, at the position the entry knows. */
  ghost predicate RandomOk(t: Tables) {
    && |t.random| == |t.info|
    && (forall id {:trigger t.info[id]} | id in t.info ::
        0 <= t.info[id].nRandomPos < |t.random| && t.random[t.info[id].nRandomPos] == id)
    && forall i {:trigger t.random[i]} | 0 <= i < |t.random| ::
       t.random[i] in t.info && t.info[t.random[i]].nRandomPos == i
  }

  /** A tried entry is in its slot of the tried table and nowhere else. */
  ghost predicate TriedOk(h: Hashing, t: Tables) {
    && (forall s | s in t.triedTable ::
        t.triedTable[s] in t.info && t.info[t.triedTable[s]].fInTried && s == h.TriedSlot(t.info[t.triedTable[s]].addr))
    && forall id {:trigger t.info[id]} | id in t.info && t.info[id].fInTried ::
         && h.TriedSlot(t.info[id].addr) in t.triedTable && t.triedTable[h.TriedSlot(t.info[id].addr)] == id
         && t.info[id].nRefCount == 0 && t.info[id].nLastSuccess != 0
  }

  ghost function Refs(newTable: Table, id: nat): set<Slot> {
    set s | s in newTable && newTable[s] == id
  }

  /** The slots of the new table are right, and reference counts count them. */
  ghost predicate NewOk(h: Hashing, t: Tables, loose: set<nat>) {
    && (forall s | s in t.newTable ::
          && t.newTable[s] in t.info && !t.info[t.newTable[s]].fInTried
          && s.bucket < NEW_BUCKET_COUNT && s == h.NewSlot(t.info[t.newTable[s]].addr, s.bucket))
    && (forall id {:trigger t.info[id]} | id in t.info ::
          t.info[id].nRefCount == |Refs(t.newTable, id)| && t.info[id].nRefCount <= NEW_BUCKETS_PER_ADDRESS)
    && (forall id {:trigger t.info[id]} | id in t.info && !t.info[id].fInTried ::
        t.info[id].nRefCount == 0 <==> id in loose)
    && forall id | id in loose :: id in t.info && !t.info[id].fInTried
  }

  ghost function TriedIds(t: Tables): set<nat> {
    set id | id in t.info && t.info[id].fInTried
  }

  /** The counters, when `uncounted` of the loose entries are not in nNew. */
  ghost predicate CountsOk(t: Tables, uncounted: nat) {
    && t.nTried == |TriedIds(t)|
    && t.nNew + uncounted == |t.info| - t.nTried
    && forall id | id in t.info :: id < t.nIdCount
  }

  ghost predicate TimesOk(t: Tables) {
    forall id | id in t.info :: t.info[id].nLastTry >= 0 && t.info[id].nLastSuccess >= 0
  }

  ghost predicate Ok(h: Hashing, t: Tables, loose: set<nat>, uncounted: nat) {
    AddrOk(t) && RandomOk(t) && TriedOk(h, t) && NewOk(h, t, loose) && CountsOk(t, uncounted) && TimesOk(t)
  }

  lemma {:induction false} NewIsOk(h: Hashing, t: Tables, loose: set<nat>, uncounted: nat)
    requires Ok(h, t, loose, uncounted)
    ensures AddrOk(t) && RandomOk(t) && TriedOk(h, t) && NewOk(h, t, loose)
  {}

  // ---------- vRandom ----------

  ghost predicate CanSwap(t: Tables, i: int, j: int) {
    0 <= i < |t.random| && 0 <= j < |t.random| && t.random[i] in t.info && t.random[j] in t.info
  }

  function SwapRandom(t: Tables, i: int, j: int): Tables
    requires 0 <= i < |t.random| && 0 <= j < |t.random| && t.random[i] in t.info && t.random[j] in t.info
  {
    if i == j then t else
      var a, b := t.random[i], t.random[j];
      var info1 := t.info[a := t.info[a].(nRandomPos := j)];
      t.(info := info1[b := info1[b].(nRandomPos := i)], random := t.random[i := b][j := a])
  }

  /** Only nRandomPos differs. */
  ghost predicate SameButOrder(t: Tables, u: Tables) {
    && u.info.Keys == t.info.Keys
    && (forall id {:trigger u.info[id]} | id in t.info ::
        u.info[id] == t.info[id].(nRandomPos := u.info[id].nRandomPos))
    && u == t.(info := u.info, random := u.random)
  }

  lemma {:induction false} SwapKeepsRandom(t: Tables, i: int, j: int)
    requires RandomOk(t) && 0 <= i < |t.random| && 0 <= j < |t.random|
    ensures CanSwap(t, i, j) && RandomOk(SwapRandom(t, i, j)) && SameButOrder(t, SwapRandom(t, i, j))
  {
    hide RandomOk;
    RandomKnown(t, i);
    RandomKnown(t, j);
    SwapKeepsOrder(t, i, j);
  }

  lemma {:induction false} RandomKnown(t: Tables, i: int)
    requires RandomOk(t) && 0 <= i < |t.random|
    ensures t.random[i] in t.info && t.info[t.random[i]].nRandomPos == i
  {}

  lemma {:induction false} SwapKeepsOrder(t: Tables, i: int, j: int)
    requires RandomOk(t) && CanSwap(t, i, j)
    ensures RandomOk(SwapRandom(t, i, j))
  {
    SwapShape(t, i, j);
    var u := SwapRandom(t, i, j);
    SameSize(t, u);
    if i != j {
      assert t.random[i] != t.random[j];
      forall id {:trigger u.info[id]} | id in u.info
        ensures 0 <= u.info[id].nRandomPos < |u.random| && u.random[u.info[id].nRandomPos] == id
      {}
    }
  }

  lemma {:induction false} SwapShape(t: Tables, i: int, j: int)
    requires CanSwap(t, i, j)
    ensures var u := SwapRandom(t, i, j);
            |u.random| == |t.random| && u.info.Keys == t.info.Keys
              && forall id | id in t.info :: u.info[id].addr == t.info[id].addr
  {}

  lemma {:induction false} SameSize(t: Tables, u: Tables)
    requires t.info.Keys == u.info.Keys
    ensures |t.info| == |u.info|
  {
    assert |t.info| == |t.info.Keys| && |u.info| == |u.info.Keys|;
  }

  /** Nothing but vRandom depends on the order. */
  lemma {:induction false} OrderIsFree(h: Hashing, t: Tables, u: Tables, loose: set<nat>, uncounted: nat)
    requires SameButOrder(t, u) && Ok(h, t, loose, uncounted) && RandomOk(u)
    ensures Ok(h, u, loose, uncounted)
  {
    hide RandomOk, AddrOk, TriedOk, NewOk, CountsOk, TimesOk, SameButOrder;
    OrderIsFreeAddr(t, u);
    OrderIsFreeTables(h, t, u, loose);
    OrderIsFreeCounts(t, u, uncounted);
  }

  lemma {:induction false} OrderIsFreeAddr(t: Tables, u: Tables)
    requires SameButOrder(t, u) && AddrOk(t) && TimesOk(t)
    ensures AddrOk(u) && TimesOk(u)
  {}

  lemma {:induction false} OrderIsFreeTables(h: Hashing, t: Tables, u: Tables, loose: set<nat>)
    requires SameButOrder(t, u) && TriedOk(h, t) && NewOk(h, t, loose)
    ensures TriedOk(h, u) && NewOk(h, u, loose)
  {}

  lemma {:induction false} OrderIsFreeCounts(t: Tables, u: Tables, uncounted: nat)
    requires SameButOrder(t, u) && CountsOk(t, uncounted)
    ensures CountsOk(u, uncounted)
  {
    assert TriedIds(u) == TriedIds(t);
    SameSize(t, u);
  }

  // ---------- entries come and go ----------

  function NewInfo(a: Service, source: NetAddr, services: set<nat>, nTime: int, nRandomPos: int): Info {
    Info(a, source, services, nTime, 0, 0, 0, 0, false, nRandomPos)
  }

  function Create(t: Tables, a: Service, source: NetAddr, services: set<nat>, nTime: int): Tables {
    t.(info := t.info[t.nIdCount := NewInfo(a, source, services, nTime, |t.random|)],
       addr := t.addr[a.net := t.nIdCount], random := t.random + [t.nIdCount], nIdCount := t.nIdCount + 1)
  }

  lemma {:induction false} CreateKeepsOk(h: Hashing, t: Tables, loose: set<nat>, uncounted: nat,
                                         a: Service, source: NetAddr, services: set<nat>, nTime: int)
    requires Ok(h, t, loose, uncounted) && a.net !in t.addr
    ensures t.nIdCount !in t.info
    ensures Ok(h, Create(t, a, source, services, nTime), loose + {t.nIdCount}, uncounted + 1)
  {
    hide RandomOk, AddrOk, TriedOk, NewOk, TimesOk, CountsOk, Create;
    NextIdIsFree(t, uncounted);
    CreateAddr(t, a, source, services, nTime);
    CreateRandom(t, a, source, services, nTime);
    CreateTables(h, t, loose, a, source, services, nTime);
    CreateCounts(t, uncounted, a, source, services, nTime);
  }

  /** A new entry was never tried and is in no table; the others stay as they are. */
  lemma {:induction false} CreatedExactly(t: Tables, a: Service, source: NetAddr, services: set<nat>, nTime: int)
    requires t.nIdCount !in t.info
    ensures var u := Create(t, a, source, services, nTime);
            && u.info.Keys == t.info.Keys + {t.nIdCount} && u.nIdCount == t.nIdCount + 1
            && u.newTable == t.newTable && u.triedTable == t.triedTable
            && (forall id | id in t.info :: u.info[id] == t.info[id])
            && var i := u.info[t.nIdCount];
               && i.addr == a && i.source == source && i.services == services && i.nTime == nTime
               && i.nLastTry == 0 && i.nLastSuccess == 0 && i.nAttempts == 0 && i.nRefCount == 0 && !i.fInTried
  {}

  lemma {:induction false} NextIdIsFree(t: Tables, uncounted: nat)
    requires CountsOk(t, uncounted)
    ensures t.nIdCount !in t.info
  {}

  lemma {:induction false} CreateAddr(t: Tables, a: Service, source: NetAddr, services: set<nat>, nTime: int)
    requires AddrOk(t) && TimesOk(t) && a.net !in t.addr && t.nIdCount !in t.info
    ensures AddrOk(Create(t, a, source, services, nTime)) && TimesOk(Create(t, a, source, services, nTime))
  {}

  lemma {:induction false} CreateRandom(t: Tables, a: Service, source: NetAddr, services: set<nat>, nTime: int)
    requires RandomOk(t) && t.nIdCount !in t.info
    ensures RandomOk(Create(t, a, source, services, nTime))
  {}

  lemma {:induction false} CreateTables(h: Hashing, t: Tables, loose: set<nat>, a: Service, source: NetAddr,
                                        services: set<nat>, nTime: int)
    requires TriedOk(h, t) && NewOk(h, t, loose) && t.nIdCount !in t.info
    ensures TriedOk(h, Create(t, a, source, services, nTime))
            && NewOk(h, Create(t, a, source, services, nTime), loose + {t.nIdCount})
  {
    assert Refs(t.newTable, t.nIdCount) == {};
  }

  lemma {:induction false} CreateCounts(t: Tables, uncounted: nat, a: Service, source: NetAddr, services: set<nat>,
                                        nTime: int)
    requires CountsOk(t, uncounted) && t.nIdCount !in t.info
    ensures CountsOk(Create(t, a, source, services, nTime), uncounted + 1)
  {
    assert TriedIds(Create(t, a, source, services, nTime)) == TriedIds(t);
  }

  ghost predicate CanDelete(t: Tables, id: nat) {
    && id in t.info && 0 <= t.info[id].nRandomPos < |t.random|
    && CanSwap(t, t.info[id].nRandomPos, |t.random| - 1)
  }

  function Delete(t: Tables, id: nat): Tables
    requires CanDelete(t, id)
  {
    Removed(SwapRandom(t, t.info[id].nRandomPos, |t.random| - 1), id)
  }

  /** A loose entry that nNew counts can be deleted; the asserts of Delete hold. */
  lemma {:induction false} DeleteKeepsOk(h: Hashing, t: Tables, loose: set<nat>, uncounted: nat, id: nat)
    requires Ok(h, t, loose, uncounted) && id in loose
    ensures CanDelete(t, id) && !t.info[id].fInTried && t.info[id].nRefCount == 0
    ensures Ok(h, Delete(t, id), loose - {id}, uncounted)
  {
    hide TriedOk, TimesOk, CountsOk, SwapRandom;
    var last := |t.random| - 1;
    SwapKeepsRandom(t, t.info[id].nRandomPos, last);
    OrderIsFree(h, t, SwapRandom(t, t.info[id].nRandomPos, last), loose, uncounted);
    SwapMovesToEnd(t, t.info[id].nRandomPos, id);
    DropLast(h, SwapRandom(t, t.info[id].nRandomPos, last), loose, uncounted, id);
  }

  lemma {:induction false} SwapMovesToEnd(t: Tables, i: int, id: nat)
    requires RandomOk(t) && id in t.info && i == t.info[id].nRandomPos && CanSwap(t, i, |t.random| - 1)
    ensures var u := SwapRandom(t, i, |t.random| - 1);
            && id in u.info && u.info[id] == t.info[id].(nRandomPos := |t.random| - 1) && |u.random| == |t.random|
            && u.addr == t.addr && u.nNew == t.nNew
  {}

  /** Delete, once the entry is last in vRandom. */
  function Removed(u: Tables, id: nat): Tables
    requires id in u.info && |u.random| > 0
  {
    u.(info := u.info - {id}, addr := u.addr - {u.info[id].addr.net}, random := u.random[..|u.random| - 1],
       nNew := u.nNew - 1)
  }

  lemma {:induction false} DropLast(h: Hashing, u: Tables, loose: set<nat>, uncounted: nat, id: nat)
    requires Ok(h, u, loose, uncounted) && id in loose && id in u.info && u.info[id].nRandomPos == |u.random| - 1
             && |u.random| > 0
    ensures Ok(h, Removed(u, id), loose - {id}, uncounted)
  {
    hide RandomOk, AddrOk, TriedOk, NewOk, TimesOk, CountsOk, Removed;
    DropLastAddr(u, id);
    DropLastRandom(u, id);
    DropLastTables(h, u, loose, id);
    DropLastCounts(h, u, loose, uncounted, id);
  }

  lemma {:induction false} DropLastAddr(u: Tables, id: nat)
    requires AddrOk(u) && TimesOk(u) && id in u.info && |u.random| > 0
    ensures AddrOk(Removed(u, id)) && TimesOk(Removed(u, id))
  {}

  lemma {:induction false} DropLastRandom(u: Tables, id: nat)
    requires RandomOk(u) && id in u.info && u.info[id].nRandomPos == |u.random| - 1 && |u.random| > 0
    ensures RandomOk(Removed(u, id))
  {
    assert (u.info - {id}).Keys == u.info.Keys - {id};
    assert |u.info - {id}| == |(u.info - {id}).Keys|;
  }

  lemma {:induction false} DropLastTables(h: Hashing, u: Tables, loose: set<nat>, id: nat)
    requires TriedOk(h, u) && NewOk(h, u, loose) && id in loose && |u.random| > 0
    ensures TriedOk(h, Removed(u, id)) && NewOk(h, Removed(u, id), loose - {id})
  {
    hide Hashing.TriedSlot, Hashing.NewSlot;
    assert Refs(u.newTable, id) == {};
    forall s | s in u.newTable
      ensures u.newTable[s] != id
    {
      assert s in Refs(u.newTable, u.newTable[s]);
    }
  }

  lemma {:induction false} DropLastCounts(h: Hashing, u: Tables, loose: set<nat>, uncounted: nat, id: nat)
    requires CountsOk(u, uncounted) && NewOk(h, u, loose) && id in loose && |u.random| > 0
    ensures CountsOk(Removed(u, id), uncounted)
  {
    assert TriedIds(Removed(u, id)) == TriedIds(u);
    assert (u.info - {id}).Keys == u.info.Keys - {id};
    assert |u.info - {id}| == |(u.info - {id}).Keys|;
  }

  // ---------- slots of the new table ----------

  function WithInfo(t: Tables, id: nat, i: Info): Tables {
    t.(info := t.info[id := i])
  }

  ghost predicate CanPut(h: Hashing, t: Tables, s: Slot, id: nat) {
    && s !in t.newTable && s.bucket < NEW_BUCKET_COUNT
    && id in t.info && !t.info[id].fInTried && t.info[id].nRefCount < NEW_BUCKETS_PER_ADDRESS
    && s == h.NewSlot(t.info[id].addr, s.bucket)
  }

  function PutSlot(t: Tables, s: Slot, id: nat): Tables
    requires id in t.info
  {
    WithInfo(t, id, t.info[id].(nRefCount := t.info[id].nRefCount + 1)).(newTable := t.newTable[s := id])
  }

  function TakeSlot(t: Tables, s: Slot): Tables
    requires s in t.newTable && t.newTable[s] in t.info
  {
    var id := t.newTable[s];
    WithInfo(t, id, t.info[id].(nRefCount := t.info[id].nRefCount - 1)).(newTable := t.newTable - {s})
  }

  /** u is t with another reference count for an entry that is not tried, and another new table. */
  ghost predicate OnlyRefs(t: Tables, u: Tables, id: nat) {
    && id in t.info && !t.info[id].fInTried
    && u == t.(info := t.info[id := t.info[id].(nRefCount := if id in u.info then u.info[id].nRefCount else 0)],
               newTable := u.newTable)
  }

  lemma {:induction false} RefsAreFree(h: Hashing, t: Tables, u: Tables, id: nat, uncounted: nat)
    requires OnlyRefs(t, u, id) && AddrOk(t) && RandomOk(t) && TriedOk(h, t) && CountsOk(t, uncounted) && TimesOk(t)
    ensures AddrOk(u) && RandomOk(u) && TriedOk(h, u) && CountsOk(u, uncounted) && TimesOk(u)
  {
    hide TriedOk, CountsOk, AddrOk, RandomOk;
    InfoIsFree(t, u, id);
    RefsAreFreeTables(h, t, u, id, uncounted);
  }

  lemma {:induction false} RefsAreFreeTables(h: Hashing, t: Tables, u: Tables, id: nat, uncounted: nat)
    requires OnlyRefs(t, u, id) && TriedOk(h, t) && CountsOk(t, uncounted)
    ensures TriedOk(h, u) && CountsOk(u, uncounted)
  {
    SameSize(t, u);
    assert TriedIds(u) == TriedIds(t);
  }

  lemma {:induction false} PutRefs(table: Table, s: Slot, id: nat)
    requires s !in table
    ensures |Refs(table[s := id], id)| == |Refs(table, id)| + 1
    ensures forall other | other != id :: Refs(table[s := id], other) == Refs(table, other)
  {
    assert Refs(table[s := id], id) == Refs(table, id) + {s};
  }

  lemma {:induction false} TakeRefs(table: Table, s: Slot)
    requires s in table
    ensures |Refs(table - {s}, table[s])| == |Refs(table, table[s])| - 1
    ensures forall other | other != table[s] :: Refs(table - {s}, other) == Refs(table, other)
  {
    assert Refs(table - {s}, table[s]) == Refs(table, table[s]) - {s};
  }

  lemma {:induction false} PutKeepsOk(h: Hashing, t: Tables, loose: set<nat>, uncounted: nat, s: Slot, id: nat)
    requires Ok(h, t, loose, uncounted) && CanPut(h, t, s, id)
    ensures Ok(h, PutSlot(t, s, id), loose - {id}, uncounted)
  {
    hide AddrOk, RandomOk, TriedOk, NewOk, CountsOk, TimesOk;
    RefsAreFree(h, t, PutSlot(t, s, id), id, uncounted);
    PutKeepsNew(h, t, loose, s, id);
  }

  lemma {:induction false} PutKeepsNew(h: Hashing, t: Tables, loose: set<nat>, s: Slot, id: nat)
    requires NewOk(h, t, loose) && CanPut(h, t, s, id)
    ensures NewOk(h, PutSlot(t, s, id), loose - {id})
  {
    hide Refs;
    PutRefs(t.newTable, s, id);
  }

  /** One reference fewer; the entry is loose when it was the last. */
  ghost function LooseAfter(t: Tables, loose: set<nat>, s: Slot): set<nat>
    requires s in t.newTable && t.newTable[s] in t.info
  {
    if t.info[t.newTable[s]].nRefCount == 1 then loose + {t.newTable[s]} else loose
  }

  lemma {:induction false} SlotKnown(h: Hashing, t: Tables, loose: set<nat>, s: Slot)
    requires NewOk(h, t, loose) && s in t.newTable
    ensures t.newTable[s] in t.info && !t.info[t.newTable[s]].fInTried && t.info[t.newTable[s]].nRefCount > 0
    ensures t.newTable[s] !in loose && s.bucket < NEW_BUCKET_COUNT
            && s == h.NewSlot(t.info[t.newTable[s]].addr, s.bucket)
  {
    assert s in Refs(t.newTable, t.newTable[s]);
  }

  lemma {:induction false} TakeKeepsOk(h: Hashing, t: Tables, loose: set<nat>, uncounted: nat, s: Slot)
    requires Ok(h, t, loose, uncounted) && s in t.newTable
    ensures t.newTable[s] in t.info && t.info[t.newTable[s]].nRefCount > 0
    ensures Ok(h, TakeSlot(t, s), LooseAfter(t, loose, s), uncounted)
  {
    hide AddrOk, RandomOk, TriedOk, NewOk, CountsOk, TimesOk;
    SlotKnown(h, t, loose, s);
    RefsAreFree(h, t, TakeSlot(t, s), t.newTable[s], uncounted);
    TakeKeepsNew(h, t, loose, s);
  }

  lemma {:induction false} TakeKeepsNew(h: Hashing, t: Tables, loose: set<nat>, s: Slot)
    requires NewOk(h, t, loose) && s in t.newTable && t.newTable[s] in t.info && t.info[t.newTable[s]].nRefCount > 0
    ensures NewOk(h, TakeSlot(t, s), LooseAfter(t, loose, s))
  {
    hide Refs;
    SlotKnown(h, t, loose, s);
    TakeRefs(t.newTable, s);
  }

  // ---------- the tried table ----------

  /** An entry of the tried table is taken out. */
  function Evicted(h: Hashing, t: Tables, id: nat): Tables
    requires id in t.info
  {
    WithInfo(t, id, t.info[id].(fInTried := false)).(triedTable := t.triedTable - {h.TriedSlot(t.info[id].addr)},
                                                     nTried := t.nTried - 1)
  }

  /** A loose entry that nNew does not count goes into a free slot of the tried table. */
  function Placed(h: Hashing, t: Tables, id: nat): Tables
    requires id in t.info
  {
    WithInfo(t, id, t.info[id].(fInTried := true)).(triedTable := t.triedTable[h.TriedSlot(t.info[id].addr) := id],
                                                    nTried := t.nTried + 1)
  }

  /** u has another entry at id, for the same address and at the same place in vRandom. */
  ghost predicate OnlyInfo(t: Tables, u: Tables, id: nat) {
    && id in t.info && id in u.info && u.info == t.info[id := u.info[id]] && u.addr == t.addr && u.random == t.random
    && u.info[id].addr == t.info[id].addr && u.info[id].nRandomPos == t.info[id].nRandomPos
  }

  lemma {:induction false} InfoIsFree(t: Tables, u: Tables, id: nat)
    requires AddrOk(t) && RandomOk(t) && TimesOk(t) && OnlyInfo(t, u, id) && u.info[id].nLastTry >= 0
             && u.info[id].nLastSuccess >= 0
    ensures AddrOk(u) && RandomOk(u) && TimesOk(u) && |u.info| == |t.info|
  {
    hide AddrOk, RandomOk;
    InfoIsFreeAddr(t, u, id);
    InfoIsFreeRandom(t, u, id);
    SameSize(t, u);
  }

  lemma {:induction false} InfoIsFreeAddr(t: Tables, u: Tables, id: nat)
    requires AddrOk(t) && OnlyInfo(t, u, id)
    ensures AddrOk(u)
  {}

  lemma {:induction false} InfoIsFreeRandom(t: Tables, u: Tables, id: nat)
    requires RandomOk(t) && OnlyInfo(t, u, id)
    ensures RandomOk(u)
  {
    SameSize(t, u);
  }

  lemma {:induction false} EvictKeepsOk(h: Hashing, t: Tables, loose: set<nat>, uncounted: nat, id: nat)
    requires Ok(h, t, loose, uncounted) && id in t.info && t.info[id].fInTried
    ensures Ok(h, Evicted(h, t, id), loose + {id}, uncounted + 1)
  {
    hide AddrOk, RandomOk, TriedOk, NewOk, CountsOk;
    InfoIsFree(t, Evicted(h, t, id), id);
    EvictTables(h, t, loose, id);
    EvictCounts(h, t, uncounted, id);
  }

  lemma {:induction false} EvictTables(h: Hashing, t: Tables, loose: set<nat>, id: nat)
    requires TriedOk(h, t) && NewOk(h, t, loose) && id in t.info && t.info[id].fInTried
    ensures TriedOk(h, Evicted(h, t, id)) && NewOk(h, Evicted(h, t, id), loose + {id})
  {
    hide Hashing.TriedSlot, Hashing.NewSlot, Refs;
  }

  lemma {:induction false} EvictCounts(h: Hashing, t: Tables, uncounted: nat, id: nat)
    requires CountsOk(t, uncounted) && id in t.info && t.info[id].fInTried
    ensures CountsOk(Evicted(h, t, id), uncounted + 1)
  {
    assert TriedIds(Evicted(h, t, id)) == TriedIds(t) - {id};
    SameSize(t, Evicted(h, t, id));
  }

  lemma {:induction false} PlaceKeepsOk(h: Hashing, t: Tables, loose: set<nat>, uncounted: nat, id: nat)
    requires Ok(h, t, loose, uncounted) && id in loose && uncounted > 0 && id in t.info && t.info[id].nLastSuccess != 0
    requires h.TriedSlot(t.info[id].addr) !in t.triedTable
    ensures Ok(h, Placed(h, t, id), loose - {id}, uncounted - 1)
  {
    hide AddrOk, RandomOk, TriedOk, NewOk, CountsOk;
    InfoIsFree(t, Placed(h, t, id), id);
    PlaceTables(h, t, loose, id);
    PlaceCounts(h, t, loose, uncounted, id);
  }

  lemma {:induction false} PlaceTables(h: Hashing, t: Tables, loose: set<nat>, id: nat)
    requires TriedOk(h, t) && NewOk(h, t, loose) && id in loose && id in t.info && t.info[id].nLastSuccess != 0
    requires h.TriedSlot(t.info[id].addr) !in t.triedTable
    ensures TriedOk(h, Placed(h, t, id)) && NewOk(h, Placed(h, t, id), loose - {id})
  {
    hide Hashing.TriedSlot, Hashing.NewSlot;
    assert forall s | s in t.newTable :: s in Refs(t.newTable, t.newTable[s]);
    assert Refs(t.newTable, id) == {};
  }

  lemma {:induction false} PlaceCounts(h: Hashing, t: Tables, loose: set<nat>, uncounted: nat, id: nat)
    requires CountsOk(t, uncounted) && NewOk(h, t, loose) && id in loose && uncounted > 0 && id in t.info
    ensures CountsOk(Placed(h, t, id), uncounted - 1)
  {
    assert TriedIds(Placed(h, t, id)) == TriedIds(t) + {id};
    SameSize(t, Placed(h, t, id));
  }

  /** nNew is corrected for one loose entry. */
  lemma {:induction false} RecountKeepsOk(h: Hashing, t: Tables, loose: set<nat>, uncounted: nat, step: int)
    requires Ok(h, t, loose, uncounted) && uncounted >= step
    ensures Ok(h, t.(nNew := t.nNew + step), loose, uncounted - step)
  {
    hide AddrOk, RandomOk, TriedOk, NewOk;
    RecountIsFree(h, t, t.(nNew := t.nNew + step), loose);
    assert TriedIds(t.(nNew := t.nNew + step)) == TriedIds(t);
  }

  lemma {:induction false} RecountIsFree(h: Hashing, t: Tables, u: Tables, loose: set<nat>)
    requires u == t.(nNew := u.nNew) && AddrOk(t) && RandomOk(t) && TriedOk(h, t) && NewOk(h, t, loose)
    ensures AddrOk(u) && RandomOk(u) && TriedOk(h, u) && NewOk(h, u, loose)
  {}

  // ---------- statistics ----------

  /** Everything an entry says about connections to it may change, if times stay times. */
  lemma {:induction false} StatsAreFree(h: Hashing, t: Tables, loose: set<nat>, uncounted: nat, id: nat, i: Info)
    requires Ok(h, t, loose, uncounted) && id in t.info
    requires i ==
             t.info[id].(services := i.services, nTime := i.nTime, nLastTry := i.nLastTry,
                         nLastSuccess := i.nLastSuccess, nAttempts := i.nAttempts)
    requires i.nLastTry >= 0 && i.nLastSuccess >= 0 && (i.fInTried ==> i.nLastSuccess != 0)
    ensures Ok(h, WithInfo(t, id, i), loose, uncounted)
  {
    hide AddrOk, RandomOk, TriedOk, NewOk, CountsOk;
    InfoIsFree(t, WithInfo(t, id, i), id);
    StatsTables(h, t, loose, id, i);
    StatsCounts(t, uncounted, id, i);
  }

  lemma {:induction false} StatsTables(h: Hashing, t: Tables, loose: set<nat>, id: nat, i: Info)
    requires TriedOk(h, t) && NewOk(h, t, loose) && id in t.info
    requires i ==
             t.info[id].(services := i.services, nTime := i.nTime, nLastTry := i.nLastTry,
                         nLastSuccess := i.nLastSuccess, nAttempts := i.nAttempts)
    requires i.fInTried ==> i.nLastSuccess != 0
    ensures TriedOk(h, WithInfo(t, id, i)) && NewOk(h, WithInfo(t, id, i), loose)
  {}

  lemma {:induction false} StatsCounts(t: Tables, uncounted: nat, id: nat, i: Info)
    requires CountsOk(t, uncounted) && id in t.info && i.fInTried == t.info[id].fInTried
    ensures CountsOk(WithInfo(t, id, i), uncounted)
  {
    assert TriedIds(WithInfo(t, id, i)) == TriedIds(t);
    SameSize(t, WithInfo(t, id, i));
  }
}
