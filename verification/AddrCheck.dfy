/**
 * Check_, the consistency check of the address manager. It is proved to pass exactly when every
 * single test it makes holds, to pass on every consistent manager, and to miss nothing else than
 * stale keys of mapAddr and the bound on ids.
 */
module AddrCheck {
  import opened AddrTables
  import opened AddrMan

  /** mapAddr[a]: a missing key reads as 0. */
  function Lookup(addr: map<NetAddr, nat>, a: NetAddr): nat {
    if a in addr then addr[a] else 0
  }

  predicate EntryPasses(t: Tables, id: nat)
    requires id in t.info
  {
    var i := t.info[id];
    && (if i.fInTried then i.nLastSuccess != 0 && i.nRefCount == 0 else 0 < i.nRefCount <= NEW_BUCKETS_PER_ADDRESS)
    && Lookup(t.addr, i.addr.net) == id
    && 0 <= i.nRandomPos < |t.random| && t.random[i.nRandomPos] == id
    && i.nLastTry >= 0 && i.nLastSuccess >= 0
  }

  ghost predicate TriedFits(h: Hashing, t: Tables, s: Slot)
    requires s in t.triedTable
  {
    var id := t.triedTable[s];
    id in t.info && t.info[id].fInTried && s == h.TriedSlot(t.info[id].addr)
  }

  ghost predicate InTried(h: Hashing, t: Tables, id: nat)
    requires id in t.info
  {
    var s := h.TriedSlot(t.info[id].addr);
    s in t.triedTable && t.triedTable[s] == id
  }

  ghost predicate NewFits(h: Hashing, t: Tables, s: Slot)
    requires s in t.newTable
  {
    var id := t.newTable[s];
    id in t.info && !t.info[id].fInTried && s == h.NewSlot(t.info[id].addr, s.bucket)
  }

  ghost function NewIds(t: Tables): set<nat> {
    set id | id in t.info && !t.info[id].fInTried
  }

  ghost predicate TablesPass(h: Hashing, t: Tables) {
    && (forall s | s in t.triedTable :: TriedFits(h, t, s))
    && (forall id | id in TriedIds(t) :: InTried(h, t, id))
    && (forall s | s in t.newTable :: NewFits(h, t, s))
    && forall id | id in NewIds(t) :: t.info[id].nRefCount == |Refs(t.newTable, id)|
  }

  ghost predicate Passes(h: Hashing, t: Tables) {
    && |t.random| == t.nTried + t.nNew && |TriedIds(t)| == t.nTried && |NewIds(t)| == t.nNew
    && (forall id | id in t.info :: EntryPasses(t, id))
    && TablesPass(h, t)
  }

  // ---------- what it finds ----------

  lemma {:induction false} ConsistentEntry(h: Hashing, t: Tables, id: nat)
    requires Ok(h, t, {}, 0) && id in t.info
    ensures EntryPasses(t, id)
  {
    hide Refs, CountsOk;
  }

  lemma {:induction false} ConsistentTables(h: Hashing, t: Tables)
    requires TriedOk(h, t) && NewOk(h, t, {})
    ensures TablesPass(h, t) && forall s | s in t.newTable :: s.bucket < NEW_BUCKET_COUNT
  {
    hide Refs;
  }

  lemma {:induction false} EveryIdIsOne(t: Tables)
    ensures |t.info| == |NewIds(t)| + |TriedIds(t)|
  {
    assert NewIds(t) + TriedIds(t) == t.info.Keys && NewIds(t) * TriedIds(t) == {};
    assert |t.info| == |t.info.Keys|;
  }

  /** Check_ returns 0 in every consistent state. */
  lemma {:induction false} ConsistentPasses(h: Hashing, t: Tables)
    requires Ok(h, t, {}, 0)
    ensures Passes(h, t)
  {
    hide AddrOk, TriedOk, NewOk, TimesOk, EntryPasses, TablesPass, TriedIds, NewIds;
    EveryIdIsOne(t);
    ConsistentTables(h, t);
    forall id | id in t.info
      ensures EntryPasses(t, id)
    {
      ConsistentEntry(h, t, id);
    }
  }

  /** What Check_ does not look at. */
  ghost predicate Unchecked(t: Tables) {
    && (forall id {:trigger t.info[id]} | id in t.info :: t.info[id].addr.net in t.addr && id < t.nIdCount)
    && (forall a {:trigger t.addr[a]} | a in t.addr :: t.addr[a] in t.info && t.info[t.addr[a]].addr.net == a)
    && forall s | s in t.newTable :: s.bucket < NEW_BUCKET_COUNT
  }

  /** That an address is missing from mapAddr goes unnoticed for the entry with id 0, and for no other. */
  lemma {:induction false} MissingKey(t: Tables, id: nat)
    requires id in t.info && EntryPasses(t, id)
    ensures var t' := t.(addr := t.addr - {t.info[id].addr.net}); EntryPasses(t', id) <==> id == 0
  {}

  /** Entries have different positions, and there are as many of them as positions. */
  lemma {:induction false} PositionsAreUsed(t: Tables, ids: set<nat>) returns (used: set<int>)
    requires ids <= t.info.Keys && forall id | id in t.info :: EntryPasses(t, id)
    ensures |used| == |ids| && forall i :: i in used <==> exists id :: id in ids && t.info[id].nRandomPos == i
    decreases |ids|
  {
    hide EntryPasses;
    if ids == {} {
      used := {};
    } else {
      var id :| id in ids;
      var rest := PositionsAreUsed(t, ids - {id});
      forall other | other in ids && other != id
        ensures t.info[other].nRandomPos != t.info[id].nRandomPos
      {
        PositionIsOwn(t, id, other);
      }
      used := rest + {t.info[id].nRandomPos};
      assert ids == (ids - {id}) + {id};
    }
  }

  lemma {:induction false} PositionIsOwn(t: Tables, id: nat, other: nat)
    requires id in t.info && other in t.info && id != other && EntryPasses(t, id) && EntryPasses(t, other)
    ensures t.info[id].nRandomPos != t.info[other].nRandomPos
  {}

  lemma {:induction false} FullSet(used: set<int>, n: nat)
    requires |used| == n && forall i | i in used :: 0 <= i < n
    ensures forall i | 0 <= i < n :: i in used
  {
    var all := Range(n);
    assert used <= all;
    assert used + (all - used) == all;
  }

  ghost function Range(n: nat): (r: set<int>)
    ensures |r| == n && forall i :: i in r <==> 0 <= i < n
  {
    if n == 0 then {} else Range(n - 1) + {n - 1}
  }

  lemma {:induction false} PassingIsOrdered(h: Hashing, t: Tables)
    requires Passes(h, t)
    ensures RandomOk(t)
  {
    hide TablesPass, TriedIds, NewIds, Passes;
    PassingCounts(h, t);
    var used := PositionsAreUsed(t, t.info.Keys);
    assert |t.info| == |t.info.Keys|;
    FullSet(used, |t.random|);
    forall i {:trigger t.random[i]} | 0 <= i < |t.random|
      ensures t.random[i] in t.info && t.info[t.random[i]].nRandomPos == i
    {
      assert i in used;
      var id :| id in t.info.Keys && t.info[id].nRandomPos == i;
      assert EntryPasses(t, id);
    }
  }

  lemma {:induction false} PassingCounts(h: Hashing, t: Tables)
    requires Passes(h, t)
    ensures |t.random| == |t.info| && t.nTried == |TriedIds(t)| && t.nNew == |t.info| - t.nTried && TablesPass(h, t)
    ensures forall id | id in t.info :: EntryPasses(t, id)
  {
    hide TablesPass, TriedIds, NewIds, EntryPasses;
    EveryIdIsOne(t);
  }

  lemma {:induction false} PassingTried(h: Hashing, t: Tables)
    requires TablesPass(h, t) && forall id | id in t.info :: EntryPasses(t, id)
    ensures TriedOk(h, t)
  {
    forall id | id in t.info && t.info[id].fInTried
      ensures InTried(h, t, id)
    {
      assert id in TriedIds(t);
    }
  }

  lemma {:induction false} PassingNew(h: Hashing, t: Tables)
    requires TablesPass(h, t) && Unchecked(t) && forall id | id in t.info :: EntryPasses(t, id)
    ensures NewOk(h, t, {})
  {
    hide TriedFits, InTried;
    forall id | id in t.info
      ensures t.info[id].nRefCount == |Refs(t.newTable, id)|
    {
      if t.info[id].fInTried {
        assert Refs(t.newTable, id) == {};
      } else {
        assert id in NewIds(t);
      }
    }
  }

  lemma {:induction false} PassingEntries(t: Tables)
    requires Unchecked(t) && forall id | id in t.info :: EntryPasses(t, id)
    ensures AddrOk(t) && TimesOk(t)
  {}

  lemma {:induction false} ConsistentUnchecked(t: Tables)
    requires AddrOk(t) && CountsOk(t, 0) && forall s | s in t.newTable :: s.bucket < NEW_BUCKET_COUNT
    ensures Unchecked(t)
  {}

  /** What Check_ can miss is exactly what it does not look at. */
  lemma {:induction false} PassingIsConsistent(h: Hashing, t: Tables)
    ensures Ok(h, t, {}, 0) <==> Passes(h, t) && Unchecked(t)
  {
    hide AddrOk, RandomOk, TriedOk, NewOk, TimesOk, TablesPass, TriedIds, NewIds, Passes, EntryPasses;
    if Ok(h, t, {}, 0) {
      ConsistentPasses(h, t);
      ConsistentTables(h, t);
      ConsistentUnchecked(t);
    }
    if Passes(h, t) && Unchecked(t) {
      PassingCounts(h, t);
      PassingEntries(t);
      PassingIsOrdered(h, t);
      PassingTried(h, t);
      PassingNew(h, t);
    }
  }

  // ---------- the tables, slot by slot ----------

  /** Tried entries not yet met. */
  ghost predicate TriedDone(h: Hashing, t: Tables, left: set<nat>, bucket: nat, pos: nat) {
    && (forall s | s in t.triedTable && Before(s, bucket, pos) :: TriedFits(h, t, s))
    && forall id :: id in left <==>
         id in TriedIds(t) && !(InTried(h, t, id) && Before(h.TriedSlot(t.info[id].addr), bucket, pos))
  }

  lemma {:induction false} TriedStart(h: Hashing, t: Tables)
    ensures TriedDone(h, t, TriedIds(t), 0, 0)
  {}

  lemma {:induction false} TriedSkip(h: Hashing, t: Tables, left: set<nat>, s: Slot)
    requires TriedDone(h, t, left, s.bucket, s.pos) && s !in t.triedTable
    ensures TriedDone(h, t, left, s.bucket, s.pos + 1)
  {}

  lemma {:induction false} TriedMeet(h: Hashing, t: Tables, left: set<nat>, s: Slot)
    requires TriedDone(h, t, left, s.bucket, s.pos) && s in t.triedTable
    ensures t.triedTable[s] in left && TriedFits(h, t, s)
            ==> TriedDone(h, t, left - {t.triedTable[s]}, s.bucket, s.pos + 1)
    ensures t.triedTable[s] !in left || !TriedFits(h, t, s) ==> !TablesPass(h, t)
    ensures t.triedTable[s] in left ==> t.triedTable[s] in t.info && t.info[t.triedTable[s]].fInTried
  {}

  lemma {:induction false} TriedRowDone(h: Hashing, t: Tables, left: set<nat>, bucket: nat)
    requires TriedDone(h, t, left, bucket, BUCKET_SIZE)
    requires forall s | s in t.triedTable :: s.pos < BUCKET_SIZE
    ensures TriedDone(h, t, left, bucket + 1, 0)
  {}

  /** References counted so far. */
  ghost function RefsBefore(table: Table, id: nat, bucket: nat, pos: nat): set<Slot> {
    set s | s in Refs(table, id) && Before(s, bucket, pos)
  }

  /** References of new entries not yet met. */
  ghost predicate NewDone(h: Hashing, t: Tables, left: map<nat, int>, bucket: nat, pos: nat) {
    && (forall s | s in t.newTable && Before(s, bucket, pos) :: NewFits(h, t, s))
    && (forall id | id in NewIds(t) :: |RefsBefore(t.newTable, id, bucket, pos)| <= t.info[id].nRefCount)
    && (forall id ::
        id in left <==> id in NewIds(t) && |RefsBefore(t.newTable, id, bucket, pos)| < t.info[id].nRefCount)
    && forall id | id in left :: left[id] == t.info[id].nRefCount - |RefsBefore(t.newTable, id, bucket, pos)|
  }

  /** One reference of the entry was met. */
  function Met(left: map<nat, int>, id: nat): map<nat, int>
    requires id in left
  {
    if left[id] - 1 == 0 then left - {id} else left[id := left[id] - 1]
  }

  lemma {:induction false} RefsBeforeSkip(table: Table, id: nat, s: Slot)
    requires !(s in table && table[s] == id)
    ensures RefsBefore(table, id, s.bucket, s.pos + 1) == RefsBefore(table, id, s.bucket, s.pos)
  {}

  lemma {:induction false} RefsBeforeMeet(table: Table, s: Slot)
    requires s in table
    ensures |RefsBefore(table, table[s], s.bucket, s.pos + 1)| == |RefsBefore(table, table[s], s.bucket, s.pos)| + 1
    ensures |RefsBefore(table, table[s], s.bucket, s.pos + 1)| <= |Refs(table, table[s])|
  {
    var id := table[s];
    var r := RefsBefore(table, id, s.bucket, s.pos + 1);
    assert r == RefsBefore(table, id, s.bucket, s.pos) + {s};
    assert r + (Refs(table, id) - r) == Refs(table, id);
  }

  lemma {:induction false} NewSkip(h: Hashing, t: Tables, left: map<nat, int>, s: Slot)
    requires NewDone(h, t, left, s.bucket, s.pos) && s !in t.newTable
    ensures NewDone(h, t, left, s.bucket, s.pos + 1)
  {
    hide RefsBefore, NewFits;
    forall id
      ensures RefsBefore(t.newTable, id, s.bucket, s.pos + 1) == RefsBefore(t.newTable, id, s.bucket, s.pos)
    {
      RefsBeforeSkip(t.newTable, id, s);
    }
  }

  lemma {:induction false} NewMeet(h: Hashing, t: Tables, left: map<nat, int>, s: Slot)
    requires NewDone(h, t, left, s.bucket, s.pos) && s in t.newTable
    ensures t.newTable[s] in left && NewFits(h, t, s) ==> NewDone(h, t, Met(left, t.newTable[s]), s.bucket, s.pos + 1)
    ensures t.newTable[s] !in left || !NewFits(h, t, s) ==> !TablesPass(h, t)
    ensures t.newTable[s] in left ==> t.newTable[s] in t.info && !t.info[t.newTable[s]].fInTried
  {
    hide RefsBefore, Refs;
    var v := t.newTable[s];
    RefsBeforeMeet(t.newTable, s);
    forall id | id != v
      ensures RefsBefore(t.newTable, id, s.bucket, s.pos + 1) == RefsBefore(t.newTable, id, s.bucket, s.pos)
    {
      RefsBeforeSkip(t.newTable, id, s);
    }
  }

  lemma {:induction false} NewRowDone(h: Hashing, t: Tables, left: map<nat, int>, bucket: nat)
    requires NewDone(h, t, left, bucket, BUCKET_SIZE)
    requires forall s | s in t.newTable :: s.pos < BUCKET_SIZE
    ensures NewDone(h, t, left, bucket + 1, 0)
  {
    hide NewFits, Refs;
    forall id
      ensures RefsBefore(t.newTable, id, bucket + 1, 0) == RefsBefore(t.newTable, id, bucket, BUCKET_SIZE)
    {
      RefsBeforeRow(t.newTable, id, bucket);
    }
  }

  lemma {:induction false} RefsBeforeRow(table: Table, id: nat, bucket: nat)
    requires forall s | s in table :: s.pos < BUCKET_SIZE
    ensures RefsBefore(table, id, bucket + 1, 0) == RefsBefore(table, id, bucket, BUCKET_SIZE)
  {}

  ghost predicate InBounds(table: Table, buckets: nat) {
    forall s | s in table :: s.bucket < buckets && s.pos < BUCKET_SIZE
  }

  /** Nothing is left over exactly if both tables pass. */
  lemma {:induction false} NothingLeft(h: Hashing, t: Tables, leftTried: set<nat>, leftNew: map<nat, int>)
    requires InBounds(t.triedTable, TRIED_BUCKET_COUNT) && InBounds(t.newTable, NEW_BUCKET_COUNT)
    requires TriedDone(h, t, leftTried, TRIED_BUCKET_COUNT, 0) && NewDone(h, t, leftNew, NEW_BUCKET_COUNT, 0)
    ensures leftTried == {} && leftNew == map[] <==> TablesPass(h, t)
  {
    forall id
      ensures RefsBefore(t.newTable, id, NEW_BUCKET_COUNT, 0) == Refs(t.newTable, id)
    {}
  }

  // ---------- Check_ ----------

  /** Reading a missing key of mapAddr adds it; that changes no later reading. */
  ghost predicate SameLookups(addr: map<NetAddr, nat>, now: map<NetAddr, nat>) {
    forall a :: Lookup(now, a) == Lookup(addr, a)
  }

  /** The tests on one entry. */
  method CheckEntry(m: CAddrMan, n: nat, ghost t: Tables) returns (code: int)
    requires n in m.mapInfo && m.mapInfo == t.info && m.vRandom == t.random && SameLookups(t.addr, m.mapAddr)
    modifies m`mapAddr
    ensures code == 0 <==> EntryPasses(t, n)
    ensures SameLookups(t.addr, m.mapAddr)
    ensures m.mapInfo[n].addr.net in old(m.mapAddr) ==> m.mapAddr == old(m.mapAddr)
  {
    var info := m.mapInfo[n];
    if info.fInTried {
      if info.nLastSuccess == 0 {
        return -1;
      }
      if info.nRefCount != 0 {
        return -2;
      }
    } else {
      if info.nRefCount < 0 || info.nRefCount > NEW_BUCKETS_PER_ADDRESS {
        return -3;
      }
      if info.nRefCount == 0 {
        return -4;
      }
    }
    if info.addr.net !in m.mapAddr {
      m.mapAddr := m.mapAddr[info.addr.net := 0];
    }
    if m.mapAddr[info.addr.net] != n {
      return -5;
    }
    if info.nRandomPos < 0 || info.nRandomPos >= |m.vRandom| || m.vRandom[info.nRandomPos] != n {
      return -14;
    }
    if info.nLastTry < 0 {
      return -6;
    }
    if info.nLastSuccess < 0 {
      return -8;
    }
    return 0;
  }

  /** The loop over mapInfo. The order of the entries only decides which code is returned. */
  method CheckEntries(m: CAddrMan, ghost t: Tables) returns (code: int, setTried: set<nat>, mapNew: map<nat, int>)
    requires t == m.State()
    modifies m`mapAddr
    ensures code == 0 <==> forall id | id in t.info :: EntryPasses(t, id)
    ensures code == 0 ==> setTried == TriedIds(t) && mapNew == map id | id in NewIds(t) :: t.info[id].nRefCount
    ensures SameLookups(t.addr, m.mapAddr)
    ensures (forall id | id in t.info :: t.info[id].addr.net in t.addr) ==> m.mapAddr == t.addr
  {
    hide EntryPasses, Filled;
    setTried, mapNew, code := {}, map[], 0;
    var todo := m.mapInfo.Keys;
    while todo != {}
      invariant todo <= m.mapInfo.Keys && SameLookups(t.addr, m.mapAddr)
      invariant forall id | id in t.info && id !in todo :: EntryPasses(t, id)
      invariant setTried == set id | id in TriedIds(t) && id !in todo
      invariant mapNew == map id | id in NewIds(t) && id !in todo :: t.info[id].nRefCount
      invariant (forall id | id in t.info :: t.info[id].addr.net in t.addr) ==> m.mapAddr == t.addr
    {
      var n :| n in todo;
      code := CheckEntry(m, n, t);
      if code != 0 {
        return;
      }
      if m.mapInfo[n].fInTried {
        setTried := setTried + {n};
      } else {
        mapNew := mapNew[n := m.mapInfo[n].nRefCount];
      }
      todo := todo - {n};
    }
  }

  lemma {:induction false} FilledFits(a: array2<int>)
    requires a.Length1 == BUCKET_SIZE
    ensures InBounds(Filled(a), a.Length0)
  {}

  /** One bucket of the tried table. */
  method CheckTriedBucket(m: CAddrMan, n: nat, setTried: set<nat>) returns (code: int, left: set<nat>)
    requires m.Sized() && n < TRIED_BUCKET_COUNT && TriedDone(m.h, m.State(), setTried, n, 0)
    ensures code == 0 ==> TriedDone(m.h, m.State(), left, n + 1, 0)
    ensures code != 0 ==> !TablesPass(m.h, m.State())
  {
    hide Filled, TriedDone, TablesPass;
    ghost var t := m.State();
    left, code := setTried, 0;
    for i := 0 to BUCKET_SIZE
      invariant TriedDone(m.h, t, left, n, i) && code == 0
    {
      ghost var s := Slot(n, i);
      FilledAt(m.vvTried, n, i);
      if m.vvTried[n, i] != -1 {
        var v := m.vvTried[n, i];
        TriedMeet(m.h, t, left, s);
        if v !in left {
          return -11, left;
        }
        var addr := m.mapInfo[v].addr;
        if m.h.TriedSlot(addr).bucket != n {
          return -17, left;
        }
        if m.h.TriedSlot(addr).pos != i {
          return -18, left;
        }
        left := left - {v};
      } else {
        TriedSkip(m.h, t, left, s);
      }
    }
    FilledFits(m.vvTried);
    TriedRowDone(m.h, t, left, n);
  }

  /** One bucket of the new table. */
  method CheckNewBucket(m: CAddrMan, n: nat, mapNew: map<nat, int>) returns (code: int, left: map<nat, int>)
    requires m.Sized() && n < NEW_BUCKET_COUNT && NewDone(m.h, m.State(), mapNew, n, 0)
    ensures code == 0 ==> NewDone(m.h, m.State(), left, n + 1, 0)
    ensures code != 0 ==> !TablesPass(m.h, m.State())
  {
    hide Filled, NewDone, TablesPass;
    ghost var t := m.State();
    left, code := mapNew, 0;
    for i := 0 to BUCKET_SIZE
      invariant NewDone(m.h, t, left, n, i) && code == 0
    {
      ghost var s := Slot(n, i);
      FilledAt(m.vvNew, n, i);
      if m.vvNew[n, i] != -1 {
        var v := m.vvNew[n, i];
        NewMeet(m.h, t, left, s);
        if v !in left {
          return -12, left;
        }
        if m.h.NewSlot(m.mapInfo[v].addr, n).pos != i {
          return -19, left;
        }
        left := Met(left, v);
      } else {
        NewSkip(m.h, t, left, s);
      }
    }
    FilledFits(m.vvNew);
    NewRowDone(m.h, t, left, n);
  }

  lemma {:induction false} NewStart(h: Hashing, t: Tables, mapNew: map<nat, int>)
    requires forall id | id in t.info :: EntryPasses(t, id)
    requires mapNew == map id | id in NewIds(t) :: t.info[id].nRefCount
    ensures NewDone(h, t, mapNew, 0, 0) && |mapNew| == |NewIds(t)|
  {
    forall id
      ensures RefsBefore(t.newTable, id, 0, 0) == {}
    {}
    assert mapNew.Keys == NewIds(t);
    assert |mapNew| == |mapNew.Keys|;
  }

  /** The loops over both tables. */
  method CheckTables(m: CAddrMan, setTried: set<nat>, mapNew: map<nat, int>) returns (code: int)
    requires m.Sized() && TriedDone(m.h, m.State(), setTried, 0, 0) && NewDone(m.h, m.State(), mapNew, 0, 0)
    ensures code == 0 <==> TablesPass(m.h, m.State())
  {
    hide Filled, TriedDone, NewDone, TablesPass;
    var leftTried, leftNew := setTried, mapNew;
    code := 0;
    for n := 0 to TRIED_BUCKET_COUNT
      invariant TriedDone(m.h, m.State(), leftTried, n, 0) && code == 0
    {
      code, leftTried := CheckTriedBucket(m, n, leftTried);
      if code != 0 {
        return;
      }
    }
    for n := 0 to NEW_BUCKET_COUNT
      invariant NewDone(m.h, m.State(), leftNew, n, 0) && code == 0
    {
      code, leftNew := CheckNewBucket(m, n, leftNew);
      if code != 0 {
        return;
      }
    }
    FilledFits(m.vvTried);
    FilledFits(m.vvNew);
    NothingLeft(m.h, m.State(), leftTried, leftNew);
    if leftTried != {} {
      return -13;
    }
    if leftNew != map[] {
      return -15;
    }
  }

  /** The tables do not depend on mapAddr. */
  lemma {:induction false} TablesIgnoreAddr(h: Hashing, t: Tables, addr: map<NetAddr, nat>, left: set<nat>,
                                            leftNew: map<nat, int>)
    ensures TablesPass(h, t.(addr := addr)) == TablesPass(h, t)
    ensures TriedDone(h, t.(addr := addr), left, 0, 0) == TriedDone(h, t, left, 0, 0)
    ensures NewDone(h, t.(addr := addr), leftNew, 0, 0) == NewDone(h, t, leftNew, 0, 0)
  {
    hide RefsBefore, Refs;
    var u := t.(addr := addr);
    assert TriedIds(u) == TriedIds(t) && NewIds(u) == NewIds(t);
    assert forall s | s in t.triedTable :: TriedFits(h, u, s) == TriedFits(h, t, s);
    assert forall s | s in t.newTable :: NewFits(h, u, s) == NewFits(h, t, s);
    assert forall id | id in t.info :: InTried(h, u, id) == InTried(h, t, id);
  }

  /** Check_: 0 exactly if every test passes. It may add keys to mapAddr, but not in a consistent state. */
  method Check(m: CAddrMan, nullKey: bool) returns (code: int)
    requires m.Sized()
    modifies m`mapAddr
    ensures code == 0 <==> Passes(m.h, old(m.State())) && !nullKey
    ensures old(m.Valid()) ==> m.State() == old(m.State()) && (code == 0 <==> !nullKey)
  {
    hide Ok, Filled, TriedDone, NewDone, TablesPass, EntryPasses, TriedIds, NewIds;
    ghost var t := m.State();
    if m.Valid() {
      ConsistentPasses(m.h, t);
      ConsistentAddr(m.h, t);
    }
    if |m.vRandom| != m.nTried + m.nNew {
      return -7;
    }
    var setTried, mapNew;
    code, setTried, mapNew := CheckEntries(m, t);
    if code != 0 {
      return;
    }
    TriedStart(m.h, t);
    NewStart(m.h, t, mapNew);
    if |setTried| != m.nTried {
      return -9;
    }
    if |mapNew| != m.nNew {
      return -10;
    }
    TablesIgnoreAddr(m.h, t, m.mapAddr, setTried, mapNew);
    code := CheckTables(m, setTried, mapNew);
    if code == 0 && nullKey {
      code := -16;
    }
  }

  lemma {:induction false} ConsistentAddr(h: Hashing, t: Tables)
    requires Ok(h, t, {}, 0)
    ensures forall id | id in t.info :: t.info[id].addr.net in t.addr
  {}
}
