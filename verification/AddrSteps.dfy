/**
 * The operations of the address manager on its tables as values, built from single changes, and
 * the proof that each keeps the invariant.
 */
module AddrSteps {
  import opened AddrTables

  /** Entry `id` says the same in both, except where it is in vRandom. */
  ghost predicate SameEntry(t: Tables, u: Tables, id: nat) {
    id in t.info && id in u.info && u.info[id] == t.info[id].(nRandomPos := u.info[id].nRandomPos)
  }

  // ---------- ClearNew ----------

  ghost predicate CanClear(t: Tables, s: Slot) {
    s in t.newTable ==>
      && t.newTable[s] in t.info
      && (t.info[t.newTable[s]].nRefCount == 1 ==> CanDelete(TakeSlot(t, s), t.newTable[s]))
  }

  /** The slot is emptied; its entry is forgotten if that was its last reference. */
  ghost function Cleared(t: Tables, s: Slot): Tables
    requires CanClear(t, s)
  {
    if s !in t.newTable then t
    else if t.info[t.newTable[s]].nRefCount == 1 then Delete(TakeSlot(t, s), t.newTable[s])
    else TakeSlot(t, s)
  }

  /** What clearing leaves alone. */
  ghost predicate AfterClear(t: Tables, u: Tables, s: Slot) {
    && u.newTable == t.newTable - {s} && u.triedTable == t.triedTable && u.nTried == t.nTried
    && u.nIdCount == t.nIdCount
    && u.info.Keys <= t.info.Keys
    && (forall id | id in t.info && !(s in t.newTable && t.newTable[s] == id) :: SameEntry(t, u, id))
    && (s in t.newTable && t.newTable[s] in t.info && t.info[t.newTable[s]].nRefCount > 1 ==> t.newTable[s] in u.info)
  }

  lemma {:induction false} DeleteFrame(t: Tables, id: nat)
    requires RandomOk(t) && CanDelete(t, id)
    ensures var u := Delete(t, id);
            && u.newTable == t.newTable && u.triedTable == t.triedTable && u.nTried == t.nTried
            && u.nIdCount == t.nIdCount
            && u.info.Keys == t.info.Keys - {id}
            && forall other | other in t.info && other != id :: SameEntry(t, u, other)
  {
    hide RandomOk, SwapRandom;
    SwapKeepsRandom(t, t.info[id].nRandomPos, |t.random| - 1);
  }

  lemma {:induction false} ClearKeepsOk(h: Hashing, t: Tables, loose: set<nat>, uncounted: nat, s: Slot)
    requires Ok(h, t, loose, uncounted)
    ensures CanClear(t, s) && Ok(h, Cleared(t, s), loose, uncounted) && AfterClear(t, Cleared(t, s), s)
  {
    hide AddrOk, RandomOk, TriedOk, NewOk, CountsOk, TimesOk, Delete, CanDelete;
    if s in t.newTable {
      TakeKeepsOk(h, t, loose, uncounted, s);
      if t.info[t.newTable[s]].nRefCount == 1 {
        SlotKnown(h, t, loose, s);
        assert loose + {t.newTable[s]} - {t.newTable[s]} == loose;
        DeleteKeepsOk(h, TakeSlot(t, s), loose + {t.newTable[s]}, uncounted, t.newTable[s]);
        DeleteFrame(TakeSlot(t, s), t.newTable[s]);
      }
    } else {
      assert t.newTable - {s} == t.newTable;
    }
  }

  // ---------- MakeTried ----------

  /** The entry is in no bucket at all, and not counted as new. */
  function Unlisted(t: Tables, id: nat): Tables
    requires id in t.info
  {
    var newTable := map s | s in t.newTable && t.newTable[s] != id :: t.newTable[s];
    WithInfo(t, id, t.info[id].(nRefCount := 0)).(newTable := newTable, nNew := t.nNew - 1)
  }

  ghost function HomeSlot(h: Hashing, i: Info): Slot {
    h.NewSlot(i.addr, h.NewBucket(i.addr, i.source))
  }

  ghost predicate CanMoveBack(h: Hashing, t: Tables, old_: nat) {
    && old_ in t.info && CanClear(Evicted(h, t, old_), HomeSlot(h, t.info[old_]))
    && old_ in Cleared(Evicted(h, t, old_), HomeSlot(h, t.info[old_])).info
  }

  /** A tried entry goes back to the new table, in the place of whatever is there. */
  ghost function MovedBack(h: Hashing, t: Tables, old_: nat): Tables
    requires CanMoveBack(h, t, old_)
  {
    var s := HomeSlot(h, t.info[old_]);
    var c := Cleared(Evicted(h, t, old_), s);
    PutSlot(c, s, old_).(nNew := c.nNew + 1)
  }

  /** Entry id is not the one in that slot. */
  ghost predicate NotIn(table: Table, s: Slot, id: nat) {
    s in table ==> table[s] != id
  }

  lemma {:induction false} MoveBackFrame(h: Hashing, t: Tables, old_: nat)
    requires CanMoveBack(h, t, old_)
    requires var e, s := Evicted(h, t, old_), HomeSlot(h, t.info[old_]);
             NotIn(t.newTable, s, old_) && AfterClear(e, Cleared(e, s), s)
    requires t.info[old_].nRefCount == 0
    ensures var u, s := MovedBack(h, t, old_), HomeSlot(h, t.info[old_]);
            && u.triedTable == t.triedTable - {h.TriedSlot(t.info[old_].addr)} && u.newTable == t.newTable[s := old_]
            && old_ in u.info && !u.info[old_].fInTried && u.info[old_].nRefCount == 1
            && u.info[old_].addr == t.info[old_].addr
            && forall id | id in t.info && id != old_ && NotIn(t.newTable, s, id) :: SameEntry(t, u, id)
  {
    var e, s := Evicted(h, t, old_), HomeSlot(h, t.info[old_]);
    hide Cleared, CanClear, HomeSlot;
    var c := Cleared(e, s);
    assert SameEntry(e, c, old_);
    assert (t.newTable - {s})[s := old_] == t.newTable[s := old_];
    forall id | id in t.info && id != old_ && NotIn(t.newTable, s, id)
      ensures SameEntry(t, MovedBack(h, t, old_), id)
    {
      assert SameEntry(e, c, id);
    }
  }

  lemma {:induction false} MoveBackKeepsOk(h: Hashing, t: Tables, loose: set<nat>, uncounted: nat, old_: nat)
    requires Ok(h, t, loose, uncounted) && old_ in t.info && t.info[old_].fInTried
    ensures CanMoveBack(h, t, old_) && Ok(h, MovedBack(h, t, old_), loose, uncounted)
    ensures var e, s := Evicted(h, t, old_), HomeSlot(h, t.info[old_]);
            NotIn(t.newTable, s, old_) && CanClear(e, s) && AfterClear(e, Cleared(e, s), s)
              && t.info[old_].nRefCount == 0
  {
    hide AddrOk, RandomOk, TriedOk, NewOk, CountsOk, TimesOk, Cleared, CanClear;
    var s, e := HomeSlot(h, t.info[old_]), Evicted(h, t, old_);
    TriedHasNoRefs(h, t, loose, old_);
    EvictKeepsOk(h, t, loose, uncounted, old_);
    ClearKeepsOk(h, e, loose + {old_}, uncounted + 1, s);
    var c := Cleared(e, s);
    assert SameEntry(e, c, old_);
    PutKeepsOk(h, c, loose + {old_}, uncounted + 1, s, old_);
    assert loose + {old_} - {old_} == loose;
    RecountKeepsOk(h, PutSlot(c, s, old_), loose, uncounted + 1, 1);
  }

  lemma {:induction false} TriedHasNoRefs(h: Hashing, t: Tables, loose: set<nat>, id: nat)
    requires TriedOk(h, t) && NewOk(h, t, loose) && id in t.info && t.info[id].fInTried
    ensures t.info[id].nRefCount == 0 && id !in loose && forall s | s in t.newTable :: t.newTable[s] != id
  {}

  lemma {:induction false} LooseIsNowhere(h: Hashing, t: Tables, loose: set<nat>, id: nat)
    requires NewOk(h, t, loose) && id in loose
    ensures forall s :: NotIn(t.newTable, s, id)
  {
    forall s | s in t.newTable
      ensures t.newTable[s] != id
    {
      assert s in Refs(t.newTable, t.newTable[s]);
    }
  }

  lemma {:induction false} UnlistKeepsOk(h: Hashing, t: Tables, id: nat)
    requires Ok(h, t, {}, 0) && id in t.info && !t.info[id].fInTried
    ensures Ok(h, Unlisted(t, id), {id}, 1)
  {
    hide AddrOk, RandomOk, TriedOk, NewOk, CountsOk, TimesOk;
    var u := Unlisted(t, id).(nNew := t.nNew);
    RefsAreFree(h, t, u, id, 0);
    UnlistKeepsNew(h, t, id);
    RecountKeepsOk(h, u, {id}, 0, -1);
  }

  lemma {:induction false} UnlistKeepsNew(h: Hashing, t: Tables, id: nat)
    requires NewOk(h, t, {}) && id in t.info && !t.info[id].fInTried
    ensures NewOk(h, Unlisted(t, id).(nNew := t.nNew), {id})
  {
    var u := Unlisted(t, id);
    assert Refs(u.newTable, id) == {};
    forall other | other != id
      ensures Refs(u.newTable, other) == Refs(t.newTable, other)
    {}
  }

  lemma {:induction false} UnlistedEntry(t: Tables, id: nat)
    requires id in t.info
    ensures var u := Unlisted(t, id);
            id in u.info && u.info[id] == t.info[id].(nRefCount := 0) && u.triedTable == t.triedTable
              && u.nTried == t.nTried
  {}

  /** What MakeTried knows after its first loop. */
  lemma {:induction false} UnlistIsOk(h: Hashing, t: Tables, id: nat)
    requires Ok(h, t, {}, 0) && id in t.info && !t.info[id].fInTried
    ensures var u := PartlyUnlisted(t, id, NEW_BUCKET_COUNT);
            u.info[id].nRefCount == 0 && u.(nNew := u.nNew - 1) == Unlisted(t, id)
    ensures var u := Unlisted(t, id);
            && Ok(h, u, {id}, 1)
            && id in u.info && u.info[id] == t.info[id].(nRefCount := 0) && u.triedTable == t.triedTable
            && u.nTried == t.nTried
  {
    hide AddrOk, RandomOk, TriedOk, NewOk, CountsOk, TimesOk, PartlyUnlisted, Unlisted;
    PartlyDone(h, t, id);
    UnlistedEntry(t, id);
    UnlistKeepsOk(h, t, id);
  }

  /** What MakeTried knows when it has taken an entry out of the tried table. */
  lemma {:induction false} EvictIsOk(h: Hashing, t: Tables, loose: set<nat>, uncounted: nat, id: nat)
    requires Ok(h, t, loose, uncounted) && id in t.info && t.info[id].fInTried
    ensures Ok(h, Evicted(h, t, id), loose + {id}, uncounted + 1)
    ensures t.info[id].nRefCount == 0
  {
    hide AddrOk, RandomOk, NewOk, CountsOk, TimesOk, Evicted;
    EvictKeepsOk(h, t, loose, uncounted, id);
  }

  lemma {:induction false} TriedIsKnown(h: Hashing, t: Tables, loose: set<nat>, uncounted: nat, s: Slot)
    requires Ok(h, t, loose, uncounted) && s in t.triedTable
    ensures t.triedTable[s] in t.info && t.info[t.triedTable[s]].fInTried && t.triedTable[s] !in loose
  {
    hide AddrOk, RandomOk, CountsOk, TimesOk;
  }

  // The loop over all new buckets that takes an entry out of them.

  ghost function Without(table: Table, id: nat, bucket: nat): Table {
    map s | s in table && !(table[s] == id && s.bucket < bucket) :: table[s]
  }

  ghost function PartlyUnlisted(t: Tables, id: nat, bucket: nat): Tables
    requires id in t.info
  {
    var table := Without(t.newTable, id, bucket);
    WithInfo(t, id, t.info[id].(nRefCount := |Refs(table, id)|)).(newTable := table)
  }

  lemma {:induction false} PartlyStarts(h: Hashing, t: Tables, id: nat)
    requires NewOk(h, t, {}) && id in t.info
    ensures PartlyUnlisted(t, id, 0) == t
  {
    assert Without(t.newTable, id, 0) == t.newTable;
  }

  /** An entry has at most one position in a bucket. */
  lemma {:induction false} OnePlace(h: Hashing, t: Tables, id: nat, bucket: nat, k: Slot)
    requires NewOk(h, t, {}) && k in t.newTable && t.newTable[k] == id && k.bucket == bucket
    ensures id in t.info && k == h.NewSlot(t.info[id].addr, bucket)
  {}

  lemma {:induction false} WithoutStep(h: Hashing, t: Tables, id: nat, bucket: nat)
    requires NewOk(h, t, {}) && id in t.info
    ensures var table, s := Without(t.newTable, id, bucket), h.NewSlot(t.info[id].addr, bucket);
            Without(t.newTable, id, bucket + 1) == if s in table && table[s] == id then table - {s} else table
  {
    hide NewOk, Hashing.NewSlot;
    forall k | k in t.newTable && t.newTable[k] == id && k.bucket == bucket
      ensures k == h.NewSlot(t.info[id].addr, bucket)
    {
      OnePlace(h, t, id, bucket, k);
    }
  }

  lemma {:induction false} PartlyStep(h: Hashing, t: Tables, id: nat, bucket: nat)
    requires NewOk(h, t, {}) && id in t.info
    ensures var u, s := PartlyUnlisted(t, id, bucket), h.NewSlot(t.info[id].addr, bucket);
            PartlyUnlisted(t, id, bucket + 1) == if s in u.newTable && u.newTable[s] == id then TakeSlot(u, s) else u
  {
    hide Without, Refs, NewOk;
    var table, s := Without(t.newTable, id, bucket), h.NewSlot(t.info[id].addr, bucket);
    WithoutStep(h, t, id, bucket);
    if s in table && table[s] == id {
      TakeRefs(table, s);
    }
  }

  lemma {:induction false} PartlyKnown(t: Tables, id: nat, bucket: nat)
    requires id in t.info
    ensures var u := PartlyUnlisted(t, id, bucket); id in u.info && u.info[id].addr == t.info[id].addr
  {}

  lemma {:induction false} PartlyDone(h: Hashing, t: Tables, id: nat)
    requires NewOk(h, t, {}) && id in t.info
    ensures var u := PartlyUnlisted(t, id, NEW_BUCKET_COUNT);
            u.info[id].nRefCount == 0 && u.(nNew := u.nNew - 1) == Unlisted(t, id)
  {
    var table := Without(t.newTable, id, NEW_BUCKET_COUNT);
    assert Refs(table, id) == {};
    assert table == Unlisted(t, id).newTable;
  }

  ghost predicate CanPromote(h: Hashing, t: Tables, id: nat) {
    && id in t.info
    && var u := Unlisted(t, id);
       var s := h.TriedSlot(t.info[id].addr);
       s in u.triedTable ==> CanMoveBack(h, u, u.triedTable[s]) && id in MovedBack(h, u, u.triedTable[s]).info
  }

  /** From the new table to the tried one; what was in that slot goes back to the new table. */
  ghost function Promoted(h: Hashing, t: Tables, id: nat): Tables
    requires CanPromote(h, t, id)
  {
    var u := Unlisted(t, id);
    var s := h.TriedSlot(t.info[id].addr);
    Placed(h, if s in u.triedTable then MovedBack(h, u, u.triedTable[s]) else u, id)
  }

  /** Before the entry is placed its slot is free; what was there is in its home slot of the new table. */
  lemma {:induction false} RoomIsMade(h: Hashing, t: Tables, id: nat) returns (v: Tables)
    requires Ok(h, t, {}, 0) && id in t.info && !t.info[id].fInTried
    ensures CanPromote(h, t, id) && id in v.info && Promoted(h, t, id) == Placed(h, v, id) && Ok(h, v, {id}, 1)
    ensures SameEntry(Unlisted(t, id), v, id)
    ensures var u, s := Unlisted(t, id), h.TriedSlot(t.info[id].addr);
            && v.triedTable == t.triedTable - {s}
            && (s !in t.triedTable ==> v == u)
            && (s in t.triedTable && t.triedTable[s] in t.info ==>
                  var old_ := t.triedTable[s];
                  && old_ in v.info && !v.info[old_].fInTried && v.info[old_].nRefCount == 1 && old_ != id
                  && v.newTable == u.newTable[HomeSlot(h, t.info[old_]) := old_])
  {
    hide AddrOk, RandomOk, CountsOk, TimesOk, NewOk, MovedBack, CanMoveBack;
    var u, s := Unlisted(t, id), h.TriedSlot(t.info[id].addr);
    v := u;
    UnlistKeepsOk(h, t, id);
    if s in u.triedTable {
      var old_ := u.triedTable[s];
      MoveBackKeepsOk(h, u, {id}, 1, old_);
      v := MovedBack(h, u, old_);
      MoveBackFrame(h, u, old_);
      LooseIsNowhere(h, u, {id}, id);
      assert SameEntry(u, v, id);
    }
  }

  lemma {:induction false} PromoteKeepsOk(h: Hashing, t: Tables, id: nat)
    requires Ok(h, t, {}, 0) && id in t.info && !t.info[id].fInTried && t.info[id].nLastSuccess != 0
    ensures CanPromote(h, t, id) && Ok(h, Promoted(h, t, id), {}, 0)
    ensures var u := Promoted(h, t, id); id in u.info && u.info[id].fInTried && u.info[id].addr == t.info[id].addr
    ensures var s := h.TriedSlot(t.info[id].addr); Promoted(h, t, id).triedTable == t.triedTable[s := id]
  {
    hide Ok, CanPromote, Promoted;
    var v := RoomIsMade(h, t, id);
    var s := h.TriedSlot(t.info[id].addr);
    assert {id} - {id} == {};
    PlaceKeepsOk(h, v, {id}, 1, id);
    assert (t.triedTable - {s})[s := id] == t.triedTable[s := id];
  }

  /** Besides the entry: every bucket slot is as it was. */
  ghost predicate SameBuckets(t: Tables, u: Tables, id: nat, except: set<Slot>) {
    forall k | k !in except ::
      && (k in u.newTable <==> k in t.newTable && t.newTable[k] != id)
      && (k in u.newTable ==> u.newTable[k] == t.newTable[k])
  }

  /**
   * What promotion does. The entry is in its slot of the tried table, in no bucket, and keeps its data.
   * What was in that slot is new again, with one reference: in the bucket of its own address and source.
   */
  lemma {:induction false} PromotedExactly(h: Hashing, t: Tables, id: nat)
    requires Ok(h, t, {}, 0) && id in t.info && !t.info[id].fInTried && t.info[id].nLastSuccess != 0
    requires CanPromote(h, t, id)
    ensures var u, s := Promoted(h, t, id), h.TriedSlot(t.info[id].addr);
            && u.triedTable == t.triedTable[s := id] && id in u.info
            && u.info[id] == t.info[id].(nRefCount := 0, fInTried := true, nRandomPos := u.info[id].nRandomPos)
            && (s !in t.triedTable ==> SameBuckets(t, u, id, {}))
            && (s in t.triedTable && t.triedTable[s] in t.info ==>
                  var old_ := t.triedTable[s];
                  var i := t.info[old_];
                  var home := h.NewSlot(i.addr, h.NewBucket(i.addr, i.source));
                  && old_ in u.info && !u.info[old_].fInTried && u.info[old_].nRefCount == 1
                  && home in u.newTable && u.newTable[home] == old_ && SameBuckets(t, u, id, {home}))
  {
    hide Ok, CanPromote, Promoted;
    var v := RoomIsMade(h, t, id);
    var s := h.TriedSlot(t.info[id].addr);
    assert (t.triedTable - {s})[s := id] == t.triedTable[s := id];
  }

  // ---------- Add_ ----------

  const HORIZON_DAYS: int := 30
  const RETRIES: int := 3
  const MAX_FAILURES: int := 10
  const MIN_FAIL_DAYS: int := 7

  /** CAddrInfo::IsTerrible. */
  predicate IsTerrible(i: Info, nNow: int) {
    if i.nLastTry != 0 && i.nLastTry >= nNow - 60 then false
    else if i.nTime > nNow + 10 * 60 then true
    else if i.nTime == 0 || nNow - i.nTime > HORIZON_DAYS * 24 * 60 * 60 then true
    else if i.nLastSuccess == 0 && i.nAttempts >= RETRIES then true
    else nNow - i.nLastSuccess > MIN_FAIL_DAYS * 24 * 60 * 60 && i.nAttempts >= MAX_FAILURES
  }

  /**
   * An entry worth keeping was tried in the last minute. Or it was seen between 30 days ago and ten
   * minutes ahead, has worked before or failed less than three times, and has worked in the last week
   * or failed less than ten times.
   */
  predicate WorthKeeping(i: Info, nNow: int) {
    || (i.nLastTry != 0 && nNow - i.nLastTry <= 60)
    || (&& i.nTime != 0 && nNow - 2_592_000 <= i.nTime <= nNow + 600
        && (i.nLastSuccess != 0 || i.nAttempts < 3)
        && (nNow - i.nLastSuccess <= 604_800 || i.nAttempts < 10))
  }

  lemma {:induction false} TerribleExactly(i: Info, nNow: int)
    ensures IsTerrible(i, nNow) <==> !WorthKeeping(i, nNow)
  {}

  /** May an entry in the way be overwritten? */
  predicate Overwrites(existing: Info, newcomer: Info, nNow: int) {
    IsTerrible(existing, nNow) || (existing.nRefCount > 1 && newcomer.nRefCount == 0)
  }

  ghost predicate CanList(h: Hashing, t: Tables, id: nat, source: NetAddr) {
    && id in t.info
    && (t.info[id].nRefCount == 0 ==> CanDelete(t, id))
    && var s := h.NewSlot(t.info[id].addr, h.NewBucket(t.info[id].addr, source));
       && CanClear(t, s) && (NotIn(t.newTable, s, id) ==> id in Cleared(t, s).info)
       && (s in t.newTable ==> t.newTable[s] in t.info)
  }

  /** Another reference to the entry from the bucket of this source, if there is room. */
  ghost function Listed(h: Hashing, t: Tables, id: nat, source: NetAddr, nNow: int): Tables
    requires CanList(h, t, id, source)
  {
    var s := h.NewSlot(t.info[id].addr, h.NewBucket(t.info[id].addr, source));
    if !NotIn(t.newTable, s, id) then t
    else if s !in t.newTable || Overwrites(t.info[t.newTable[s]], t.info[id], nNow) then PutSlot(Cleared(t, s), s, id)
    else if t.info[id].nRefCount == 0 then Delete(t, id)
    else t
  }

  ghost function LooseIfNew(t: Tables, id: nat): set<nat>
    requires id in t.info
  {
    if t.info[id].nRefCount == 0 then {id} else {}
  }

  lemma {:induction false} ListKeepsOk(h: Hashing, t: Tables, id: nat, source: NetAddr, nNow: int)
    requires id in t.info && Ok(h, t, LooseIfNew(t, id), 0) && !t.info[id].fInTried
             && t.info[id].nRefCount < NEW_BUCKETS_PER_ADDRESS
    ensures CanList(h, t, id, source) && Ok(h, Listed(h, t, id, source, nNow), {}, 0)
  {
    hide AddrOk, RandomOk, TriedOk, NewOk, CountsOk, TimesOk, Cleared, CanClear, Delete, CanDelete, IsTerrible;
    var loose := LooseIfNew(t, id);
    var s := h.NewSlot(t.info[id].addr, h.NewBucket(t.info[id].addr, source));
    ClearKeepsOk(h, t, loose, 0, s);
    if s in t.newTable {
      SlotKnown(h, t, loose, s);
    }
    if t.info[id].nRefCount == 0 {
      DeleteKeepsOk(h, t, loose, 0, id);
      assert loose - {id} == {};
    }
    if NotIn(t.newTable, s, id) {
      assert SameEntry(t, Cleared(t, s), id);
      PutKeepsOk(h, Cleared(t, s), loose, 0, s, id);
      assert loose - {id} == {};
    }
  }

  /** Adding an address makes the manager forget no other address than the one it overwrites. */
  lemma {:induction false} ListForgetsAtMostOne(h: Hashing, t: Tables, id: nat, source: NetAddr, nNow: int, other: nat)
    requires id in t.info && Ok(h, t, LooseIfNew(t, id), 0) && !t.info[id].fInTried
             && t.info[id].nRefCount < NEW_BUCKETS_PER_ADDRESS
    requires other in t.info && other != id && CanList(h, t, id, source)
    ensures var u, s :=
            Listed(h, t, id, source, nNow), h.NewSlot(t.info[id].addr, h.NewBucket(t.info[id].addr, source));
            other !in u.info <==>
              && s in t.newTable && t.newTable[s] == other && t.info[other].nRefCount == 1
              && !WorthKeeping(t.info[other], nNow)
  {
    hide AddrOk, RandomOk, TriedOk, NewOk, CountsOk, TimesOk, Delete, CanDelete, IsTerrible, WorthKeeping;
    TerribleExactly(t.info[other], nNow);
    var loose := LooseIfNew(t, id);
    var s := h.NewSlot(t.info[id].addr, h.NewBucket(t.info[id].addr, source));
    ClearKeepsOk(h, t, loose, 0, s);
    if s in t.newTable {
      SlotKnown(h, t, loose, s);
      if t.info[t.newTable[s]].nRefCount == 1 {
        TakeKeepsOk(h, t, loose, 0, s);
        DeleteFrame(TakeSlot(t, s), t.newTable[s]);
      }
    }
    if t.info[id].nRefCount == 0 {
      DeleteKeepsOk(h, t, loose, 0, id);
      DeleteFrame(t, id);
    }
    assert !(s in t.newTable && t.newTable[s] == other) ==> SameEntry(t, Cleared(t, s), other);
    assert t.info[id].nRefCount == 0 ==> SameEntry(t, Delete(t, id), other);
  }

  /** The place an entry gets for this source is free, or what is there gives way. */
  ghost predicate HasRoom(t: Tables, s: Slot, id: nat, nNow: int)
    requires id in t.info
  {
    || s !in t.newTable
    || (&& t.newTable[s] in t.info
        && var there := t.info[t.newTable[s]];
           !WorthKeeping(there, nNow) || (there.nRefCount > 1 && t.info[id].nRefCount == 0))
  }

  /**
   * What listing does: with room the entry is at its place in the bucket of this source and has one
   * more reference; without, nothing moves, and an entry that is nowhere else is forgotten again.
   */
  lemma {:induction false} ListsExactly(h: Hashing, t: Tables, id: nat, source: NetAddr, nNow: int)
    requires id in t.info && Ok(h, t, LooseIfNew(t, id), 0) && !t.info[id].fInTried
             && t.info[id].nRefCount < NEW_BUCKETS_PER_ADDRESS
    requires CanList(h, t, id, source)
    ensures var s := h.NewSlot(t.info[id].addr, h.NewBucket(t.info[id].addr, source));
            var u, refs := Listed(h, t, id, source, nNow), t.info[id].nRefCount;
            && u.newTable - {s} == t.newTable - {s} && u.triedTable == t.triedTable
            && (s in t.newTable && t.newTable[s] == id ==> u == t)
            && (NotIn(t.newTable, s, id) && HasRoom(t, s, id, nNow) ==>
                  s in u.newTable && u.newTable[s] == id && id in u.info
                    && u.info[id] == t.info[id].(nRefCount := refs + 1, nRandomPos := u.info[id].nRandomPos))
            && (NotIn(t.newTable, s, id) && !HasRoom(t, s, id, nNow) ==>
                  u.newTable == t.newTable && (id in u.info <==> refs > 0) && (refs > 0 ==> u == t))
  {
    hide AddrOk, RandomOk, TriedOk, NewOk, CountsOk, TimesOk, Delete, CanDelete, IsTerrible, WorthKeeping;
    var loose := LooseIfNew(t, id);
    var s := h.NewSlot(t.info[id].addr, h.NewBucket(t.info[id].addr, source));
    ClearKeepsOk(h, t, loose, 0, s);
    if s in t.newTable {
      SlotKnown(h, t, loose, s);
      TerribleExactly(t.info[t.newTable[s]], nNow);
    }
    if t.info[id].nRefCount == 0 {
      DeleteKeepsOk(h, t, loose, 0, id);
      DeleteFrame(t, id);
    } else {
      RefsPositive(h, t, loose, id);
    }
    assert NotIn(t.newTable, s, id) ==> SameEntry(t, Cleared(t, s), id);
  }

  lemma {:induction false} RefsPositive(h: Hashing, t: Tables, loose: set<nat>, id: nat)
    requires Ok(h, t, loose, 0) && id in t.info && !t.info[id].fInTried
    ensures t.info[id].nRefCount >= 0
  {
    hide AddrOk, RandomOk, TriedOk, CountsOk, TimesOk;
  }

  // ---------- where an entry is ----------

  /** An entry that is not tried is in some bucket, and its reference count is at least one. */
  lemma {:induction false} ListedSomewhere(h: Hashing, t: Tables, id: nat) returns (bucket: nat)
    requires NewOk(h, t, {}) && id in t.info && !t.info[id].fInTried
    ensures bucket < NEW_BUCKET_COUNT
    ensures var s := h.NewSlot(t.info[id].addr, bucket); s in t.newTable && t.newTable[s] == id
  {
    var s :| s in Refs(t.newTable, id);
    bucket := s.bucket;
  }
}
