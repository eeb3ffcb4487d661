/**
 * CAddrMan, the address manager, with its two bucket tables as arrays of ids in which -1 marks
 * a free slot. Each method is proved to do to the arrays, maps and counters what the operation of
 * the same name does to the tables as values, and so to keep the invariant.
 */
module AddrMan {
  import opened Options
  import opened Powers
  import opened AddrTables
  import opened AddrSteps

  /** The occupied slots of a bucket table. */
  ghost function Filled(a: array2<int>): Table
    reads a
  {
    map b: nat, p: nat | b < a.Length0 && p < a.Length1 && a[b, p] >= 0 :: Slot(b, p) := a[b, p]
  }

  lemma {:induction false} FilledAt(a: array2<int>, b: nat, p: nat)
    requires b < a.Length0 && p < a.Length1
    ensures Slot(b, p) in Filled(a) <==> a[b, p] >= 0
    ensures a[b, p] >= 0 ==> Filled(a)[Slot(b, p)] == a[b, p]
  {}

  lemma {:induction false} FilledIs(a: array2<int>)
    ensures forall k {:trigger k in Filled(a)} ::
            k in Filled(a) <==> k.bucket < a.Length0 && k.pos < a.Length1 && a[k.bucket, k.pos] >= 0
    ensures forall k {:trigger Filled(a)[k]} | k in Filled(a) :: Filled(a)[k] == a[k.bucket, k.pos]
  {}

  lemma {:induction false} NothingFilled(a: array2<int>)
    requires forall b, p | 0 <= b < a.Length0 && 0 <= p < a.Length1 :: a[b, p] == -1
    ensures Filled(a) == map[]
  {}

  lemma {:induction false} NothingIsOk(h: Hashing)
    ensures Ok(h, Tables(map[], map[], [], map[], map[], 0, 0, 0), {}, 0)
  {
    assert TriedIds(Tables(map[], map[], [], map[], map[], 0, 0, 0)) == {};
  }

  /** Write one slot. */
  method Write(a: array2<int>, s: Slot, v: int)
    requires s.bucket < a.Length0 && s.pos < a.Length1 && v >= -1
    modifies a
    ensures Filled(a) == if v >= 0 then old(Filled(a))[s := v] else old(Filled(a)) - {s}
    ensures forall b: nat, p: nat | b < a.Length0 && p < a.Length1 ::
            a[b, p] == if Slot(b, p) == s then v else old(a[b, p])
  {
    hide Filled;
    ghost var before := Filled(a);
    FilledIs(a);
    a[s.bucket, s.pos] := v;
    FilledIs(a);
    assert Filled(a) == if v >= 0 then before[s := v] else before - {s};
  }

  class CAddrMan {
    var mapInfo: map<nat, Info>
    var mapAddr: map<NetAddr, nat>
    var vRandom: seq<nat>
    var nTried: int
    var nNew: int
    var nIdCount: nat
    const vvTried: array2<int>
    const vvNew: array2<int>
    const h: Hashing

    ghost function State(): Tables
      reads this, vvTried, vvNew
    {
      Tables(mapInfo, mapAddr, vRandom, Filled(vvTried), Filled(vvNew), nTried, nNew, nIdCount)
    }

    ghost predicate Sized()
      reads vvTried, vvNew
    {
      && vvTried != vvNew
      && vvTried.Length0 == TRIED_BUCKET_COUNT && vvTried.Length1 == BUCKET_SIZE
      && vvNew.Length0 == NEW_BUCKET_COUNT && vvNew.Length1 == BUCKET_SIZE
      && (forall b, p | 0 <= b < TRIED_BUCKET_COUNT && 0 <= p < BUCKET_SIZE :: vvTried[b, p] >= -1)
      && forall b, p | 0 <= b < NEW_BUCKET_COUNT && 0 <= p < BUCKET_SIZE :: vvNew[b, p] >= -1
    }

    /** Consistent, but for some loose entries. */
    ghost predicate Nearly(loose: set<nat>, uncounted: nat)
      reads this, vvTried, vvNew
    {
      Sized() && Ok(h, State(), loose, uncounted)
    }

    ghost predicate Valid()
      reads this, vvTried, vvNew
    {
      Nearly({}, 0)
    }

    constructor (h: Hashing)
      ensures Valid() && fresh(vvTried) && fresh(vvNew)
      ensures this.h == h && mapInfo == map[] && mapAddr == map[] && vRandom == [] && nTried == nNew == 0
              && nIdCount == 0
      ensures Filled(vvTried) == Filled(vvNew) == map[]
    {
      hide Ok, Filled;
      mapInfo, mapAddr, vRandom, nTried, nNew, nIdCount := map[], map[], [], 0, 0, 0;
      vvTried := new int[TRIED_BUCKET_COUNT, BUCKET_SIZE]((i, j) => -1);
      vvNew := new int[NEW_BUCKET_COUNT, BUCKET_SIZE]((i, j) => -1);
      this.h := h;
      new;
      NothingFilled(vvTried);
      NothingFilled(vvNew);
      NothingIsOk(h);
    }

    method Find(addr: NetAddr) returns (nId: Option<nat>)
      requires AddrOk(State())
      ensures nId == if addr in mapAddr then Some(mapAddr[addr]) else None
      ensures nId.Some? ==> nId.value in mapInfo && mapInfo[nId.value].addr.net == addr
    {
      nId := if addr in mapAddr && mapAddr[addr] in mapInfo then Some(mapAddr[addr]) else None;
    }

    method CreateEntry(a: Service, source: NetAddr, services: set<nat>, nTime: int) returns (nId: nat)
      modifies this`mapInfo, this`mapAddr, this`vRandom, this`nIdCount
      ensures State() == Create(old(State()), a, source, services, nTime) && nId == old(nIdCount)
    {
      hide Filled;
      nId := nIdCount;
      nIdCount := nIdCount + 1;
      mapInfo := mapInfo[nId := NewInfo(a, source, services, nTime, -1)];
      mapAddr := mapAddr[a.net := nId];
      mapInfo := mapInfo[nId := mapInfo[nId].(nRandomPos := |vRandom|)];
      vRandom := vRandom + [nId];
    }

    method Swap(nRndPos1: int, nRndPos2: int)
      requires CanSwap(State(), nRndPos1, nRndPos2)
      modifies this`mapInfo, this`vRandom
      ensures State() == SwapRandom(old(State()), nRndPos1, nRndPos2)
    {
      hide Filled;
      if nRndPos1 == nRndPos2 {
        return;
      }
      var nId1, nId2 := vRandom[nRndPos1], vRandom[nRndPos2];
      mapInfo := mapInfo[nId1 := mapInfo[nId1].(nRandomPos := nRndPos2)];
      mapInfo := mapInfo[nId2 := mapInfo[nId2].(nRandomPos := nRndPos1)];
      vRandom := vRandom[nRndPos1 := nId2][nRndPos2 := nId1];
    }

    method DeleteEntry(nId: nat)
      requires CanDelete(State(), nId)
      modifies this`mapInfo, this`mapAddr, this`vRandom, this`nNew
      ensures State() == Delete(old(State()), nId)
    {
      hide Filled, SwapRandom;
      SwapShape(State(), mapInfo[nId].nRandomPos, |vRandom| - 1);
      var net := mapInfo[nId].addr.net;
      Swap(mapInfo[nId].nRandomPos, |vRandom| - 1);
      vRandom := vRandom[..|vRandom| - 1];
      mapAddr := mapAddr - {net};
      mapInfo := mapInfo - {nId};
      nNew := nNew - 1;
    }

    /** Empty a slot of the new table. This is the only place where entries are deleted. */
    method ClearNew(nUBucket: nat, nUBucketPos: nat, ghost loose: set<nat>, ghost uncounted: nat)
      requires Nearly(loose, uncounted) && nUBucket < NEW_BUCKET_COUNT && nUBucketPos < BUCKET_SIZE
      modifies this`mapInfo, this`mapAddr, this`vRandom, this`nNew, vvNew
      ensures Nearly(loose, uncounted) && vvNew[nUBucket, nUBucketPos] == -1
      ensures var s := Slot(nUBucket, nUBucketPos);
              && CanClear(old(State()), s) && State() == Cleared(old(State()), s)
              && AfterClear(old(State()), State(), s)
    {
      hide Ok, Delete, CanDelete, AfterClear, Filled;
      ghost var t, s := State(), Slot(nUBucket, nUBucketPos);
      ClearKeepsOk(h, t, loose, uncounted, s);
      FilledAt(vvNew, nUBucket, nUBucketPos);
      if vvNew[nUBucket, nUBucketPos] != -1 {
        var nIdDelete := vvNew[nUBucket, nUBucketPos];
        mapInfo := mapInfo[nIdDelete := mapInfo[nIdDelete].(nRefCount := mapInfo[nIdDelete].nRefCount - 1)];
        Write(vvNew, Slot(nUBucket, nUBucketPos), -1);
        assert State() == TakeSlot(t, s);
        if mapInfo[nIdDelete].nRefCount == 0 {
          DeleteEntry(nIdDelete);
        }
      }
    }

    /** Remove the entry from one new bucket, if it is there. */
    method RemoveFromBucket(nId: nat, bucket: nat)
      requires Sized() && nId in mapInfo && bucket < NEW_BUCKET_COUNT
      modifies this`mapInfo, vvNew
      ensures Sized()
      ensures var s := h.NewSlot(old(mapInfo)[nId].addr, bucket);
              State() ==
                if s in old(State()).newTable && old(State()).newTable[s] == nId then TakeSlot(old(State()), s)
                else old(State())
    {
      hide Filled;
      var slot := h.NewSlot(mapInfo[nId].addr, bucket);
      FilledAt(vvNew, bucket, slot.pos);
      if vvNew[bucket, slot.pos] == nId {
        Write(vvNew, slot, -1);
        mapInfo := mapInfo[nId := mapInfo[nId].(nRefCount := mapInfo[nId].nRefCount - 1)];
      }
    }

    /** The first loop of MakeTried: remove the entry from all new buckets. */
    method RemoveFromNew(nId: nat)
      requires Valid() && nId in mapInfo
      modifies this`mapInfo, vvNew
      ensures Sized() && State() == PartlyUnlisted(old(State()), nId, NEW_BUCKET_COUNT)
    {
      hide Ok, Filled, PartlyUnlisted, Without, AddrOk, RandomOk, TriedOk, NewOk, CountsOk, TimesOk, Sized, TakeSlot;
      ghost var t := State();
      NewIsOk(h, t, {}, 0);
      PartlyStarts(h, t, nId);
      for bucket := 0 to NEW_BUCKET_COUNT
        invariant Sized() && State() == PartlyUnlisted(t, nId, bucket)
      {
        PartlyStep(h, t, nId, bucket);
        PartlyKnown(t, nId, bucket);
        RemoveFromBucket(nId, bucket);
      }
    }

    method TakeFromTried(nId: nat)
      requires Sized() && nId in mapInfo
      modifies this`mapInfo, this`nTried, vvTried
      ensures Sized() && State() == Evicted(h, old(State()), nId)
    {
      hide Filled;
      var slot := h.TriedSlot(mapInfo[nId].addr);
      mapInfo := mapInfo[nId := mapInfo[nId].(fInTried := false)];
      Write(vvTried, slot, -1);
      nTried := nTried - 1;
    }

    method PutIntoTried(nId: nat)
      requires Sized() && nId in mapInfo
      modifies this`mapInfo, this`nTried, vvTried
      ensures Sized() && State() == Placed(h, old(State()), nId)
    {
      hide Filled;
      Write(vvTried, h.TriedSlot(mapInfo[nId].addr), nId);
      nTried := nTried + 1;
      mapInfo := mapInfo[nId := mapInfo[nId].(fInTried := true)];
    }

    method PutIntoNew(nId: nat, slot: Slot)
      requires Sized() && nId in mapInfo && slot.bucket < NEW_BUCKET_COUNT && slot.pos < BUCKET_SIZE
      modifies this`mapInfo, vvNew
      ensures Sized() && State() == PutSlot(old(State()), slot, nId)
    {
      hide Filled;
      mapInfo := mapInfo[nId := mapInfo[nId].(nRefCount := mapInfo[nId].nRefCount + 1)];
      Write(vvNew, slot, nId);
    }

    /** Make space in the tried table: its entry goes to the new table. */
    method MoveBack(nIdEvict: nat, ghost loose: set<nat>, ghost uncounted: nat)
      requires Nearly(loose, uncounted) && nIdEvict in mapInfo && mapInfo[nIdEvict].fInTried
      modifies this`mapInfo, this`mapAddr, this`vRandom, this`nNew, this`nTried, vvNew, vvTried
      ensures Nearly(loose, uncounted)
      ensures CanMoveBack(h, old(State()), nIdEvict) && State() == MovedBack(h, old(State()), nIdEvict)
    {
      hide Ok, Filled, Cleared, CanClear, Sized, PutSlot;
      ghost var t := State();
      MoveBackKeepsOk(h, t, loose, uncounted, nIdEvict);
      EvictIsOk(h, t, loose, uncounted, nIdEvict);
      var infoOld := mapInfo[nIdEvict];
      TakeFromTried(nIdEvict);
      var slot := h.NewSlot(infoOld.addr, h.NewBucket(infoOld.addr, infoOld.source));
      ClearNew(slot.bucket, slot.pos, loose + {nIdEvict}, uncounted + 1);
      PutIntoNew(nIdEvict, slot);
      nNew := nNew + 1;
    }

    /** Move an entry from the new table to the tried one. */
    method MakeTried(nId: nat)
      requires Valid() && nId in mapInfo && !mapInfo[nId].fInTried && mapInfo[nId].nLastSuccess != 0
      modifies this`mapInfo, this`mapAddr, this`vRandom, this`nNew, this`nTried, vvNew, vvTried
      ensures Valid() && CanPromote(h, old(State()), nId) && State() == Promoted(h, old(State()), nId)
    {
      hide Ok, Filled, PartlyUnlisted, Unlisted, MovedBack, CanMoveBack, Placed, PartlyUnlisted;
      ghost var t := State();
      PromoteKeepsOk(h, t, nId);
      RemoveFromNew(nId);
      UnlistIsOk(h, t, nId);
      nNew := nNew - 1;
      assert mapInfo[nId].nRefCount == 0;
      var slot := h.TriedSlot(mapInfo[nId].addr);
      FilledAt(vvTried, slot.bucket, slot.pos);
      if vvTried[slot.bucket, slot.pos] != -1 {
        TriedIsKnown(h, Unlisted(t, nId), {nId}, 1, slot);
        MoveBack(vvTried[slot.bucket, slot.pos], {nId}, 1);
      }
      PutIntoTried(nId);
    }

    // ---------- the public operations ----------

    /** Some new bucket the entry is in, searching from a random one on. */
    method FindBucket(nId: nat, nRnd: nat) returns (nUBucket: int)
      requires Valid() && nId in mapInfo && !mapInfo[nId].fInTried
      ensures 0 <= nUBucket < NEW_BUCKET_COUNT
    {
      hide Ok, Filled, AddrOk, RandomOk, TriedOk, NewOk, CountsOk, TimesOk;
      NewIsOk(h, State(), {}, 0);
      ghost var bucket := ListedSomewhere(h, State(), nId);
      nUBucket := -1;
      var n := 0;
      while n < NEW_BUCKET_COUNT && nUBucket == -1
        invariant 0 <= n <= NEW_BUCKET_COUNT && -1 <= nUBucket < NEW_BUCKET_COUNT
        invariant nUBucket == -1 ==> forall m | 0 <= m < n :: Rotated(m, nRnd) != bucket
      {
        var nB := Rotated(n, nRnd);
        var slot := h.NewSlot(mapInfo[nId].addr, nB);
        FilledAt(vvNew, nB, slot.pos);
        if vvNew[nB, slot.pos] == nId {
          nUBucket := nB;
        } else {
          assert nB != bucket;
        }
        n := n + 1;
      }
      Rotation(bucket, nRnd);
    }

    /** The same address and port? */
    method FindService(addr: Service) returns (nId: Option<nat>)
      requires Valid()
      ensures nId == Known(State(), addr)
      ensures nId.Some? ==> nId.value in mapInfo
    {
      hide Filled;
      nId := Find(addr.net);
      if nId.Some? && mapInfo[nId.value].addr != addr {
        nId := None;
      }
    }

    /** Good_: mark an entry good, moving it to the tried table if it is not there. */
    method MarkGood(addr: Service, nTime: int, nRnd: nat)
      requires Valid() && nTime > 0
      modifies this`mapInfo, this`mapAddr, this`vRandom, this`nNew, this`nTried, vvNew, vvTried
      ensures Valid() && AfterGood(h, old(State()), State(), addr, nTime)
    {
      hide Ok, Filled, Promoted, CanPromote, Known;
      var found := FindService(addr);
      if found.Some? {
        var nId := found.value;
        var info := mapInfo[nId];
        Times(nId);
        var better := info.(nLastSuccess := nTime, nLastTry := nTime, nAttempts := 0);
        StatsAreFree(h, State(), {}, 0, nId, better);
        mapInfo := mapInfo[nId := better];
        if !info.fInTried {
          var nUBucket := FindBucket(nId, nRnd);
          assert nUBucket != -1;
          MakeTried(nId);
        }
      }
    }

    lemma {:induction false} Times(nId: nat)
      requires Valid() && nId in mapInfo
      ensures mapInfo[nId].nLastTry >= 0 && mapInfo[nId].nLastSuccess >= 0
      ensures mapInfo[nId].fInTried ==> mapInfo[nId].nLastSuccess != 0
    {}

    /** Attempt_ */
    method MarkAttempt(addr: Service, nTime: int)
      requires Valid() && nTime > 0
      modifies this`mapInfo
      ensures Valid()
      ensures State() == match Known(old(State()), addr)
                         case None => old(State())
                         case Some(id) =>
                           var info := old(State()).info[id];
                           WithInfo(old(State()), id, info.(nLastTry := nTime, nAttempts := info.nAttempts + 1))
    {
      hide Ok, Filled, Known;
      var found := FindService(addr);
      if found.Some? {
        var nId := found.value;
        Times(nId);
        var info := mapInfo[nId].(nLastTry := nTime, nAttempts := mapInfo[nId].nAttempts + 1);
        StatsAreFree(h, State(), {}, 0, nId, info);
        mapInfo := mapInfo[nId := info];
      }
    }

    /** Connected_ */
    method MarkConnected(addr: Service, nTime: int)
      requires Valid()
      modifies this`mapInfo
      ensures Valid()
      ensures State() == match Known(old(State()), addr)
                         case None => old(State())
                         case Some(id) =>
                           if nTime - old(State()).info[id].nTime > 20 * 60
                           then WithInfo(old(State()), id, old(State()).info[id].(nTime := nTime)) else old(State())
    {
      hide Ok, Filled, Known;
      var found := FindService(addr);
      if found.Some? {
        var nId := found.value;
        Times(nId);
        if nTime - mapInfo[nId].nTime > 20 * 60 {
          StatsAreFree(h, State(), {}, 0, nId, mapInfo[nId].(nTime := nTime));
          mapInfo := mapInfo[nId := mapInfo[nId].(nTime := nTime)];
        }
      }
    }

    // ---------- Add_ ----------

    /** The second half of Add_: one more reference, if there is room for it. */
    method ListEntry(nId: nat, source: NetAddr, nNow: int)
      requires nId in mapInfo && Nearly(LooseIfNew(State(), nId), 0)
      requires !mapInfo[nId].fInTried && mapInfo[nId].nRefCount < NEW_BUCKETS_PER_ADDRESS
      modifies this`mapInfo, this`mapAddr, this`vRandom, this`nNew, vvNew
      ensures Valid()
      ensures CanList(h, old(State()), nId, source) && State() == Listed(h, old(State()), nId, source, nNow)
    {
      hide Ok, Filled, Cleared, CanClear, Delete, CanDelete, LooseIfNew, AfterClear, PutSlot, IsTerrible;
      ghost var t := State();
      ListKeepsOk(h, t, nId, source, nNow);
      ghost var loose := LooseIfNew(t, nId);
      var slot := h.NewSlot(mapInfo[nId].addr, h.NewBucket(mapInfo[nId].addr, source));
      FilledAt(vvNew, slot.bucket, slot.pos);
      var there := vvNew[slot.bucket, slot.pos];
      if there != nId {
        var fInsert := there == -1;
        if !fInsert {
          fInsert := Overwrites(mapInfo[there], mapInfo[nId], nNow);
        }
        if fInsert {
          ClearNew(slot.bucket, slot.pos, loose, 0);
          PutIntoNew(nId, slot);
        } else if mapInfo[nId].nRefCount == 0 {
          DeleteEntry(nId);
        }
      }
    }

    /**
     * Add_: update an entry for the same network address, or create one; then list it. rnd is the
     * random number the stochastic test draws from.
     */
    method AddAddress(addr: Service, routable: bool, services: set<nat>, aTime: nat, source: NetAddr,
                      nTimePenalty: int, nNow: int, rnd: nat) returns (fNew: bool)
      requires Valid()
      modifies this`mapInfo, this`mapAddr, this`vRandom, this`nNew, this`nIdCount, vvNew
      ensures Valid()
      ensures fNew == (routable && addr.net !in old(mapAddr))
      ensures AfterAdd(h, old(State()), State(), addr, routable, services, aTime, source, nTimePenalty, nNow, rnd)
    {
      hide Ok, Filled, Listed, CanList, Create, WithStats, AddrOk, RandomOk, TriedOk, NewOk, CountsOk, TimesOk,
           LooseIfNew;
      fNew := false;
      if !routable {
        return;
      }
      NewIsOk(h, State(), {}, 0);
      var found := Find(addr.net);
      if found.Some? {
        var nId := found.value;
        UpdateStats(nId, services, aTime, nTimePenalty, nNow);
        var stop := StopsAdding(mapInfo[nId], aTime, rnd);
        if !stop {
          ListedIsNotLoose(h, State(), nId);
          ListEntry(nId, source, nNow);
        }
      } else {
        CreateIsLoose(h, State(), addr, source, services, Later(0, aTime - nTimePenalty));
        var nId := CreateEntry(addr, source, services, Later(0, aTime - nTimePenalty));
        nNew := nNew + 1;
        fNew := true;
        ListEntry(nId, source, nNow);
      }
    }

    /** The tests of Add_ on an entry that is known already. */
    method StopsAdding(info: Info, aTime: int, rnd: nat) returns (stop: bool)
      ensures stop == Stops(info, aTime, rnd)
    {
      stop := true;
      if !(aTime == 0 || (info.nTime != 0 && aTime <= info.nTime)) && !info.fInTried
        && info.nRefCount != NEW_BUCKETS_PER_ADDRESS {
        var nFactor := 1;
        var n: nat := 0;
        while n < info.nRefCount
          invariant (n <= info.nRefCount || n == 0) && nFactor == Pow2(n)
        {
          nFactor := nFactor * 2;
          n := n + 1;
        }
        stop := nFactor > 1 && rnd % nFactor != 0;
      }
    }

    method UpdateStats(nId: nat, services: set<nat>, aTime: int, nTimePenalty: int, nNow: int)
      requires Valid() && nId in mapInfo
      modifies this`mapInfo
      ensures Valid() && nId in mapInfo
      ensures State() ==
              WithInfo(old(State()), nId, WithStats(old(State()).info[nId], services, aTime, nTimePenalty, nNow))
    {
      hide Ok, Filled;
      Times(nId);
      var info := mapInfo[nId];
      var fCurrentlyOnline := nNow - aTime < 24 * 60 * 60;
      var nUpdateInterval := if fCurrentlyOnline then 60 * 60 else 24 * 60 * 60;
      if aTime != 0 && (info.nTime == 0 || info.nTime < aTime - nUpdateInterval - nTimePenalty) {
        info := info.(nTime := Later(0, aTime - nTimePenalty));
      }
      info := info.(services := info.services + services);
      StatsAreFree(h, State(), {}, 0, nId, info);
      mapInfo := mapInfo[nId := info];
    }

    // ---------- GetAddr_ ----------

    /** Swap a random entry from the rest of vRandom into position n. */
    method DrawInto(n: nat, nNow: int, ghost t: Tables, ghost vAddr: seq<Service>, ghost ids: seq<nat>)
      requires Valid() && SameButOrder(t, State()) && n < |vRandom| && Picked(State(), vAddr, ids, n, nNow)
      modifies this`mapInfo, this`vRandom
      ensures Valid() && SameButOrder(t, State()) && |vRandom| == |old(vRandom)| && Picked(State(), vAddr, ids, n, nNow)
      ensures RandomOk(State())
    {
      hide Ok, Filled, SameButOrder, Picked, SwapRandom, RandomOk, AddrOk, TriedOk, NewOk, CountsOk, TimesOk, CanSwap,
           IsTerrible;
      ghost var u := State();
      NewIsOk(h, u, {}, 0);
      var draw: nat :| draw < |vRandom| - n;
      SwapIsFree(h, u, n, n + draw);
      PickedSwap(u, vAddr, ids, n, n + draw, nNow);
      Swap(n, n + draw);
      SameOrderTrans(t, u, State());
      NewIsOk(h, State(), {}, 0);
    }

    /** Some random addresses of good quality, at most 23% of all and at most 2500. */
    method SomeAddresses(nNow: int) returns (vAddr: seq<Service>, ghost ids: seq<nat>)
      requires Valid()
      modifies this`mapInfo, this`vRandom
      ensures Valid() && SameButOrder(old(State()), State())
      ensures |vAddr| <= 23 * |vRandom| / 100 && |vAddr| <= 2500
      ensures |ids| == |vAddr| && forall k | 0 <= k < |ids| :: ids[k] in mapInfo && mapInfo[ids[k]].addr == vAddr[k]
      ensures forall id | id in ids :: id in mapInfo && WorthKeeping(mapInfo[id], nNow)
      ensures |vAddr| < 2500 && |vAddr| < 23 * |vRandom| / 100 ==>
                forall id | id in mapInfo && WorthKeeping(mapInfo[id], nNow) :: id in ids
      ensures forall j, k | 0 <= j < k < |vAddr| :: vAddr[j].net != vAddr[k].net
    {
      hide Ok, Filled, SameButOrder, Picked, SwapRandom, IsTerrible, RandomOk, AddrOk, TriedOk, NewOk, CountsOk,
           TimesOk, WorthKeeping;
      ghost var t := State();
      NewIsOk(h, t, {}, 0);
      var nNodes := 23 * |vRandom| / 100;
      if nNodes > 2500 {
        nNodes := 2500;
      }
      vAddr, ids := [], [];
      SameOrder(t);
      NothingPicked(t, nNow);
      var n := 0;
      while n < |vRandom| && |vAddr| < nNodes
        invariant Valid() && SameButOrder(t, State()) && |vRandom| == |t.random|
        invariant 0 <= n <= |vRandom| && |vAddr| <= nNodes && Picked(State(), vAddr, ids, n, nNow)
      {
        DrawInto(n, nNow, t, vAddr, ids);
        PickNext(State(), vAddr, ids, n, nNow);
        var ai := mapInfo[vRandom[n]];
        TerribleExactly(ai, nNow);
        if !IsTerrible(ai, nNow) {
          vAddr := vAddr + [ai.addr];
          ids := ids + [vRandom[n]];
        }
        n := n + 1;
      }
      NewIsOk(h, State(), {}, 0);
      PickedDiffer(State(), vAddr, ids, n, nNow);
      PickedAll(State(), vAddr, ids, n, nNow);
    }
  }

  function Rotated(n: int, nRnd: nat): (b: nat)
    requires n >= 0
    ensures b < NEW_BUCKET_COUNT
  {
    (n + nRnd) % NEW_BUCKET_COUNT
  }

  lemma {:induction false} Rotation(bucket: nat, nRnd: nat)
    requires bucket < NEW_BUCKET_COUNT
    ensures 0 <= (bucket - nRnd) % NEW_BUCKET_COUNT < NEW_BUCKET_COUNT
    ensures Rotated((bucket - nRnd) % NEW_BUCKET_COUNT, nRnd) == bucket
  {
    var q := (bucket - nRnd) / NEW_BUCKET_COUNT;
    assert (bucket - nRnd) % NEW_BUCKET_COUNT + nRnd == bucket - NEW_BUCKET_COUNT * q;
  }

  /** The id of exactly this address and port. */
  ghost function Known(t: Tables, addr: Service): (id: Option<nat>)
    requires AddrOk(t)
    ensures id.Some? ==> id.value in t.info && t.info[id.value].addr == addr
    ensures id.None? ==> forall k | k in t.info :: t.info[k].addr != addr
  {
    if addr.net in t.addr && t.info[t.addr[addr.net]].addr == addr then Some(t.addr[addr.net]) else None
  }

  ghost function Better(i: Info, nTime: int): Info {
    i.(nLastSuccess := nTime, nLastTry := nTime, nAttempts := 0)
  }

  ghost predicate AfterGood(h: Hashing, t: Tables, u: Tables, addr: Service, nTime: int)
    requires AddrOk(t)
  {
    match Known(t, addr)
    case None => u == t
    case Some(id) =>
      var better := WithInfo(t, id, Better(t.info[id], nTime));
      if t.info[id].fInTried then u == better else CanPromote(h, better, id) && u == Promoted(h, better, id)
  }

  lemma {:induction false} GoodKnowsAddress(h: Hashing, t: Tables, u: Tables, addr: Service, nTime: int)
    requires AddrOk(t) && AfterGood(h, t, u, addr, nTime) && forall id | id in t.info :: t.info[id].addr != addr
    ensures u == t
  {}

  /**
   * What Good_ does to the entry of its address: it has worked and been tried at this time, has no
   * failures, and is in its slot of the tried table, and in no bucket.
   */
  lemma {:induction false} GoodExactly(h: Hashing, t: Tables, u: Tables, nTime: int, id: nat)
    requires Ok(h, t, {}, 0) && nTime > 0 && id in t.info && AfterGood(h, t, u, t.info[id].addr, nTime)
    ensures id in u.info && u.triedTable == t.triedTable[h.TriedSlot(t.info[id].addr) := id]
    ensures u.info[id] == t.info[id].(nLastSuccess := nTime, nLastTry := nTime, nAttempts := 0, nRefCount := 0,
                                      fInTried := true, nRandomPos := u.info[id].nRandomPos)
    ensures t.info[id].fInTried ==> u.newTable == t.newTable && u.info == t.info[id := u.info[id]]
  {
    hide Ok, AddrOk, RandomOk, TriedOk, NewOk, Promoted, CanPromote, Known, Hashing.TriedSlot;
    NewIsOk(h, t, {}, 0);
    OneEntry(t, t.info[id].addr, id);
    if t.info[id].fInTried {
      TriedInSlot(h, t, id);
    } else {
      PromotedBetter(h, t, id, nTime);
    }
  }

  lemma {:induction false} PromotedBetter(h: Hashing, t: Tables, id: nat, nTime: int)
    requires Ok(h, t, {}, 0) && nTime > 0 && id in t.info && !t.info[id].fInTried
    requires CanPromote(h, WithInfo(t, id, Better(t.info[id], nTime)), id)
    ensures var u := Promoted(h, WithInfo(t, id, Better(t.info[id], nTime)), id);
            && id in u.info && u.triedTable == t.triedTable[h.TriedSlot(t.info[id].addr) := id]
            && u.info[id] == Better(t.info[id], nTime).(nRefCount := 0, fInTried := true,
                                                        nRandomPos := u.info[id].nRandomPos)
  {
    hide Ok, Promoted, CanPromote, SameBuckets, Hashing.NewSlot, Hashing.NewBucket;
    StatsAreFree(h, t, {}, 0, id, Better(t.info[id], nTime));
    PromotedExactly(h, WithInfo(t, id, Better(t.info[id], nTime)), id);
  }

  lemma {:induction false} OneEntry(t: Tables, addr: Service, id: nat)
    requires AddrOk(t) && id in t.info && t.info[id].addr == addr
    ensures Known(t, addr) == Some(id)
  {}

  lemma {:induction false} TriedInSlot(h: Hashing, t: Tables, id: nat)
    requires Ok(h, t, {}, 0) && id in t.info && t.info[id].fInTried
    ensures var s := h.TriedSlot(t.info[id].addr); s in t.triedTable && t.triedTable[s] == id
    ensures t.info[id].nRefCount == 0
  {
    hide AddrOk, RandomOk, CountsOk, TimesOk, Hashing.TriedSlot;
  }

  function Later(a: int, b: int): int {
    if a >= b then a else b
  }

  /** What Add_ learns about an entry it knows. */
  ghost function WithStats(i: Info, services: set<nat>, aTime: int, nTimePenalty: int, nNow: int): Info {
    var interval := if nNow - aTime < 24 * 60 * 60 then 60 * 60 else 24 * 60 * 60;
    var time :=
        if aTime != 0 && (i.nTime == 0 || i.nTime < aTime - interval - nTimePenalty) then Later(0, aTime - nTimePenalty)
        else i.nTime;
    i.(services := i.services + services, nTime := time)
  }

  /** Nothing new, or tried, or referenced often enough, or just bad luck. */
  ghost predicate Stops(i: Info, aTime: int, rnd: nat) {
    || aTime == 0 || (i.nTime != 0 && aTime <= i.nTime)
    || i.fInTried || i.nRefCount == NEW_BUCKETS_PER_ADDRESS
    || (i.nRefCount > 0 && rnd % Pow2(i.nRefCount) != 0)
  }

  /**
   * The time an address was last seen only moves on, and only by more than an hour if it is said to be
   * online now, by more than a day otherwise; what others say of it is taken back by the penalty.
   */
  lemma {:induction false} StatsExactly(i: Info, services: set<nat>, aTime: nat, nTimePenalty: int, nNow: int)
    ensures var j := WithStats(i, services, aTime, nTimePenalty, nNow);
            var seen, wait := aTime - nTimePenalty, if aTime > nNow - 86_400 then 3_600 else 86_400;
            && j == i.(services := i.services + services, nTime := j.nTime) && j.nTime >= i.nTime
            && (aTime == 0 || (i.nTime != 0 && seen <= i.nTime + wait) ==> j.nTime == i.nTime)
            && (aTime != 0 && (i.nTime == 0 || seen > i.nTime + wait) && seen >= 0 && i.nTime >= 0 ==> j.nTime == seen)
  {}

  /** Newer word of an entry in r buckets, r less than 8, lists it in another one once in 2^r draws. */
  lemma {:induction false} OnceInPow2(i: Info, aTime: nat, base: nat) returns (k: nat)
    requires aTime != 0 && (i.nTime == 0 || aTime > i.nTime) && !i.fInTried && 0 <= i.nRefCount < 8
    ensures base <= k < base + Pow2(i.nRefCount)
    ensures forall n: nat | base <= n < base + Pow2(i.nRefCount) :: !Stops(i, aTime, n) <==> n == k
  {
    var p := Pow2(i.nRefCount);
    k := if base % p == 0 then base else base + p - base % p;
    forall n: nat | base <= n < base + p
      ensures n % p == 0 <==> n == k
    {
      OneMultiple(base, p, n);
    }
  }

  lemma {:induction false} OneMultiple(base: nat, p: nat, n: nat)
    requires p > 0 && base <= n < base + p
    ensures n % p == 0 <==> n == if base % p == 0 then base else base + p - base % p
  {
    var q, r := base / p, base % p;
    assert base == q * p + r && (q + 1) * p == q * p + p;
    if r + (n - base) < p {
      RemainderIs(q, p, r + (n - base));
    } else {
      RemainderIs(q + 1, p, r + (n - base) - p);
    }
  }

  ghost predicate AfterAdd(h: Hashing, t: Tables, u: Tables, addr: Service, routable: bool, services: set<nat>,
                           aTime: int, source: NetAddr, nTimePenalty: int, nNow: int, rnd: nat)
    requires AddrOk(t)
  {
    if !routable then u == t
    else if addr.net in t.addr then
      var id := t.addr[addr.net];
      var v := WithInfo(t, id, WithStats(t.info[id], services, aTime, nTimePenalty, nNow));
      if Stops(v.info[id], aTime, rnd) then u == v
      else CanList(h, v, id, source) && u == Listed(h, v, id, source, nNow)
    else
      var v := Create(t, addr, source, services, Later(0, aTime - nTimePenalty)).(nNew := t.nNew + 1);
      CanList(h, v, t.nIdCount, source) && u == Listed(h, v, t.nIdCount, source, nNow)
  }

  lemma {:induction false} ListedIsNotLoose(h: Hashing, t: Tables, id: nat)
    requires Ok(h, t, {}, 0) && id in t.info
    ensures !t.info[id].fInTried ==> LooseIfNew(t, id) == {}
    ensures t.info[id].nRefCount <= NEW_BUCKETS_PER_ADDRESS
  {
    hide AddrOk, RandomOk, TriedOk, CountsOk, TimesOk;
  }

  lemma {:induction false} CreateIsLoose(h: Hashing, t: Tables, addr: Service, source: NetAddr, services: set<nat>,
                                         nTime: int)
    requires Ok(h, t, {}, 0) && addr.net !in t.addr
    ensures var u := Create(t, addr, source, services, nTime).(nNew := t.nNew + 1);
            && t.nIdCount in u.info && !u.info[t.nIdCount].fInTried && u.info[t.nIdCount].nRefCount == 0
            && Ok(h, u, LooseIfNew(u, t.nIdCount), 0)
  {
    hide AddrOk, RandomOk, TriedOk, NewOk, CountsOk, TimesOk;
    CreateKeepsOk(h, t, {}, 0, addr, source, services, nTime);
    assert {} + {t.nIdCount} == {t.nIdCount};
    RecountKeepsOk(h, Create(t, addr, source, services, nTime), {t.nIdCount}, 1, 1);
  }

  /** An entry of the new table that a new one, in no bucket yet, may take the place of. */
  ghost predicate GivesWay(t: Tables, s: Slot, nNow: int) {
    s !in t.newTable
    || (t.newTable[s] in t.info
        && (!WorthKeeping(t.info[t.newTable[s]], nNow) || t.info[t.newTable[s]].nRefCount > 1))
  }

  /**
   * What Add_ does with an address that is new to it: the entry is in the bucket of the address and the
   * source, never tried, last seen when it was said to be but for the penalty. If the place it gets there is
   * taken and what is there does not give way, it is forgotten.
   */
  lemma {:induction false} AddedExactly(h: Hashing, t: Tables, u: Tables, addr: Service, services: set<nat>, aTime: nat,
                                        source: NetAddr, nTimePenalty: int, nNow: int, rnd: nat)
    requires Ok(h, t, {}, 0) && addr.net !in t.addr
    requires AfterAdd(h, t, u, addr, true, services, aTime, source, nTimePenalty, nNow, rnd)
    ensures var s, id := h.NewSlot(addr, h.NewBucket(addr, source)), t.nIdCount;
            && u.newTable == (if GivesWay(t, s, nNow) then t.newTable[s := id] else t.newTable)
            && (id in u.info <==> GivesWay(t, s, nNow)) && u.triedTable == t.triedTable
            && (id in u.info ==>
                  var seen := if aTime > nTimePenalty then aTime - nTimePenalty else 0;
                  u.info[id] == Info(addr, source, services, seen, 0, 0, 0, 1, false, u.info[id].nRandomPos))
  {
    hide Ok, AddrOk, RandomOk, TriedOk, NewOk, Listed, CanList, Create, WorthKeeping;
    hide Hashing.NewSlot, Hashing.NewBucket;
    NewIsOk(h, t, {}, 0);
    var id, seen := t.nIdCount, Later(0, aTime - nTimePenalty);
    var v := Create(t, addr, source, services, seen).(nNew := t.nNew + 1);
    var s := h.NewSlot(addr, h.NewBucket(addr, source));
    CreateIsLoose(h, t, addr, source, services, seen);
    NewIsUnlisted(h, t, id);
    CreatedExactly(t, addr, source, services, seen);
    ListsExactly(h, v, id, source, nNow);
    SameButAt(t.newTable, u.newTable, s);
  }

  lemma {:induction false} NewIsUnlisted(h: Hashing, t: Tables, id: nat)
    requires Ok(h, t, {}, 0) && id == t.nIdCount
    ensures id !in t.info && forall s | s in t.newTable :: t.newTable[s] != id && t.newTable[s] in t.info
  {
    hide AddrOk, RandomOk, TriedOk, TimesOk;
    NextIdIsFree(t, 0);
  }

  lemma {:induction false} SameButAt(a: Table, b: Table, s: Slot)
    requires a - {s} == b - {s}
    ensures s in b ==> b == a[s := b[s]]
  {
    assert forall k | k != s :: k in b <==> k in a - {s};
    if s in b {
      forall k | k in a && k != s
        ensures k in b && b[k] == a[k]
      {
        assert k in a - {s} && (a - {s})[k] == (b - {s})[k];
      }
    }
  }

  /** Of an entry it knows Add_ only updates services and time if it hears nothing new, or the entry is settled. */
  lemma {:induction false} HeardBefore(h: Hashing, t: Tables, u: Tables, addr: Service, services: set<nat>, aTime: nat,
                                       source: NetAddr, nTimePenalty: int, nNow: int, rnd: nat)
    requires Ok(h, t, {}, 0) && AddrOk(t) && addr.net in t.addr
    requires AfterAdd(h, t, u, addr, true, services, aTime, source, nTimePenalty, nNow, rnd)
    ensures var id := t.addr[addr.net];
            var j := WithStats(t.info[id], services, aTime, nTimePenalty, nNow);
            aTime == 0 || (j.nTime != 0 && aTime <= j.nTime) || j.fInTried || j.nRefCount == 8
            ==> u == t.(info := t.info[id := j])
  {}

  /**
   * Otherwise, if the draw is a multiple of 2^r for an entry with r references, it gets one more, in the
   * bucket of this source, unless it is there or what is there is worth keeping.
   */
  lemma {:induction false} HeardAnew(h: Hashing, t: Tables, u: Tables, addr: Service, services: set<nat>, aTime: nat,
                                     source: NetAddr, nTimePenalty: int, nNow: int, rnd: nat)
    requires Ok(h, t, {}, 0) && AddrOk(t) && addr.net in t.addr
    requires AfterAdd(h, t, u, addr, true, services, aTime, source, nTimePenalty, nNow, rnd)
    requires var j := WithStats(t.info[t.addr[addr.net]], services, aTime, nTimePenalty, nNow);
             && aTime != 0 && (j.nTime == 0 || aTime > j.nTime) && !j.fInTried && j.nRefCount != 8
             && (j.nRefCount > 0 ==> rnd % Pow2(j.nRefCount) == 0)
    ensures var id := t.addr[addr.net];
            var j := WithStats(t.info[id], services, aTime, nTimePenalty, nNow);
            var s := h.NewSlot(j.addr, h.NewBucket(j.addr, source));
            && id in u.info
            && if s in t.newTable && t.newTable[s] in t.info
                  && (t.newTable[s] == id || WorthKeeping(t.info[t.newTable[s]], nNow))
               then u.newTable == t.newTable && u.info[id] == j
               else && u.newTable == t.newTable[s := id]
                    && u.info[id] == j.(nRefCount := j.nRefCount + 1, nRandomPos := u.info[id].nRandomPos)
  {
    hide Ok, RandomOk, TriedOk, NewOk, Listed, CanList, Hashing.NewSlot, Hashing.NewBucket, WorthKeeping, Pow2;
    var id := t.addr[addr.net];
    var j := WithStats(t.info[id], services, aTime, nTimePenalty, nNow);
    var v := WithInfo(t, id, j);
    NewIsInBuckets(h, t, id);
    StatsAreFree(h, t, {}, 0, id, j);
    ListedIsNotLoose(h, v, id);
    var s := h.NewSlot(j.addr, h.NewBucket(j.addr, source));
    InTable(h, t, s);
    ListsExactly(h, v, id, source, nNow);
    SameButAt(t.newTable, u.newTable, s);
  }

  lemma {:induction false} NewIsInBuckets(h: Hashing, t: Tables, id: nat)
    requires Ok(h, t, {}, 0) && id in t.info && !t.info[id].fInTried
    ensures t.info[id].nRefCount > 0 && t.info[id].nLastTry >= 0 && t.info[id].nLastSuccess >= 0
  {
    hide AddrOk, RandomOk, TriedOk, CountsOk;
    ListedIsNotLoose(h, t, id);
  }

  lemma {:induction false} InTable(h: Hashing, t: Tables, s: Slot)
    requires Ok(h, t, {}, 0)
    ensures s in t.newTable ==> t.newTable[s] in t.info
  {
    hide AddrOk, RandomOk, TriedOk, CountsOk, TimesOk;
  }

  // ---------- what GetAddr_ picked ----------

  /** The addresses of the entries worth keeping among the first n of vRandom, all different. */
  ghost predicate Picked(t: Tables, vAddr: seq<Service>, ids: seq<nat>, n: int, nNow: int) {
    && |ids| == |vAddr|
    && (forall k | 0 <= k < |ids| ::
          && ids[k] in t.info && t.info[ids[k]].addr == vAddr[k]
          && WorthKeeping(t.info[ids[k]], nNow) && t.info[ids[k]].nRandomPos < n)
    && (forall id | id in t.info && t.info[id].nRandomPos < n && WorthKeeping(t.info[id], nNow) :: id in ids)
    && forall j, k | 0 <= j < k < |ids| :: ids[j] != ids[k]
  }

  lemma {:induction false} NothingPicked(t: Tables, nNow: int)
    requires RandomOk(t)
    ensures Picked(t, [], [], 0, nNow)
  {}

  lemma {:induction false} PickedSwap(t: Tables, vAddr: seq<Service>, ids: seq<nat>, i: int, j: int, nNow: int)
    requires Picked(t, vAddr, ids, i, nNow) && RandomOk(t) && 0 <= i <= j < |t.random| && CanSwap(t, i, j)
    ensures Picked(SwapRandom(t, i, j), vAddr, ids, i, nNow)
  {
    hide WorthKeeping;
  }

  lemma {:induction false} PickNext(t: Tables, vAddr: seq<Service>, ids: seq<nat>, n: int, nNow: int)
    requires Picked(t, vAddr, ids, n, nNow) && RandomOk(t) && 0 <= n < |t.random|
    ensures t.random[n] in t.info
    ensures var i := t.info[t.random[n]];
            if WorthKeeping(i, nNow) then Picked(t, vAddr + [i.addr], ids + [t.random[n]], n + 1, nNow)
            else Picked(t, vAddr, ids, n + 1, nNow)
  {
    hide WorthKeeping;
  }

  lemma {:induction false} PickedDiffer(t: Tables, vAddr: seq<Service>, ids: seq<nat>, n: int, nNow: int)
    requires Picked(t, vAddr, ids, n, nNow) && AddrOk(t) && RandomOk(t)
    ensures forall j, k | 0 <= j < k < |vAddr| :: vAddr[j].net != vAddr[k].net
  {
    hide WorthKeeping;
    forall j, k | 0 <= j < k < |vAddr|
      ensures vAddr[j].net != vAddr[k].net
    {
      assert t.addr[vAddr[j].net] == ids[j] && t.addr[vAddr[k].net] == ids[k];
    }
  }

  lemma {:induction false} PickedAll(t: Tables, vAddr: seq<Service>, ids: seq<nat>, n: int, nNow: int)
    requires Picked(t, vAddr, ids, n, nNow) && RandomOk(t)
    ensures |ids| == |vAddr| && forall k | 0 <= k < |ids| :: ids[k] in t.info && t.info[ids[k]].addr == vAddr[k]
    ensures forall id | id in ids :: id in t.info && WorthKeeping(t.info[id], nNow)
    ensures n == |t.random| ==> forall id | id in t.info && WorthKeeping(t.info[id], nNow) :: id in ids
  {
    hide WorthKeeping;
  }

  lemma {:induction false} SameOrder(t: Tables)
    ensures SameButOrder(t, t)
  {}

  lemma {:induction false} SameOrderTrans(t: Tables, u: Tables, v: Tables)
    requires SameButOrder(t, u) && SameButOrder(u, v)
    ensures SameButOrder(t, v)
  {}

  lemma {:induction false} SwapIsFree(h: Hashing, t: Tables, i: int, j: int)
    requires Ok(h, t, {}, 0) && 0 <= i < |t.random| && 0 <= j < |t.random|
    ensures CanSwap(t, i, j) && Ok(h, SwapRandom(t, i, j), {}, 0) && SameButOrder(t, SwapRandom(t, i, j))
    ensures |SwapRandom(t, i, j).random| == |t.random|
  {
    hide AddrOk, RandomOk, TriedOk, NewOk, CountsOk, TimesOk, SwapRandom, SameButOrder;
    SwapKeepsRandom(t, i, j);
    SwapShape(t, i, j);
    OrderIsFree(h, t, SwapRandom(t, i, j), {}, 0);
  }
}
