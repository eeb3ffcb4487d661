/**
 * How far one group of addresses can spread in the address manager: whatever it does, addresses of one
 * group are in few buckets of the tried table, and a group of sources reaches few buckets of the new one.
 */
module AddrGroups {
  import opened AddrTables
  import opened AddrSteps

  /**
   * 1024 new buckets, chosen by the groups of address and source, and 256 tried ones, chosen by the group
   * of the address; each has 64 places, and which one an address gets depends on the table.
   */
  lemma {:induction false} SlotsExactly(h: Hashing, a: Service, source: NetAddr, bucket: nat)
    ensures var g, from := h.group(a.net), h.group(source);
            h.NewBucket(a, source) == h.newHash2(from, h.newHash1(g, from) % 64) % 1024
    ensures var b := h.triedHash2(h.group(a.net), h.triedHash1(a) % 8) % 256;
            h.TriedSlot(a) == Slot(b, h.position(a, false, b) % 64)
    ensures h.NewSlot(a, bucket) == Slot(bucket, h.position(a, true, bucket) % 64)
  {}

  /** The first n places of a bucket. */
  ghost function PlacesIn(bucket: nat, n: nat): (r: set<Slot>)
    ensures |r| <= n && forall s: Slot :: s in r <==> s.bucket == bucket && s.pos < n
  {
    if n == 0 then {} else PlacesIn(bucket, n - 1) + {Slot(bucket, n - 1)}
  }

  /** All places of these buckets. */
  ghost function Places(buckets: seq<nat>): (r: set<Slot>)
    ensures |r| <= 64 * |buckets| && forall s: Slot :: s in r <==> s.bucket in buckets && s.pos < 64
  {
    if buckets == [] then {} else Places(buckets[..|buckets| - 1]) + PlacesIn(buckets[|buckets| - 1], 64)
  }

  /** Entries with places of their own are no more than places. */
  lemma {:induction false} NoMoreThan(h: Hashing, t: Tables, ids: set<nat>, places: set<Slot>)
    requires forall id | id in ids :: id in t.info && h.TriedSlot(t.info[id].addr) in places
    requires forall i, j | i in ids && j in ids && h.TriedSlot(t.info[i].addr) == h.TriedSlot(t.info[j].addr) :: i == j
    ensures |ids| <= |places|
    decreases |ids|
  {
    hide Hashing.TriedSlot;
    if id :| id in ids {
      var s := h.TriedSlot(t.info[id].addr);
      NoMoreThan(h, t, ids - {id}, places - {s});
    }
  }

  ghost function TriedOfGroup(h: Hashing, t: Tables, g: Group): set<nat> {
    set id | id in t.info && t.info[id].fInTried && h.group(t.info[id].addr.net) == g
  }

  /** The eight buckets a group has in the tried table. */
  ghost function TriedBuckets(h: Hashing, g: Group): (r: seq<nat>)
    ensures |r| == 8
  {
    seq(8, k requires 0 <= k < 8 => h.triedHash2(g, k) % 256)
  }

  lemma {:induction false} TriedInReach(h: Hashing, a: Service)
    ensures h.TriedSlot(a) in Places(TriedBuckets(h, h.group(a.net)))
  {
    hide Places;
    assert TriedBuckets(h, h.group(a.net))[h.triedHash1(a) % 8] == h.TriedBucket(a);
  }

  /** However many addresses a group has, no more than 512 of them are tried at a time. */
  lemma {:induction false} GroupIsConfined(h: Hashing, t: Tables, g: Group)
    requires Ok(h, t, {}, 0)
    ensures |TriedOfGroup(h, t, g)| <= 512
  {
    hide Ok, Places, TriedBuckets, Hashing.TriedSlot;
    forall id | id in TriedOfGroup(h, t, g)
      ensures h.TriedSlot(t.info[id].addr) in Places(TriedBuckets(h, g))
      ensures var s := h.TriedSlot(t.info[id].addr); s in t.triedTable && t.triedTable[s] == id
    {
      TriedInReach(h, t.info[id].addr);
      TriedStands(h, t, id);
    }
    NoMoreThan(h, t, TriedOfGroup(h, t, g), Places(TriedBuckets(h, g)));
  }

  lemma {:induction false} TriedStands(h: Hashing, t: Tables, id: nat)
    requires Ok(h, t, {}, 0) && id in t.info && t.info[id].fInTried
    ensures var s := h.TriedSlot(t.info[id].addr); s in t.triedTable && t.triedTable[s] == id
  {
    hide AddrOk, RandomOk, NewOk, CountsOk, TimesOk, Hashing.TriedSlot;
  }

  /** The 64 buckets of the new table that sources of a group reach. */
  ghost function SourceBuckets(h: Hashing, g: Group): (r: seq<nat>)
    ensures |r| == 64
  {
    seq(64, k requires 0 <= k < 64 => h.newHash2(g, k) % 1024)
  }

  lemma {:induction false} NewInReach(h: Hashing, a: Service, source: NetAddr)
    ensures h.NewBucket(a, source) in SourceBuckets(h, h.group(source))
  {
    var hash1 := h.newHash1(h.group(a.net), h.group(source)) % 64;
    assert SourceBuckets(h, h.group(source))[hash1] == h.NewBucket(a, source);
  }

  /** Whatever the sources of one group tell of, they change the new table in those buckets only. */
  lemma {:induction false} SourcesAreConfined(h: Hashing, t: Tables, id: nat, source: NetAddr, nNow: int, s: Slot)
    requires id in t.info && Ok(h, t, LooseIfNew(t, id), 0) && !t.info[id].fInTried
             && t.info[id].nRefCount < NEW_BUCKETS_PER_ADDRESS
    requires CanList(h, t, id, source) && s.bucket !in SourceBuckets(h, h.group(source))
    ensures var u := Listed(h, t, id, source, nNow);
            (s in u.newTable <==> s in t.newTable) && (s in t.newTable ==> u.newTable[s] == t.newTable[s])
  {
    hide Ok, Listed, CanList, SourceBuckets, LooseIfNew, HasRoom, Hashing.NewBucket;
    var u, there := Listed(h, t, id, source, nNow), h.NewSlot(t.info[id].addr, h.NewBucket(t.info[id].addr, source));
    NewInReach(h, t.info[id].addr, source);
    ListsExactly(h, t, id, source, nNow);
    OutsideIsSame(t.newTable, u.newTable, there, s);
  }

  lemma {:induction false} OutsideIsSame(a: Table, b: Table, there: Slot, s: Slot)
    requires a - {there} == b - {there} && s != there
    ensures (s in b <==> s in a) && (s in a ==> b[s] == a[s])
  {
    assert s in a <==> s in a - {there};
    assert s in b <==> s in b - {there};
  }
}
