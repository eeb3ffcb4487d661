/**
 * What the stream of the address manager looks like, and where the entries of any stream end up: tried
 * ones in their slot if they come first, new ones where the stored rows say or, if the rows are of no
 * use, in the bucket of their own address and source.
 */
module AddrStream {
  import opened AddrTables
  import opened AddrSteps
  import opened AddrMan
  import opened AddrSerial

  /** Version 1, and 2^30 added to the number of buckets so that version 0 stumbles over it. */
  lemma {:induction false} WrittenForm(t: Tables)
    ensures var d := DumpOf(t);
            d.nVersion == 1 && d.nUBuckets == 1_073_742_848 && d.nNew == t.nNew && d.nTried == t.nTried
              && |d.buckets| == 1024
  {}

  /** The rows of a stream are of use exactly if it has that version and that number. */
  lemma {:induction false} UsableExactly(d: Dump)
    ensures Usable(d) <==> d.nVersion == 1 && d.nUBuckets == 1_073_742_848
  {}

  /** n rows follow if the number is n in version 0, or n + 2^30 in any other. */
  lemma {:induction false} RowsExpected(d: Dump, n: nat)
    requires n < 1_073_741_824 && d.nUBuckets == if d.nVersion == 0 then n else n + 1_073_741_824
    ensures Complete(d) <==> |d.news| == d.nNew && |d.trieds| == d.nTried && |d.buckets| == n
  {}

  ghost function Homes(h: Hashing, news: seq<Saved>): (r: seq<Slot>)
    ensures |r| == |news|
  {
    seq(|news|, k requires 0 <= k < |news| => h.NewSlot(news[k].addr, h.NewBucket(news[k].addr, news[k].source)))
  }

  ghost function TriedSlots(h: Hashing, trieds: seq<Saved>): (r: seq<Slot>)
    ensures |r| == |trieds|
  {
    seq(|trieds|, k requires 0 <= k < |trieds| => h.TriedSlot(trieds[k].addr))
  }

  ghost predicate FirstAt(slots: seq<Slot>, slot: Slot, k: nat) {
    k < |slots| && slots[k] == slot && forall j | 0 <= j < k :: slots[j] != slot
  }

  lemma {:induction false} FirstAtNext(slots: seq<Slot>, n: nat, slot: Slot, k: nat)
    requires |slots| == n + 1
    ensures FirstAt(slots, slot, k) <==>
            FirstAt(slots[..n], slot, k)
              || (k == n && slots[n] == slot && forall j: nat :: !FirstAt(slots[..n], slot, j))
  {
    if k == n && slots[n] == slot && (forall j: nat :: !FirstAt(slots[..n], slot, j)) {
      NoFirst(slots[..n], slot, n);
    }
  }

  lemma {:induction false} NoFirst(slots: seq<Slot>, slot: Slot, n: nat)
    requires n <= |slots| && forall j: nat :: !FirstAt(slots, slot, j)
    ensures forall j | 0 <= j < n :: slots[j] != slot
  {
    if n > 0 {
      NoFirst(slots, slot, n - 1);
      assert !FirstAt(slots, slot, n - 1);
    }
  }

  /** This id stands for this saved entry, not tried since. */
  ghost predicate Holds(t: Tables, id: nat, s: Saved) {
    id in t.info && Save(t.info[id]) == s && t.info[id].nLastTry == 0
  }

  ghost predicate NewsLoaded(t: Tables, news: seq<Saved>) {
    && t.nIdCount == |news| && t.triedTable == map[]
    && (forall k: nat :: k in t.info ==> k < |news|) && (forall k: nat | k < |news| :: Holds(t, k, news[k]))
  }

  ghost predicate TakenFirst(table: Table, slots: seq<Slot>) {
    forall slot, k: nat :: FirstAt(slots, slot, k) <==> slot in table && table[slot] == k
  }

  lemma {:induction false} TakenNext(table: Table, slots: seq<Slot>, n: nat)
    requires |slots| == n + 1 && TakenFirst(table, slots[..n])
    ensures TakenFirst(if slots[n] in table then table else table[slots[n] := n], slots)
  {
    hide FirstAt;
    forall slot, k: nat
      ensures FirstAt(slots, slot, k) <==>
              FirstAt(slots[..n], slot, k)
              || (k == n && slots[n] == slot && forall j: nat :: !FirstAt(slots[..n], slot, j))
    {
      FirstAtNext(slots, n, slot, k);
    }
    assert slots[n] in table ==> FirstAt(slots[..n], slots[n], table[slots[n]]);
  }

  lemma {:induction false} NothingTaken()
    ensures TakenFirst(map[], [])
  {}

  lemma {:induction false} NewIsLoaded(h: Hashing, t: Tables, news: seq<Saved>, s: Saved, usable: bool)
    requires NewsLoaded(t, news)
    ensures var u, slot := LoadNew(h, t, s, usable), h.NewSlot(s.addr, h.NewBucket(s.addr, s.source));
            && NewsLoaded(u, news + [s])
            && u.newTable == if usable || slot in t.newTable then t.newTable else t.newTable[slot := |news|]
  {
    hide Hashing.NewBucket, Hashing.NewSlot;
  }

  /** The new entries get the ids from 0 on, and places of their own only if the rows are of no use. */
  lemma {:induction false} NewsAreLoaded(h: Hashing, news: seq<Saved>, usable: bool)
    ensures NewsLoaded(LoadNews(h, EMPTY, news, usable), news)
    ensures var table := LoadNews(h, EMPTY, news, usable).newTable;
            if usable then table == map[] else TakenFirst(table, Homes(h, news))
  {
    hide Hashing.NewBucket, Hashing.NewSlot, TakenFirst, LoadNew;
    if news == [] {
      NothingTaken();
      assert Homes(h, news) == [];
    } else {
      var n, slots := |news| - 1, Homes(h, news);
      NewsAreLoaded(h, news[..n], usable);
      var t := LoadNews(h, EMPTY, news[..n], usable);
      NewIsLoaded(h, t, news[..n], news[n], usable);
      assert news == news[..n] + [news[n]] && slots[..n] == Homes(h, news[..n]);
      if !usable {
        TakenNext(t.newTable, slots, n);
      }
    }
  }

  // ---------- tried entries ----------

  /** All that was in t is in u as it was, but for tried entries. */
  ghost predicate Extends(t: Tables, u: Tables) {
    && u.newTable == t.newTable && t.nIdCount <= u.nIdCount && u.nNew == t.nNew
    && (forall id | id in t.info :: id in u.info && u.info[id] == t.info[id])
    && (forall id | id in u.info :: id < u.nIdCount)
  }

  /** Each slot some tried entries want has the first of them. */
  ghost predicate TriedFirst(t: Tables, slots: seq<Slot>, trieds: seq<Saved>)
    requires |slots| == |trieds|
  {
    && (forall slot | slot in t.triedTable :: exists k: nat :: FirstAt(slots, slot, k))
    && (forall slot, k: nat | FirstAt(slots, slot, k) ::
          slot in t.triedTable && Holds(t, t.triedTable[slot], trieds[k]) && t.info[t.triedTable[slot]].fInTried)
  }

  lemma {:induction false} TriedIsLoaded(h: Hashing, t: Tables, s: Saved)
    requires forall id | id in t.info :: id < t.nIdCount
    ensures var u, slot := LoadTried(h, t, s), h.TriedSlot(s.addr);
            && Extends(t, u)
            && u.triedTable == (if slot in t.triedTable then t.triedTable else t.triedTable[slot := t.nIdCount])
            && (slot !in t.triedTable ==> Holds(u, t.nIdCount, s) && u.info[t.nIdCount].fInTried)
  {
    hide Hashing.TriedSlot;
  }

  lemma {:induction false} TriedNext(t: Tables, u: Tables, slots: seq<Slot>, trieds: seq<Saved>, n: nat)
    requires |slots| == |trieds| == n + 1 && TriedFirst(t, slots[..n], trieds[..n]) && Extends(t, u)
    requires var slot := slots[n];
             && u.triedTable == (if slot in t.triedTable then t.triedTable else t.triedTable[slot := t.nIdCount])
             && (slot !in t.triedTable ==> Holds(u, t.nIdCount, trieds[n]) && u.info[t.nIdCount].fInTried)
    ensures TriedFirst(u, slots, trieds)
  {
    hide FirstAt;
    forall slot, k: nat
      ensures FirstAt(slots, slot, k) <==>
              FirstAt(slots[..n], slot, k)
              || (k == n && slots[n] == slot && forall j: nat :: !FirstAt(slots[..n], slot, j))
    {
      FirstAtNext(slots, n, slot, k);
    }
    forall slot, k: nat | FirstAt(slots[..n], slot, k)
      ensures k < n && trieds[..n][k] == trieds[k]
    {
      FirstIsInside(slots[..n], slot, k);
    }
    forall slot | slot in u.triedTable
      ensures exists k: nat :: FirstAt(slots, slot, k)
    {
      if slot in t.triedTable {
        var k: nat :| FirstAt(slots[..n], slot, k);
        assert FirstAt(slots, slot, k);
      } else {
        assert FirstAt(slots, slot, n);
      }
    }
  }

  lemma {:induction false} FirstIsInside(slots: seq<Slot>, slot: Slot, k: nat)
    requires FirstAt(slots, slot, k)
    ensures k < |slots|
  {}

  lemma {:induction false} TriedsAreLoaded(h: Hashing, t: Tables, trieds: seq<Saved>)
    requires t.triedTable == map[] && forall id | id in t.info :: id < t.nIdCount
    ensures var u := LoadTrieds(h, t, trieds); Extends(t, u) && TriedFirst(u, TriedSlots(h, trieds), trieds)
  {
    hide Hashing.TriedSlot, TriedFirst, LoadTried;
    if trieds == [] {
      NoTrieds(t);
      assert TriedSlots(h, trieds) == [];
    } else {
      var n, slots := |trieds| - 1, TriedSlots(h, trieds);
      TriedsAreLoaded(h, t, trieds[..n]);
      var u := LoadTrieds(h, t, trieds[..n]);
      TriedIsLoaded(h, u, trieds[n]);
      assert slots[..n] == TriedSlots(h, trieds[..n]);
      TriedNext(u, LoadTried(h, u, trieds[n]), slots, trieds, n);
    }
  }

  lemma {:induction false} NoTrieds(t: Tables)
    requires t.triedTable == map[]
    ensures TriedFirst(t, [], [])
  {}

  // ---------- rows ----------

  /** Only reference counts and the new table differ. */
  ghost predicate OnlyPlaces(t: Tables, u: Tables) {
    && u.triedTable == t.triedTable && u.nNew == t.nNew && u.info.Keys == t.info.Keys
    && forall id | id in t.info :: id in u.info && u.info[id] == t.info[id].(nRefCount := u.info[id].nRefCount)
  }

  /** What stands in a slot was there before, or is a new entry that this row names and that belongs there. */
  ghost predicate FromRow(h: Hashing, t: Tables, u: Tables, slot: Slot, bucket: nat, row: seq<int>)
    requires slot in u.newTable
  {
    var id := u.newTable[slot];
    || (slot in t.newTable && t.newTable[slot] == id)
    || (slot.bucket == bucket && id in row && id < t.nNew && id in t.info && slot == h.NewSlot(t.info[id].addr, bucket))
  }

  lemma {:induction false} RowIsLoaded(h: Hashing, t: Tables, bucket: nat, row: seq<int>, usable: bool)
    ensures var u := LoadRow(h, t, bucket, row, usable);
            && OnlyPlaces(t, u) && (!usable ==> u == t)
            && forall slot | slot in u.newTable :: FromRow(h, t, u, slot, bucket, row)
  {
    hide Hashing.NewSlot;
    if row != [] {
      var n := |row| - 1;
      var u, v := LoadRow(h, t, bucket, row[..n], usable), LoadRow(h, t, bucket, row, usable);
      RowIsLoaded(h, t, bucket, row[..n], usable);
      assert row == row[..n] + [row[n]];
      forall slot | slot in v.newTable
        ensures FromRow(h, t, v, slot, bucket, row)
      {
        if slot in u.newTable && u.newTable[slot] == v.newTable[slot] {
          assert FromRow(h, t, u, slot, bucket, row[..n]);
        }
      }
    }
  }

  ghost predicate FromRows(h: Hashing, t: Tables, u: Tables, slot: Slot, rows: seq<seq<int>>)
    requires slot in u.newTable
  {
    var id := u.newTable[slot];
    || (slot in t.newTable && t.newTable[slot] == id)
    || (slot.bucket < |rows| && id in rows[slot.bucket] && id < t.nNew && id in t.info
        && slot == h.NewSlot(t.info[id].addr, slot.bucket))
  }

  lemma {:induction false} RowsAreLoaded(h: Hashing, t: Tables, rows: seq<seq<int>>, usable: bool)
    ensures var u := LoadRows(h, t, rows, usable);
            && OnlyPlaces(t, u) && (!usable ==> u == t)
            && forall slot | slot in u.newTable :: FromRows(h, t, u, slot, rows)
  {
    hide Hashing.NewSlot, LoadRow;
    if rows != [] {
      var n := |rows| - 1;
      var u := LoadRows(h, t, rows[..n], usable);
      RowsAreLoaded(h, t, rows[..n], usable);
      RowIsLoaded(h, u, n, rows[n], usable);
      var v := LoadRow(h, u, n, rows[n], usable);
      forall slot | slot in v.newTable
        ensures FromRows(h, t, v, slot, rows)
      {
        assert FromRow(h, u, v, slot, n, rows[n]);
        if slot in u.newTable && u.newTable[slot] == v.newTable[slot] {
          assert FromRows(h, t, u, slot, rows[..n]);
        }
      }
    }
  }

  // ---------- the whole stream ----------

  /** Where a new entry is put by the stream. */
  ghost predicate NewPlaced(h: Hashing, d: Dump, r: Tables, slot: Slot)
    requires slot in r.newTable
  {
    var k := r.newTable[slot];
    && k < |d.news| && Holds(r, k, d.news[k])
    && if d.nVersion == 1 && d.nUBuckets == 1_073_742_848 then
         slot.bucket < |d.buckets| && k in d.buckets[slot.bucket] && slot == h.NewSlot(d.news[k].addr, slot.bucket)
       else FirstAt(Homes(h, d.news), slot, k)
  }

  ghost predicate EntriesLoaded(h: Hashing, d: Dump, t: Tables) {
    && t.nNew == |d.news| && TriedFirst(t, TriedSlots(h, d.trieds), d.trieds)
    && (forall k: nat | k < |d.news| :: Holds(t, k, d.news[k]))
    && if Usable(d) then t.newTable == map[] else TakenFirst(t.newTable, Homes(h, d.news))
  }

  lemma {:induction false} EntriesAreLoaded(h: Hashing, d: Dump)
    ensures EntriesLoaded(h, d, Entries(h, d))
  {
    hide TriedFirst, TakenFirst, LoadNews, LoadTrieds, Usable;
    NewsAreLoaded(h, d.news, Usable(d));
    LoadNewsOrder(h, d.news, Usable(d));
    TriedsAreLoaded(h, LoadNews(h, EMPTY, d.news, Usable(d)), d.trieds);
  }

  lemma {:induction false} PlacesKeepTried(t: Tables, u: Tables, slots: seq<Slot>, trieds: seq<Saved>)
    requires |slots| == |trieds| && TriedFirst(t, slots, trieds) && OnlyPlaces(t, u)
    ensures TriedFirst(u, slots, trieds)
  {
    hide FirstAt;
    forall slot, k: nat | FirstAt(slots, slot, k)
      ensures k < |slots|
    {
      FirstIsInside(slots, slot, k);
    }
  }

  lemma {:induction false} PruningKeepsTried(t: Tables, u: Tables, slots: seq<Slot>, trieds: seq<Saved>)
    requires |slots| == |trieds| && TriedFirst(t, slots, trieds) && OnlyPruned(t, u)
    ensures TriedFirst(u, slots, trieds)
  {
    hide FirstAt;
    forall slot, k: nat | FirstAt(slots, slot, k)
      ensures slot in u.triedTable && k < |slots| && Holds(u, u.triedTable[slot], trieds[k])
      ensures u.info[u.triedTable[slot]].fInTried
    {
      FirstIsInside(slots, slot, k);
      assert SameEntry(t, u, t.triedTable[slot]);
    }
  }

  /**
   * Where the entries of a stream with sound entries are afterwards. Of the tried ones that want a slot
   * the first has it. A new one is where the rows name it; if they are of no use, where its own address and
   * source belong, and of those that want one slot the first has it.
   */
  lemma {:induction false} StreamExactly(h: Hashing, d: Dump)
    requires Complete(d) && Sound(d)
    ensures var r := Restored(h, d);
            && TriedFirst(r, TriedSlots(h, d.trieds), d.trieds)
            && (forall slot | slot in r.newTable :: NewPlaced(h, d, r, slot))
            && (d.nVersion != 1 || d.nUBuckets != 1_073_742_848 ==> TakenFirst(r.newTable, Homes(h, d.news)))
  {
    hide Entries, Restored, TriedFirst, TakenFirst, Usable, Ok, Idle, Hashing.NewSlot, LoadRows, FirstAt;
    var e, t, r := Entries(h, d), Loaded(h, d), Restored(h, d);
    UsableExactly(d);
    EntriesAreLoaded(h, d);
    RowsAreLoaded(h, e, d.buckets, Usable(d));
    RestoredIsOk(h, d);
    PlacesKeepTried(e, t, TriedSlots(h, d.trieds), d.trieds);
    PruningKeepsTried(t, r, TriedSlots(h, d.trieds), d.trieds);
    forall slot | slot in r.newTable
      ensures NewPlaced(h, d, r, slot)
    {
      NewIsPlaced(h, d, slot);
    }
  }

  lemma {:induction false} NewIsPlaced(h: Hashing, d: Dump, slot: Slot)
    requires Complete(d) && Sound(d) && slot in Restored(h, d).newTable
    ensures NewPlaced(h, d, Restored(h, d), slot)
  {
    hide Entries, Restored, TriedFirst, Usable, Ok, Idle, Hashing.NewSlot, LoadRows, FirstAt;
    var e, t, r := Entries(h, d), Loaded(h, d), Restored(h, d);
    UsableExactly(d);
    EntriesAreLoaded(h, d);
    RowsAreLoaded(h, e, d.buckets, Usable(d));
    RestoredIsOk(h, d);
    var k := r.newTable[slot];
    InTable(h, r, slot);
    assert SameEntry(t, r, k);
    if Usable(d) {
      assert FromRows(h, e, t, slot, d.buckets);
    } else {
      assert FirstAt(Homes(h, d.news), slot, k);
      FirstIsInside(Homes(h, d.news), slot, k);
    }
    assert Holds(e, k, d.news[k]);
  }
}
