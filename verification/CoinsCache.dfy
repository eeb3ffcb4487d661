/**
 * The stack of write-back caches over the coin database. Each CoinsViewCache layer sits on
 * another layer or, at the bottom, on the database; reading through a layer fills the
 * caches beneath it. Every layer is proved to mean one plain map (Utxo), which reads never
 * change, which a modification changes at one txid, and which Flush hands to the layer below.
 */
module CoinsCache {
  import opened Options
  import opened Coins
  import opened UtxoSet

  type BlockHash = nat  // 0: not set

  datatype Entry = Entry(coins: Coins, isDirty: bool, isFresh: bool)

  type CoinsMap = map<Txid, Entry>

  /** What a layer with this cache over a set `under` shows for a txid. */
  ghost function Shown(cache: CoinsMap, under: UtxoMap, t: Txid): Option<Coins> {
    if t in cache then
      if cache[t].coins.IsPruned() then None else Some(cache[t].coins)
    else if t in under then Some(under[t]) else None
  }

  ghost function Overlay(cache: CoinsMap, under: UtxoMap): (r: UtxoMap)
    ensures forall t :: t in r <==> Shown(cache, under, t).Some?
    ensures forall t | t in r :: Shown(cache, under, t) == Some(r[t])
  {
    map t | t in cache.Keys + under.Keys && Shown(cache, under, t).Some? :: Shown(cache, under, t).value
  }

  /** A trimmed record is spent exactly when it lists no outputs. */
  lemma {:induction false} TrimmedPruned(c: Coins)
    requires Trimmed(c.vout)
    ensures c.IsPruned() <==> c.vout == []
  {
    if c.vout != [] {
      assert !c.vout[|c.vout| - 1].IsNull();
    }
  }

  /** FRESH means the layer below shows nothing; an entry not DIRTY agrees with it. */
  ghost predicate Agrees(e: Entry, t: Txid, under: UtxoMap) {
    && Trimmed(e.coins.vout)
    && (e.isFresh ==> t !in under)
    && (!e.isDirty ==> if t in under then e.coins == under[t] else e.coins.IsPruned())
  }

  ghost predicate LayerOk(cache: CoinsMap, under: UtxoMap) {
    forall t | t in cache :: Agrees(cache[t], t, under)
  }

  /** Whatever is not FRESH was read through the parent cache, which still holds it. */
  ghost predicate Held(cache: CoinsMap, parent: CoinsMap) {
    forall t | t in cache && !cache[t].isFresh :: t in parent
  }

  lemma {:induction false} OverlayProper(cache: CoinsMap, under: UtxoMap)
    requires LayerOk(cache, under) && Proper(under)
    ensures Proper(Overlay(cache, under))
  {
    var r := Overlay(cache, under);
    forall t | t in r
      ensures Trimmed(r[t].vout) && r[t].vout != []
    {
      if t in cache {
        TrimmedPruned(cache[t].coins);
      }
    }
  }

  lemma {:induction false} OverlayExt(cache: CoinsMap, under: UtxoMap, r: UtxoMap)
    requires forall t :: Shown(cache, under, t) == if t in r then Some(r[t]) else None
    ensures Overlay(cache, under) == r
  {}

  lemma {:induction false} OverlayNothing(under: UtxoMap)
    ensures Overlay(map[], under) == under
  {}

  lemma {:induction false} PutSame(u: UtxoMap, t: Txid, c: Coins)
    requires if c.IsPruned() then t !in u else t in u && u[t] == c
    ensures Put(u, t, c) == u
  {}

  lemma {:induction false} HaveInputsUpTo(u: UtxoMap, vin: seq<OutPoint>, i: nat)
    requires i < |vin|
    ensures HaveInputs(u, vin[..i + 1]) <==> HaveInputs(u, vin[..i]) && Available(u, vin[i])
    ensures !Available(u, vin[i]) ==> !HaveInputs(u, vin)
  {
    assert vin[..i + 1] == vin[..i] + [vin[i]];
    HaveInputsSnoc(u, vin[..i], vin[i]);
  }

  /** Setting one entry changes the meaning at its txid only. */
  lemma {:induction false} SetEntry(cache: CoinsMap, under: UtxoMap, t: Txid, e: Entry)
    requires LayerOk(cache, under) && Agrees(e, t, under)
    ensures LayerOk(cache[t := e], under)
    ensures Overlay(cache[t := e], under) == Put(Overlay(cache, under), t, e.coins)
  {
    OverlayExt(cache[t := e], under, Put(Overlay(cache, under), t, e.coins));
  }

  /** An entry can go without a trace if it is FRESH and spent. */
  lemma {:induction false} DropEntry(cache: CoinsMap, under: UtxoMap, t: Txid)
    requires LayerOk(cache, under) && t !in under
    ensures LayerOk(cache - {t}, under)
    ensures Overlay(cache - {t}, under) == Overlay(cache, under) - {t}
  {
    OverlayExt(cache - {t}, under, Overlay(cache, under) - {t});
  }

  /** Writing one entry of a child and then the others is writing them all. */
  lemma {:induction false} WriteOne(cache: CoinsMap, under: UtxoMap, t: Txid)
    requires LayerOk(cache, under) && Proper(under) && t in cache
    ensures var under' := if cache[t].isDirty then Put(under, t, cache[t].coins) else under;
            Proper(under') && LayerOk(cache - {t}, under') && Overlay(cache - {t}, under') == Overlay(cache, under)
  {
    var under' := if cache[t].isDirty then Put(under, t, cache[t].coins) else under;
    if t in under {
      TrimmedPruned(under[t]);
    }
    TrimmedPruned(cache[t].coins);
    OverlayExt(cache - {t}, under', Overlay(cache, under));
  }

  /** The coin database: the bottom of every stack. */
  class CoinsViewDB {
    var coins: UtxoMap
    var best: BlockHash

    constructor (coins: UtxoMap, best: BlockHash)
      requires Proper(coins)
      ensures this.coins == coins && this.best == best
    {
      this.coins := coins;
      this.best := best;
    }

    /** Write what is DIRTY, erasing what is entirely spent; then the best block, if set. */
    method BatchWrite(mapCoins: CoinsMap, hashBlock: BlockHash)
      requires Proper(coins) && LayerOk(mapCoins, coins)
      modifies this
      ensures coins == Overlay(mapCoins, old(coins))
      ensures Proper(coins)
      ensures best == if hashBlock != 0 then hashBlock else old(best)
    {
      hide LayerOk, Overlay, Proper, Put;
      var left := mapCoins;
      while left != map[]
        invariant LayerOk(left, coins) && Proper(coins)
        invariant Overlay(left, coins) == Overlay(mapCoins, old(coins))
        invariant best == old(best)
        decreases |left|
      {
        var t :| t in left;
        WriteOne(left, coins, t);
        if left[t].isDirty {
          coins := Put(coins, t, left[t].coins);
        }
        left := left - {t};
      }
      OverlayNothing(coins);
      if hashBlock != 0 {
        best := hashBlock;
      }
    }
  }

  class CoinsViewCache {
    const base: CoinsViewCache?
    const db: CoinsViewDB
    var cacheCoins: CoinsMap
    var hashBlock: BlockHash
    var hasModifier: bool
    ghost const lower: set<CoinsViewCache>
    ghost const depth: nat

    ghost predicate Linked()
      decreases depth
    {
      if base == null then depth == 0 && lower == {}
      else
        && depth == base.depth + 1 && base.db == db
        && base.Linked()
        && lower == base.lower + {base} && this !in lower
    }

    ghost function Under(): UtxoMap
      requires Linked()
      reads lower`cacheCoins, db`coins
      decreases depth, 0
    {
      if base == null then db.coins else base.Utxo()
    }

    /** The meaning of this layer: the unspent outputs it shows. */
    ghost function Utxo(): UtxoMap
      requires Linked()
      reads this`cacheCoins, lower`cacheCoins, db`coins
      decreases depth, 1
    {
      Overlay(cacheCoins, Under())
    }

    /** The meanings of all the layers beneath, the database last. */
    ghost function Beneath(): (r: seq<UtxoMap>)
      requires Linked()
      reads lower`cacheCoins, db`coins
      decreases depth
    {
      if base == null then [db.coins] else [base.Utxo()] + base.Beneath()
    }

    ghost predicate Valid()
      reads this`cacheCoins, lower`cacheCoins, db`coins
      decreases depth
    {
      && Linked()
      && LayerOk(cacheCoins, Under())
      && if base == null then Proper(db.coins) else base.Valid() && Held(cacheCoins, base.cacheCoins)
    }

    lemma {:induction false} UtxoProper()
      requires Valid()
      ensures Proper(Utxo()) && Proper(Under())
      decreases depth
    {
      if base != null {
        base.UtxoProper();
      }
      OverlayProper(cacheCoins, Under());
    }

    ghost function UnderBest(): BlockHash
      requires Linked()
      reads lower`hashBlock, db`best
      decreases depth, 0
    {
      if base == null then db.best else base.Best()
    }

    /** The block this layer's state belongs to. */
    ghost function Best(): BlockHash
      requires Linked()
      reads this`hashBlock, lower`hashBlock, db`best
      decreases depth, 1
    {
      if hashBlock != 0 then hashBlock else UnderBest()
    }

    constructor OnDB(db: CoinsViewDB)
      requires Proper(db.coins)
      ensures Valid() && base == null && this.db == db
      ensures Utxo() == db.coins && Best() == db.best && !hasModifier && cacheCoins == map[]
    {
      this.base, this.db := null, db;
      cacheCoins, hashBlock, hasModifier := map[], 0, false;
      lower, depth := {}, 0;
      new;
      assert Utxo() == db.coins;
    }

    constructor OnCache(base: CoinsViewCache)
      requires base.Valid()
      ensures Valid() && this.base == base && db == base.db && lower == base.lower + {base} && fresh(this)
      ensures Utxo() == base.Utxo() && Best() == base.Best() && !hasModifier && cacheCoins == map[]
      ensures hashBlock == 0
    {
      this.base, this.db := base, base.db;
      cacheCoins, hashBlock, hasModifier := map[], 0, false;
      lower, depth := base.lower + {base}, base.depth + 1;
      new;
      assert Utxo() == base.Utxo();
    }

    /** What is known of a layer is known of the layer below it. */
    lemma {:induction false} BaseFacts()
      requires Valid() && base != null
      ensures base.Valid() && Under() == base.Utxo() && UnderBest() == base.Best()
      ensures |Beneath()| > 0 && Beneath()[0] == base.Utxo() && Beneath()[1..] == base.Beneath()
    {}

    lemma {:induction false} EntryFacts(t: Txid)
      requires Valid() && t in cacheCoins
      ensures Agrees(cacheCoins[t], t, Under())
      ensures !cacheCoins[t].isFresh && base != null ==> t in base.cacheCoins
    {}

    /** Write an entry of this layer's map. */
    method PutEntry(t: Txid, e: Entry)
      requires Valid() && Agrees(e, t, Under())
      requires !e.isFresh && base != null ==> t in base.cacheCoins
      modifies this`cacheCoins
      ensures Valid() && cacheCoins == old(cacheCoins)[t := e]
      ensures Under() == old(Under()) && Beneath() == old(Beneath())
      ensures Utxo() == Put(old(Utxo()), t, e.coins)
    {
      SetEntry(cacheCoins, Under(), t, e);
      cacheCoins := cacheCoins[t := e];
    }

    /** Erase an entry of this layer's map. */
    method EraseEntry(t: Txid)
      requires Valid() && t !in Under()
      modifies this`cacheCoins
      ensures Valid() && cacheCoins == old(cacheCoins) - {t}
      ensures Under() == old(Under()) && Beneath() == old(Beneath())
      ensures Utxo() == old(Utxo()) - {t}
    {
      DropEntry(cacheCoins, Under(), t);
      cacheCoins := cacheCoins - {t};
    }

    /** Bring a txid into the cache if any layer beneath has a record of it. */
    method FetchCoins(txid: Txid) returns (found: bool)
      requires Valid()
      modifies this`cacheCoins, lower`cacheCoins
      ensures Valid() && Utxo() == old(Utxo()) && Beneath() == old(Beneath())
      ensures found == (txid in cacheCoins)
      ensures !found ==> txid !in Utxo()
      ensures forall t | t in old(cacheCoins) :: t in cacheCoins && cacheCoins[t] == old(cacheCoins)[t]
      decreases depth
    {
      if txid in cacheCoins {
        return true;
      }
      var tmp;
      found, tmp := BaseGetCoins(txid);
      if !found {
        return false;
      }
      assert Shown(cacheCoins, Under(), txid) == if txid in Under() then Some(Under()[txid]) else None;
      UtxoProper();
      TrimmedPruned(tmp);
      PutSame(Utxo(), txid, tmp);
      PutEntry(txid, Entry(tmp, false, tmp.IsPruned()));
    }

    /** base->GetCoins: the next layer's GetCoins, or the database's. */
    method BaseGetCoins(txid: Txid) returns (found: bool, coins: Coins)
      requires Valid()
      modifies lower`cacheCoins
      ensures Valid() && Utxo() == old(Utxo()) && Under() == old(Under()) && Beneath() == old(Beneath())
      ensures !found ==> txid !in Under() && coins == NO_COINS
      ensures found ==> Trimmed(coins.vout)
      ensures found ==> if txid in Under() then coins == Under()[txid] else coins.IsPruned()
      ensures found && base != null ==> txid in base.cacheCoins
      decreases depth, 0
    {
      if base == null {
        found := txid in db.coins;
        coins := if found then db.coins[txid] else NO_COINS;
      } else {
        found := base.FetchCoins(txid);
        coins := if found then base.cacheCoins[txid].coins else NO_COINS;
      }
      UtxoProper();
    }

    /** The cached record, or None for the null pointer. */
    method AccessCoins(txid: Txid) returns (coins: Option<Coins>)
      requires Valid()
      modifies this`cacheCoins, lower`cacheCoins
      ensures Valid() && Utxo() == old(Utxo()) && Beneath() == old(Beneath())
      ensures Get(Utxo(), txid) == if coins.Some? && !coins.value.IsPruned() then coins.value else NO_COINS
      ensures coins.Some? ==> Trimmed(coins.value.vout)
    {
      var found := FetchCoins(txid);
      coins := if found then Some(cacheCoins[txid].coins) else None;
    }

    /** Looks only at whether outputs are listed, which for trimmed records is whether any is unspent. */
    method HaveCoins(txid: Txid) returns (have: bool)
      requires Valid()
      modifies this`cacheCoins, lower`cacheCoins
      ensures Valid() && Utxo() == old(Utxo()) && Beneath() == old(Beneath())
      ensures have <==> txid in Utxo()
    {
      var found := FetchCoins(txid);
      have := found && cacheCoins[txid].coins.vout != [];
      if found {
        TrimmedPruned(cacheCoins[txid].coins);
      }
    }

    /** Open a modifiable reference: from here to ReleaseModifier no other may be open. */
    method ModifyCoins(txid: Txid) returns (coins: Coins)
      requires Valid() && !hasModifier
      modifies this`cacheCoins, this`hasModifier, lower`cacheCoins
      ensures Valid() && Utxo() == old(Utxo()) && Beneath() == old(Beneath()) && hasModifier
      ensures txid in cacheCoins && cacheCoins[txid].isDirty && cacheCoins[txid].coins == coins
      ensures Trimmed(coins.vout) && Get(Utxo(), txid) == if coins.IsPruned() then NO_COINS else coins
    {
      hide Valid, Under, Utxo, Beneath, Trimmed, Coins.IsPruned;
      IsLinked();
      OpenModifier();
      var e;
      if txid in cacheCoins {
        EntryMeans(txid);
        e := cacheCoins[txid].(isDirty := true);
      } else {
        var found, tmp := BaseGetCoins(txid);
        NoEntryMeans(txid);
        NothingIsTrimmed();
        e := Entry(tmp, true, !found || tmp.IsPruned());
      }
      coins := e.coins;
      PutSame(Utxo(), txid, coins);
      PutEntry(txid, e);
    }

    method OpenModifier()
      requires Valid()
      modifies this`hasModifier
      ensures hasModifier && Valid() && Utxo() == old(Utxo()) && Beneath() == old(Beneath())
    {
      hasModifier := true;
    }

    lemma {:induction false} IsLinked()
      requires Valid()
      ensures Linked() && this !in lower
    {}

    lemma {:induction false} EntryMeans(t: Txid)
      requires Valid() && t in cacheCoins
      ensures Agrees(cacheCoins[t], t, Under()) && (!cacheCoins[t].isFresh && base != null ==> t in base.cacheCoins)
      ensures if cacheCoins[t].coins.IsPruned() then t !in Utxo() else t in Utxo() && Utxo()[t] == cacheCoins[t].coins
    {}

    lemma {:induction false} NoEntryMeans(t: Txid)
      requires Valid() && t !in cacheCoins
      ensures if t in Utxo() then t in Under() && Under()[t] == Utxo()[t] else t !in Under()
      ensures t in Under() ==> Trimmed(Under()[t].vout) && !Under()[t].IsPruned()
    {
      UtxoProper();
      if t in Under() {
        TrimmedPruned(Under()[t]);
      }
      assert Shown(cacheCoins, Under(), t) == if t in Under() then Some(Under()[t]) else None;
    }

    lemma {:induction false} NothingIsTrimmed()
      ensures Trimmed(NO_COINS.vout) && NO_COINS.IsPruned()
    {}

    /** ~CCoinsModifier, with the record as it was left through the reference. */
    method ReleaseModifier(txid: Txid, coins: Coins)
      requires Valid() && hasModifier && txid in cacheCoins && cacheCoins[txid].isDirty
      modifies this`cacheCoins, this`hasModifier
      ensures Valid() && !hasModifier
      ensures Utxo() == Put(old(Utxo()), txid, coins.(vout := Trim(coins.vout)))
      ensures Beneath() == old(Beneath())
    {
      hide Valid, Utxo, Under, Beneath, Trimmed, Coins.IsPruned, Put;
      CloseModifier();
      var vout := Cleanup(coins.vout);
      TrimTrims(coins.vout);
      StoreOrErase(txid, coins.(vout := vout));
    }

    lemma {:induction false} TrimTrims(vout: seq<TxOut>)
      ensures Trimmed(Trim(vout))
    {}

    method CloseModifier()
      requires Valid()
      modifies this`hasModifier
      ensures !hasModifier
      ensures Valid() && Utxo() == old(Utxo()) && Beneath() == old(Beneath())
    {
      hasModifier := false;
    }

    /** Keep a modified record, unless it is spent and the layer below shows nothing either. */
    method StoreOrErase(txid: Txid, coins: Coins)
      requires Valid() && txid in cacheCoins && cacheCoins[txid].isDirty && Trimmed(coins.vout)
      modifies this`cacheCoins
      ensures Valid()
      ensures Utxo() == Put(old(Utxo()), txid, coins)
      ensures Beneath() == old(Beneath())
    {
      EntryFacts(txid);
      var e := cacheCoins[txid].(coins := coins);
      if e.isFresh && coins.IsPruned() {
        EraseEntry(txid);
      } else {
        PutEntry(txid, e);
      }
    }

    method GetBestBlock() returns (hash: BlockHash)
      requires Linked()
      modifies this`hashBlock, lower`hashBlock
      ensures hash == old(Best()) && Best() == old(Best()) && UnderBest() == old(UnderBest())
      decreases depth
    {
      if hashBlock == 0 {
        if base == null {
          hashBlock := db.best;
        } else {
          var h := base.GetBestBlock();
          hashBlock := h;
        }
      }
      hash := hashBlock;
    }

    method SetBestBlock(hash: BlockHash)
      requires Valid()
      modifies this`hashBlock
      ensures Valid() && Utxo() == old(Utxo()) && Beneath() == old(Beneath())
      ensures hashBlock == hash && (hash != 0 ==> Best() == hash) && UnderBest() == old(UnderBest())
    {
      hashBlock := hash;
    }

    /**
     * Take over a child's entries. The assert that an entry missing here must be FRESH in the
     * child holds because everything else the child has was read through this cache.
     */
    method BatchWrite(mapCoins: CoinsMap, hashBlockIn: BlockHash)
      requires Valid() && !hasModifier
      requires LayerOk(mapCoins, Utxo()) && Held(mapCoins, cacheCoins)
      modifies this`cacheCoins, this`hashBlock
      ensures Valid()
      ensures Utxo() == Overlay(mapCoins, old(Utxo()))
      ensures Beneath() == old(Beneath())
      ensures hashBlock == hashBlockIn
    {
      WriteAll(mapCoins);
      hide CoinsViewCache.Valid, CoinsViewCache.Utxo, CoinsViewCache.Beneath;
      SetBestBlock(hashBlockIn);
    }

    /** The BatchWrite loop. */
    method WriteAll(mapCoins: CoinsMap)
      requires Valid()
      requires LayerOk(mapCoins, Utxo()) && Held(mapCoins, cacheCoins)
      modifies this`cacheCoins
      ensures Valid() && Beneath() == old(Beneath())
      ensures Utxo() == Overlay(mapCoins, old(Utxo()))
    {
      ghost var target := Overlay(mapCoins, Utxo());
      var left := mapCoins;
      while left != map[]
        invariant Valid()
        invariant Beneath() == old(Beneath())
        invariant LayerOk(left, Utxo()) && Held(left, cacheCoins)
        invariant Overlay(left, Utxo()) == target
        decreases |left|
      {
        left := WriteNext(left);
      }
      OverlayNothing(Utxo());
    }

    /** One round of the BatchWrite loop: write some entry and erase it from the child's map. */
    method WriteNext(mapCoins: CoinsMap) returns (rest: CoinsMap)
      requires Valid() && mapCoins != map[]
      requires LayerOk(mapCoins, Utxo()) && Held(mapCoins, cacheCoins)
      modifies this`cacheCoins
      ensures Valid() && Beneath() == old(Beneath())
      ensures LayerOk(rest, Utxo()) && Held(rest, cacheCoins) && |rest| < |mapCoins|
      ensures Overlay(rest, Utxo()) == old(Overlay(mapCoins, Utxo()))
    {
      var t :| t in mapCoins;
      UtxoProper();
      WriteOne(mapCoins, Utxo(), t);
      WriteEntry(t, mapCoins[t]);
      rest := mapCoins - {t};
    }

    /** Its three cases: insert as FRESH, erase, or overwrite. */
    method WriteEntry(t: Txid, e: Entry)
      requires Valid() && Agrees(e, t, Utxo()) && (!e.isFresh ==> t in cacheCoins)
      modifies this`cacheCoins
      ensures Valid() && Beneath() == old(Beneath())
      ensures forall k | k != t :: k in cacheCoins <==> k in old(cacheCoins)
      ensures Utxo() == if e.isDirty then Put(old(Utxo()), t, e.coins) else old(Utxo())
    {
      if e.isDirty {
        if t !in cacheCoins {
          if !e.coins.IsPruned() {
            assert e.isFresh;
            PutEntry(t, Entry(e.coins, true, true));
          }
        } else if cacheCoins[t].isFresh && e.coins.IsPruned() {
          EraseEntry(t);
        } else {
          PutEntry(t, Entry(e.coins, true, cacheCoins[t].isFresh));
        }
      }
    }

    /** Push everything down: the layer below then means what this one means. */
    method Flush()
      requires Valid() && (base != null ==> !base.hasModifier)
      modifies this`cacheCoins, (if base == null then {} else {base})`cacheCoins
      modifies (if base == null then {} else {base})`hashBlock, (if base == null then {db} else {})
      ensures Valid() && cacheCoins == map[]
      ensures Utxo() == old(Utxo()) && Under() == old(Utxo())
      ensures base != null ==> base.Valid() && base.Utxo() == old(Utxo()) && base.hashBlock == hashBlock
      ensures base != null ==> base.Beneath() == old(base.Beneath())
      ensures hashBlock != 0 ==> Best() == UnderBest() == hashBlock
      ensures hashBlock == 0 ==> Best() == old(if base == null then db.best else base.UnderBest())
    {
      PushDown();
      OverlayNothing(Under());
      ClearCache();
    }

    method ClearCache()
      requires Linked() && if base == null then Proper(db.coins) else base.Valid()
      modifies this`cacheCoins
      ensures Valid() && cacheCoins == map[]
      ensures Utxo() == Overlay(map[], Under()) && Under() == old(Under()) && Beneath() == old(Beneath())
    {
      cacheCoins := map[];
    }

    /** base->BatchWrite. */
    method PushDown()
      requires Valid() && (base != null ==> !base.hasModifier)
      modifies (if base == null then {} else {base})`cacheCoins
      modifies (if base == null then {} else {base})`hashBlock, (if base == null then {db} else {})
      ensures Under() == old(Utxo())
      ensures if base == null then Proper(db.coins) else base.Valid() && base.Beneath() == old(base.Beneath())
      ensures base != null ==> base.hashBlock == hashBlock
      ensures hashBlock != 0 ==> UnderBest() == hashBlock
      ensures hashBlock == 0 ==> UnderBest() == old(if base == null then db.best else base.UnderBest())
    {
      if base == null {
        db.BatchWrite(cacheCoins, hashBlock);
      } else {
        base.BatchWrite(cacheCoins, hashBlock);
        assert base.UnderBest() == old(base.UnderBest());
        assert hashBlock == 0 ==> base.Best() == base.UnderBest();
      }
    }

    /** The test HaveInputs makes for each input. */
    method HaveInput(out: OutPoint) returns (have: bool)
      requires Valid()
      modifies this`cacheCoins, lower`cacheCoins
      ensures Valid() && Utxo() == old(Utxo()) && Beneath() == old(Beneath())
      ensures have == Available(Utxo(), out)
    {
      var coins := AccessCoins(out.hash);
      have := coins.Some? && coins.value.IsAvailable(out.n);
    }

    method HaveInputs(tx: Tx) returns (have: bool)
      requires Valid()
      modifies this`cacheCoins, lower`cacheCoins
      ensures Valid() && Utxo() == old(Utxo()) && Beneath() == old(Beneath())
      ensures have <==> tx.IsCoinBase() || UtxoSet.HaveInputs(Utxo(), tx.vin)
    {
      have := true;
      if !tx.IsCoinBase() {
        ghost var u := Utxo();
        var i := 0;
        while have && i < |tx.vin|
          invariant Valid() && Utxo() == u && Beneath() == old(Beneath())
          invariant 0 <= i <= |tx.vin|
          invariant have <==> UtxoSet.HaveInputs(u, tx.vin[..i])
          invariant !have ==> !UtxoSet.HaveInputs(u, tx.vin)
        {
          have := HaveInput(tx.vin[i]);
          HaveInputsUpTo(u, tx.vin, i);
          i := i + 1;
        }
        assert tx.vin[..|tx.vin|] == tx.vin;
      }
    }
  }
}
