/**
 * What a block must satisfy to be connected, as far as amounts and coins go, and the
 * ConnectBlock loop proved to accept exactly such blocks.
 */
module BlockRules {
  import opened Options
  import opened Coins
  import opened UtxoSet
  import opened CoinsCache
  import BlockCoins

  const COIN: int := 100_000_000
  const MAX_MONEY: int := 10_000_000_000 * COIN
  const COINBASE_MATURITY: int := 100

  predicate MoneyRange(value: int) {
    0 <= value <= MAX_MONEY
  }

  /** Sum of the output values (CTransaction::GetValueOut). */
  function ValueOut(vout: seq<TxOut>): int {
    if vout == [] then 0 else ValueOut(vout[..|vout| - 1]) + vout[|vout| - 1].value
  }

  // ---------- CheckTransaction ----------

  /** What CheckTransaction accepts, sizes and scripts aside. */
  ghost predicate TxOk(tx: Tx) {
    && tx.vin != [] && tx.vout != []
    && OutputsNonNegative(tx)
    && ValueOut(tx.vout) <= MAX_MONEY
    && DistinctInputs(tx.vin)
    && (tx.IsCoinBase() || forall i | 0 <= i < |tx.vin| :: !tx.vin[i].IsNull())
  }

  lemma {:induction false} ValueOutPrefix(vout: seq<TxOut>, k: nat)
    requires forall i | 0 <= i < |vout| :: vout[i].value >= 0
    requires k <= |vout|
    ensures 0 <= ValueOut(vout[..k]) <= ValueOut(vout)
    ensures forall i | 0 <= i < k :: vout[i].value <= ValueOut(vout[..k])
    decreases |vout|
  {
    if k < |vout| {
      ValueOutPrefix(vout[..|vout| - 1], k);
      assert vout[..|vout| - 1][..k] == vout[..k];
    } else {
      assert vout[..k] == vout;
      if vout != [] {
        ValueOutPrefix(vout[..k - 1], k - 1);
        assert vout[..k - 1][..k - 1] == vout[..k - 1];
      }
    }
  }

  /** The running total is checked after every output; that is the total being in range. */
  method CheckOutputs(vout: seq<TxOut>) returns (ok: bool)
    ensures ok <==> (forall i | 0 <= i < |vout| :: vout[i].value >= 0) && ValueOut(vout) <= MAX_MONEY
  {
    var nValueOut := 0;
    for i := 0 to |vout|
      invariant nValueOut == ValueOut(vout[..i]) && MoneyRange(nValueOut)
      invariant forall k | 0 <= k < i :: vout[k].value >= 0
    {
      assert vout[..i + 1][..i] == vout[..i];
      if (forall k | 0 <= k < |vout| :: vout[k].value >= 0) {
        ValueOutPrefix(vout, i + 1);
        ValueOutPrefix(vout, i);
      }
      if vout[i].value < 0 || vout[i].value > MAX_MONEY {
        return false;
      }
      nValueOut := nValueOut + vout[i].value;
      if !MoneyRange(nValueOut) {
        return false;
      }
    }
    assert vout[..|vout|] == vout;
    ok := true;
  }

  /** The set of inputs seen so far finds the first repetition. */
  method CheckDuplicateInputs(vin: seq<OutPoint>) returns (ok: bool)
    ensures ok <==> DistinctInputs(vin)
  {
    var seen: set<OutPoint> := {};
    for i := 0 to |vin|
      invariant forall o :: o in seen <==> exists k :: 0 <= k < i && vin[k] == o
      invariant forall j, k | 0 <= j < k < i :: vin[j] != vin[k]
    {
      if vin[i] in seen {
        return false;
      }
      seen := seen + {vin[i]};
    }
    ok := true;
  }

  method CheckTransaction(tx: Tx) returns (ok: bool)
    ensures ok <==> TxOk(tx)
  {
    if tx.vin == [] || tx.vout == [] {
      return false;
    }
    ok := CheckOutputs(tx.vout);
    if !ok {
      return;
    }
    ok := CheckDuplicateInputs(tx.vin);
    if ok && !tx.IsCoinBase() {
      for i := 0 to |tx.vin|
        invariant forall k | 0 <= k < i :: !tx.vin[k].IsNull()
      {
        if tx.vin[i].IsNull() {
          return false;
        }
      }
    }
  }

  ghost predicate BlockOk(txs: seq<Tx>) {
    && OnlyFirstIsCoinBase(txs)
    && forall i | 0 <= i < |txs| :: TxOk(txs[i])
  }

  /**
   * In full: the first transaction, and no other, is a coinbase, whose only input is null; the others have
   * no null input. All have inputs, none twice, and outputs that are not negative and add up to at most
   * ten billion coins.
   */
  lemma {:induction false} BlockInFull(txs: seq<Tx>)
    ensures BlockOk(txs) <==>
            && txs != []
            && (forall i | 0 <= i < |txs| ::
                  (|txs[i].vin| == 1 && txs[i].vin[0] == OutPoint(0, 4_294_967_295)) <==> i == 0)
            && (forall i, k | 0 < i < |txs| && 0 <= k < |txs[i].vin| :: txs[i].vin[k] != OutPoint(0, 4_294_967_295))
            && (forall i | 0 <= i < |txs| :: txs[i].vin != [] && txs[i].vout != [])
            && (forall i, j, k | 0 <= i < |txs| && 0 <= j < k < |txs[i].vin| :: txs[i].vin[j] != txs[i].vin[k])
            && (forall i, k | 0 <= i < |txs| && 0 <= k < |txs[i].vout| :: txs[i].vout[k].value >= 0)
            && forall i | 0 <= i < |txs| :: ValueOut(txs[i].vout) <= 1_000_000_000_000_000_000
  {
    hide ValueOut;
    assert forall i | 0 <= i < |txs| :: txs[i].IsCoinBase() <==>
      |txs[i].vin| == 1 && txs[i].vin[0] == OutPoint(0, 4_294_967_295);
  }

  /** The transaction checks of CheckBlock. */
  method CheckBlock(txs: seq<Tx>) returns (ok: bool)
    ensures ok <==> BlockOk(txs)
  {
    if txs == [] || !txs[0].IsCoinBase() {
      return false;
    }
    for i := 1 to |txs|
      invariant forall k | 1 <= k < i :: !txs[k].IsCoinBase()
    {
      if txs[i].IsCoinBase() {
        return false;
      }
    }
    for i := 0 to |txs|
      invariant forall k | 0 <= k < i :: TxOk(txs[k])
    {
      ok := CheckTransaction(txs[i]);
      if !ok {
        return;
      }
    }
    ok := true;
  }

  // ---------- CheckInputs ----------

  /** The value of an output of the set, 0 if it is not there. */
  function InputValue(u: UtxoMap, out: OutPoint): int {
    if Available(u, out) then Get(u, out.hash).vout[out.n].value else 0
  }

  function ValueIn(u: UtxoMap, vin: seq<OutPoint>): int {
    if vin == [] then 0 else ValueIn(u, vin[..|vin| - 1]) + InputValue(u, vin[|vin| - 1])
  }

  /** An input that may be spent at this height. */
  predicate MaySpend(u: UtxoMap, out: OutPoint, height: int) {
    && Available(u, out)
    && (Get(u, out.hash).coinBase ==> height - Get(u, out.hash).height >= COINBASE_MATURITY)
    && InputValue(u, out) >= 0
  }

  ghost predicate AllSpendable(u: UtxoMap, vin: seq<OutPoint>, height: int) {
    forall i | 0 <= i < |vin| :: MaySpend(u, vin[i], height)
  }

  ghost predicate InputsOk(u: UtxoMap, tx: Tx, height: int) {
    && AllSpendable(u, tx.vin, height)
    && ValueOut(tx.vout) <= ValueIn(u, tx.vin) <= MAX_MONEY
  }

  lemma {:induction false} ValueInPrefix(u: UtxoMap, vin: seq<OutPoint>, k: nat)
    requires forall i | 0 <= i < |vin| :: InputValue(u, vin[i]) >= 0
    requires k <= |vin|
    ensures 0 <= ValueIn(u, vin[..k]) <= ValueIn(u, vin)
    ensures forall i | 0 <= i < k :: InputValue(u, vin[i]) <= ValueIn(u, vin[..k])
    decreases |vin|
  {
    if k < |vin| {
      ValueInPrefix(u, vin[..|vin| - 1], k);
      assert vin[..|vin| - 1][..k] == vin[..k];
    } else {
      assert vin[..k] == vin;
      if vin != [] {
        ValueInPrefix(u, vin[..k - 1], k - 1);
        assert vin[..k - 1][..k - 1] == vin[..k - 1];
      }
    }
  }

  lemma {:induction false} ValueInStep(u: UtxoMap, vin: seq<OutPoint>, i: nat)
    requires i < |vin|
    ensures ValueIn(u, vin[..i + 1]) == ValueIn(u, vin[..i]) + InputValue(u, vin[i])
    ensures (forall k | 0 <= k < |vin| :: InputValue(u, vin[k]) >= 0) ==>
              ValueIn(u, vin[..i + 1]) <= ValueIn(u, vin) && InputValue(u, vin[i]) <= ValueIn(u, vin)
  {
    assert vin[..i + 1][..i] == vin[..i];
    if (forall k | 0 <= k < |vin| :: InputValue(u, vin[k]) >= 0) {
      ValueInPrefix(u, vin, i + 1);
      ValueInPrefix(u, vin, i);
    }
  }

  lemma {:induction false} ValueOutInRange(tx: Tx)
    requires TxOk(tx)
    ensures MoneyRange(ValueOut(tx.vout))
  {
    ValueOutPrefix(tx.vout, |tx.vout|);
    assert tx.vout[..|tx.vout|] == tx.vout;
  }

  /** CheckInputs without the script checks: maturity, ranges, and value in against value out. */
  method CheckInputs(tx: Tx, view: CoinsViewCache, height: int) returns (ok: bool)
    requires view.Valid() && TxOk(tx)
    modifies view`cacheCoins, view.lower`cacheCoins
    ensures view.Valid() && view.Utxo() == old(view.Utxo()) && view.Beneath() == old(view.Beneath())
    ensures ok <==> tx.IsCoinBase() || InputsOk(view.Utxo(), tx, height)
  {
    ghost var u := view.Utxo();
    ValueOutInRange(tx);
    hide CoinsViewCache.Valid, CoinsViewCache.Utxo, CoinsViewCache.Beneath, CoinsViewCache.Linked;
    hide ValueIn, ValueOut, AllSpendable, HaveInputs, TxOk;
    ok := true;
    if !tx.IsCoinBase() {
      ok := view.HaveInputs(tx);
      if ok {
        ok := CheckValues(tx, view, height);
      } else {
        MissingInput(u, tx, height);
      }
    }
  }

  method CheckValues(tx: Tx, view: CoinsViewCache, height: int) returns (ok: bool)
    requires view.Valid() && HaveInputs(view.Utxo(), tx.vin) && MoneyRange(ValueOut(tx.vout))
    modifies view`cacheCoins, view.lower`cacheCoins
    ensures view.Valid() && view.Utxo() == old(view.Utxo()) && view.Beneath() == old(view.Beneath())
    ensures ok <==> InputsOk(view.Utxo(), tx, height)
  {
    hide CoinsViewCache.Valid, CoinsViewCache.Utxo, CoinsViewCache.Beneath, CoinsViewCache.Linked;
    hide ValueIn, ValueOut, AllSpendable, HaveInputs;
    var nValueIn;
    ok, nValueIn := SumInputs(tx.vin, view, height);
    if ok {
      var valueOut := GetValueOut(tx.vout);
      var nTxFee := nValueIn - valueOut;
      ok := nValueIn >= valueOut && nTxFee >= 0 && MoneyRange(nTxFee);
    }
  }

  /** The loop of CheckInputs. */
  method SumInputs(vin: seq<OutPoint>, view: CoinsViewCache, height: int) returns (ok: bool, nValueIn: int)
    requires view.Valid() && HaveInputs(view.Utxo(), vin)
    modifies view`cacheCoins, view.lower`cacheCoins
    ensures view.Valid() && view.Utxo() == old(view.Utxo()) && view.Beneath() == old(view.Beneath())
    ensures ok <==> AllSpendable(view.Utxo(), vin, height) && ValueIn(view.Utxo(), vin) <= MAX_MONEY
    ensures ok ==> nValueIn == ValueIn(view.Utxo(), vin)
  {
    ghost var u := view.Utxo();
    hide CoinsViewCache.Valid, CoinsViewCache.Utxo, CoinsViewCache.Beneath, CoinsViewCache.Linked;
    hide ValueIn, AllSpendable, HaveInputs;
    ok, nValueIn := true, 0;
    SumNothing(u, vin, height);
    var i := 0;
    while ok && i < |vin|
      invariant 0 <= i <= |vin|
      invariant view.Valid() && view.Utxo() == u && view.Beneath() == old(view.Beneath())
      invariant ok ==> SumsUpTo(u, vin, height, i, nValueIn)
      invariant !ok ==> !(AllSpendable(u, vin, height) && ValueIn(u, vin) <= MAX_MONEY)
    {
      HaveInputAt(u, vin, i);
      var coins := AccessAvailable(view, vin[i]);
      var value := coins.vout[vin[i].n].value;
      SumNext(u, vin, height, i, nValueIn);
      if coins.coinBase && height - coins.height < COINBASE_MATURITY {
        ok := false;
      } else {
        nValueIn := nValueIn + value;
        ok := MoneyRange(value) && MoneyRange(nValueIn);
      }
      i := i + 1;
    }
    SumAll(u, vin, height, nValueIn);
  }

  lemma {:induction false} HaveInputAt(u: UtxoMap, vin: seq<OutPoint>, i: nat)
    requires HaveInputs(u, vin) && i < |vin|
    ensures Available(u, vin[i])
  {}

  lemma {:induction false} SumNothing(u: UtxoMap, vin: seq<OutPoint>, height: int)
    ensures SumsUpTo(u, vin, height, 0, 0)
  {}

  lemma {:induction false} SumAll(u: UtxoMap, vin: seq<OutPoint>, height: int, sum: int)
    ensures SumsUpTo(u, vin, height, |vin|, sum) ==>
              AllSpendable(u, vin, height) && sum == ValueIn(u, vin) && ValueIn(u, vin) <= MAX_MONEY
  {
    assert vin[..|vin|] == vin;
  }

  ghost predicate SumsUpTo(u: UtxoMap, vin: seq<OutPoint>, height: int, i: nat, sum: int)
    requires i <= |vin|
  {
    AllSpendable(u, vin[..i], height) && sum == ValueIn(u, vin[..i]) && MoneyRange(sum)
  }

  lemma {:induction false} SumNext(u: UtxoMap, vin: seq<OutPoint>, height: int, i: nat, sum: int)
    requires i < |vin| && SumsUpTo(u, vin, height, i, sum) && Available(u, vin[i])
    ensures var c := Get(u, vin[i].hash);
            var value := c.vout[vin[i].n].value;
            if (c.coinBase ==> height - c.height >= COINBASE_MATURITY) && MoneyRange(value)
              && MoneyRange(sum + value) then
              SumsUpTo(u, vin, height, i + 1, sum + value)
            else
              !(AllSpendable(u, vin, height) && ValueIn(u, vin) <= MAX_MONEY)
  {
    ValueInStep(u, vin, i);
    assert vin[..i + 1] == vin[..i] + [vin[i]];
    if AllSpendable(u, vin, height) {
      assert MaySpend(u, vin[i], height);
    }
  }

  lemma {:induction false} MissingInput(u: UtxoMap, tx: Tx, height: int)
    requires !HaveInputs(u, tx.vin)
    ensures !InputsOk(u, tx, height)
  {
    var i :| 0 <= i < |tx.vin| && !Available(u, tx.vin[i]);
    assert !MaySpend(u, tx.vin[i], height);
  }

  /** AccessCoins for an output known to be there. */
  method AccessAvailable(view: CoinsViewCache, out: OutPoint) returns (coins: Coins)
    requires view.Valid() && Available(view.Utxo(), out)
    modifies view`cacheCoins, view.lower`cacheCoins
    ensures view.Valid() && view.Utxo() == old(view.Utxo()) && view.Beneath() == old(view.Beneath())
    ensures coins == Get(view.Utxo(), out.hash)
  {
    hide CoinsViewCache.Valid, CoinsViewCache.Utxo, CoinsViewCache.Beneath;
    var c := view.AccessCoins(out.hash);
    coins := c.value;
  }

  method GetValueOut(vout: seq<TxOut>) returns (value: int)
    ensures value == ValueOut(vout)
  {
    value := 0;
    for i := 0 to |vout|
      invariant value == ValueOut(vout[..i])
    {
      assert vout[..i + 1][..i] == vout[..i];
      value := value + vout[i].value;
    }
    assert vout[..|vout|] == vout;
  }

  method GetValueIn(tx: Tx, view: CoinsViewCache) returns (value: int)
    requires view.Valid() && HaveInputs(view.Utxo(), tx.vin)
    modifies view`cacheCoins, view.lower`cacheCoins
    ensures view.Valid() && view.Utxo() == old(view.Utxo()) && view.Beneath() == old(view.Beneath())
    ensures value == ValueIn(view.Utxo(), tx.vin)
  {
    ghost var u := view.Utxo();
    hide CoinsViewCache.Valid, CoinsViewCache.Utxo, CoinsViewCache.Beneath;
    value := 0;
    for i := 0 to |tx.vin|
      invariant view.Valid() && view.Utxo() == u && view.Beneath() == old(view.Beneath())
      invariant value == ValueIn(u, tx.vin[..i])
    {
      ValueInStep(u, tx.vin, i);
      var coins := AccessAvailable(view, tx.vin[i]);
      value := value + coins.vout[tx.vin[i].n].value;
    }
    assert tx.vin[..|tx.vin|] == tx.vin;
  }

  // ---------- the block subsidy ----------

  function ShiftRight(value: nat, k: nat): nat {
    if k == 0 then value else ShiftRight(value / 2, k - 1)
  }

  /** GetBlockValue without the fees; minDifficulty tells the test networks from mainnet. */
  function Subsidy(height: nat, minDifficulty: bool): int {
    if minDifficulty then
      if height == 205 then 9 * COIN else if height >= 350 then 10 * COIN else 50 * COIN
    else if height >= 951753 then 3 * COIN / 2
    else
      var halved := ShiftRight(if height == 68425 || height >= 69791 then 10 * COIN else 50 * COIN, height / 210000);
      if halved <= COIN / 2 then 3 * COIN / 2 else halved
  }

  method GetBlockValue(height: nat, fees: int, minDifficulty: bool) returns (value: int)
    ensures value == Subsidy(height, minDifficulty) + fees
  {
    var nSubsidy := 50 * COIN;
    if minDifficulty && height >= 350 {
      nSubsidy := 10 * COIN;
    }
    if minDifficulty && height == 205 {
      nSubsidy := 9 * COIN;
    }
    if !minDifficulty && height == 68425 {
      nSubsidy := 10 * COIN;
    }
    if !minDifficulty && height >= 69791 {
      nSubsidy := 10 * COIN;
    }
    if !minDifficulty && height <= 951752 {
      nSubsidy := ShiftRight(nSubsidy, height / 210000);
    }
    if !minDifficulty && height >= 951753 {
      nSubsidy := 3 * COIN / 2;
    }
    if nSubsidy <= COIN / 2 {
      nSubsidy := 3 * COIN / 2;
    }
    value := nSubsidy + fees;
  }

  // ---------- ConnectBlock ----------

  datatype Progress = Progress(u: UtxoMap, undos: seq<seq<TxInUndo>>, fees: int)

  /** One round of the ConnectBlock loop, on the n-th transaction. */
  ghost function ConnectNext(p: Progress, tx: Tx, n: nat, height: int): Option<Progress> {
    if !tx.IsCoinBase() && !InputsOk(p.u, tx, height) then None
    else
      var (u, undo) :- UpdateCoins(p.u, tx, height);
      Some(Progress(u, if n == 0 then p.undos else p.undos + [undo],
                    p.fees + if tx.IsCoinBase() then 0 else ValueIn(p.u, tx.vin) - ValueOut(tx.vout)))
  }

  ghost function ConnectChecked(u: UtxoMap, txs: seq<Tx>, height: int): Option<Progress> {
    if txs == [] then Some(Progress(u, [], 0))
    else
      var p :- ConnectChecked(u, txs[..|txs| - 1], height);
      ConnectNext(p, txs[|txs| - 1], |txs| - 1, height)
  }

  /** The blocks ConnectBlock accepts, signatures aside. */
  ghost predicate Accepts(u: UtxoMap, txs: seq<Tx>, height: nat, enforceBIP30: bool, minDifficulty: bool) {
    && BlockOk(txs)
    && (enforceBIP30 ==> NoneUnspent(u, txs))
    && ConnectChecked(u, txs, height).Some?
    && ValueOut(txs[0].vout) <= Subsidy(height, minDifficulty) + ConnectChecked(u, txs, height).value.fees
  }

  /** The checked loop does to the set what the bare UpdateCoins loop does. */
  lemma {:induction false} ConnectCheckedConnects(u: UtxoMap, txs: seq<Tx>, height: int)
    requires ConnectChecked(u, txs, height).Some?
    ensures var p := ConnectChecked(u, txs, height).value; ConnectTxs(u, txs, height) == Some((p.u, p.undos))
  {
    if txs != [] {
      ConnectCheckedConnects(u, txs[..|txs| - 1], height);
    }
  }

  /** The BIP 30 loop. */
  method NoneOverwritten(txs: seq<Tx>, view: CoinsViewCache) returns (ok: bool)
    requires view.Valid()
    modifies view`cacheCoins, view.lower`cacheCoins
    ensures view.Valid() && view.Utxo() == old(view.Utxo()) && view.Beneath() == old(view.Beneath())
    ensures ok <==> NoneUnspent(view.Utxo(), txs)
  {
    hide CoinsViewCache.Valid, CoinsViewCache.Utxo, CoinsViewCache.Beneath;
    view.IsLinked();
    ok := true;
    var i := 0;
    while i < |txs| && ok
      invariant 0 <= i <= |txs|
      invariant view.Valid() && view.Utxo() == old(view.Utxo()) && view.Beneath() == old(view.Beneath())
      invariant ok ==> forall k | 0 <= k < i :: txs[k].hash !in view.Utxo()
      invariant !ok ==> i > 0 && txs[i - 1].hash in view.Utxo()
    {
      var overwritten := Unspent(txs[i].hash, view);
      ok := !overwritten;
      i := i + 1;
    }
  }

  /** Does the view have a record with something unspent in it? */
  method Unspent(txid: Txid, view: CoinsViewCache) returns (b: bool)
    requires view.Valid()
    modifies view`cacheCoins, view.lower`cacheCoins
    ensures view.Valid() && view.Utxo() == old(view.Utxo()) && view.Beneath() == old(view.Beneath())
    ensures b <==> txid in view.Utxo()
  {
    hide CoinsViewCache.Valid, CoinsViewCache.Utxo, CoinsViewCache.Beneath;
    view.IsLinked();
    view.UtxoProper();
    var coins := view.AccessCoins(txid);
    if txid in view.Utxo() {
      TrimmedPruned(view.Utxo()[txid]);
    }
    b := coins.Some? && !coins.value.IsPruned();
  }

  /** The body of the ConnectBlock loop; in it the assert of UpdateCoins never fires. */
  method ConnectTx(tx: Tx, n: nat, height: int, view: CoinsViewCache, undosIn: seq<seq<TxInUndo>>, feesIn: int)
    returns (ok: bool, vtxundo: seq<seq<TxInUndo>>, fees: int)
    requires view.Valid() && !view.hasModifier && TxOk(tx)
    modifies view`cacheCoins, view`hasModifier, view.lower`cacheCoins
    ensures view.Valid() && !view.hasModifier && view.Beneath() == old(view.Beneath())
    ensures ok == ConnectNext(Progress(old(view.Utxo()), undosIn, feesIn), tx, n, height).Some?
    ensures ok ==> ConnectNext(Progress(old(view.Utxo()), undosIn, feesIn), tx, n, height) ==
                   Some(Progress(view.Utxo(), vtxundo, fees))
  {
    ghost var u := view.Utxo();
    hide CoinsViewCache.Valid, CoinsViewCache.Utxo, CoinsViewCache.Beneath, CoinsViewCache.Linked;
    hide InputsOk, HaveInputs, ConnectNext, UpdateCoins, ValueIn, ValueOut, TxOk;
    ok, vtxundo, fees := true, undosIn, feesIn;
    if !tx.IsCoinBase() {
      var fee;
      ok, fee := TallyInputs(tx, height, view);
      fees := fees + fee;
    }
    if ok {
      NextSucceeds(u, undosIn, feesIn, tx, n, height);
      assert ConnectNext(Progress(u, undosIn, feesIn), tx, n, height).value.fees == fees;
      var undo := BlockCoins.UpdateView(tx, view, height);
      if n > 0 {
        vtxundo := vtxundo + [undo];
      }
    } else {
      NextFails(u, undosIn, feesIn, tx, n, height);
    }
  }

  lemma {:induction false} NextFails(u: UtxoMap, undos: seq<seq<TxInUndo>>, fees: int, tx: Tx, n: nat, height: int)
    requires !tx.IsCoinBase() && !InputsOk(u, tx, height)
    ensures ConnectNext(Progress(u, undos, fees), tx, n, height).None?
  {}

  /** Inputs that pass the checks can all be spent. */
  lemma {:induction false} NextSucceeds(u: UtxoMap, undos: seq<seq<TxInUndo>>, fees: int, tx: Tx, n: nat, height: int)
    requires TxOk(tx) && (tx.IsCoinBase() || InputsOk(u, tx, height))
    ensures UpdateCoins(u, tx, height).Some?
    ensures var (u', undo) := UpdateCoins(u, tx, height).value;
            ConnectNext(Progress(u, undos, fees), tx, n, height) ==
            Some(Progress(u', if n == 0 then undos else undos + [undo],
                          if tx.IsCoinBase() then fees else fees + (ValueIn(u, tx.vin) - ValueOut(tx.vout))))
  {
    hide ValueIn, ValueOut, SpendInputs;
    if !tx.IsCoinBase() {
      forall i | 0 <= i < |tx.vin|
        ensures Available(u, tx.vin[i])
      {
        assert MaySpend(u, tx.vin[i], height);
      }
      SpendsSucceedExactly(u, tx.vin);
    }
  }

  /** The checks on the inputs, and the fee. */
  method TallyInputs(tx: Tx, height: int, view: CoinsViewCache) returns (ok: bool, fee: int)
    requires view.Valid() && TxOk(tx) && !tx.IsCoinBase()
    modifies view`cacheCoins, view.lower`cacheCoins
    ensures view.Valid() && view.Utxo() == old(view.Utxo()) && view.Beneath() == old(view.Beneath())
    ensures ok == InputsOk(view.Utxo(), tx, height)
    ensures ok ==> fee == ValueIn(view.Utxo(), tx.vin) - ValueOut(tx.vout)
  {
    hide CoinsViewCache.Valid, CoinsViewCache.Utxo, CoinsViewCache.Beneath, CoinsViewCache.Linked;
    hide InputsOk, HaveInputs, ValueIn, ValueOut, TxOk;
    fee := 0;
    ok := view.HaveInputs(tx);
    if !ok {
      MissingInput(view.Utxo(), tx, height);
    } else {
      var valueIn := GetValueIn(tx, view);
      var valueOut := GetValueOut(tx.vout);
      fee := fee + (valueIn - valueOut);
      ok := CheckInputs(tx, view, height);
    }
  }

  /** The loop over the transactions. */
  method ConnectAll(txs: seq<Tx>, height: int, view: CoinsViewCache)
    returns (ok: bool, vtxundo: seq<seq<TxInUndo>>, fees: int)
    requires view.Valid() && !view.hasModifier && BlockOk(txs)
    modifies view`cacheCoins, view`hasModifier, view.lower`cacheCoins
    ensures view.Valid() && !view.hasModifier && view.Beneath() == old(view.Beneath())
    ensures ok == ConnectChecked(old(view.Utxo()), txs, height).Some?
    ensures ok ==> ConnectChecked(old(view.Utxo()), txs, height) == Some(Progress(view.Utxo(), vtxundo, fees))
  {
    ghost var u := view.Utxo();
    hide CoinsViewCache.Valid, CoinsViewCache.Utxo, CoinsViewCache.Beneath, ConnectNext;
    ok, vtxundo, fees := true, [], 0;
    var i := 0;
    while ok && i < |txs|
      invariant 0 <= i <= |txs|
      invariant view.Valid() && !view.hasModifier && view.Beneath() == old(view.Beneath())
      invariant ok == ConnectChecked(u, txs[..i], height).Some?
      invariant ok ==> ConnectChecked(u, txs[..i], height) == Some(Progress(view.Utxo(), vtxundo, fees))
      invariant !ok ==> ConnectChecked(u, txs, height).None?
    {
      ConnectUpTo(u, txs, height, i);
      ok, vtxundo, fees := ConnectTx(txs[i], i, height, view, vtxundo, fees);
      i := i + 1;
    }
    assert ok ==> txs[..i] == txs;
  }

  lemma {:induction false} ConnectUpTo(u: UtxoMap, txs: seq<Tx>, height: int, i: nat)
    requires i < |txs| && ConnectChecked(u, txs[..i], height).Some?
    ensures var next := ConnectNext(ConnectChecked(u, txs[..i], height).value, txs[i], i, height);
            && ConnectChecked(u, txs[..i + 1], height) == next
            && (next.None? ==> ConnectChecked(u, txs, height).None?)
  {
    assert txs[..i + 1][..i] == txs[..i];
    if ConnectChecked(u, txs[..i + 1], height).None? {
      ConnectCheckedPrefix(u, txs, height, i + 1);
    }
  }

  lemma {:induction false} ConnectCheckedPrefix(u: UtxoMap, txs: seq<Tx>, height: int, k: nat)
    requires k <= |txs| && ConnectChecked(u, txs[..k], height).None?
    ensures ConnectChecked(u, txs, height).None?
    decreases |txs|
  {
    if k < |txs| {
      assert txs[..|txs| - 1][..k] == txs[..k];
      ConnectCheckedPrefix(u, txs[..|txs| - 1], height, k);
    } else {
      assert txs[..k] == txs;
    }
  }

  /**
   * ConnectBlock as far as coins and amounts go. `scriptsOk` is what control.Wait() returns.
   * On success the view holds the new set and the undo data is returned for writing.
   */
  method ConnectBlock(txs: seq<Tx>, height: nat, hash: BlockHash, prev: BlockHash, isGenesis: bool, enforceBIP30: bool,
                      scriptsOk: bool, minDifficulty: bool, fJustCheck: bool, view: CoinsViewCache)
    returns (ok: bool, vtxundo: seq<seq<TxInUndo>>)
    requires view.Valid() && !view.hasModifier
    requires BlockOk(txs) ==> view.Best() == prev
    modifies view`cacheCoins, view`hasModifier, view`hashBlock, view.lower`cacheCoins
    ensures view.Valid() && !view.hasModifier && view.Beneath() == old(view.Beneath())
    ensures isGenesis ==> ok == BlockOk(txs) && view.Utxo() == old(view.Utxo())
    ensures !isGenesis ==> ok == (scriptsOk && Accepts(old(view.Utxo()), txs, height, enforceBIP30, minDifficulty))
    ensures ok && !isGenesis ==>
              var p := ConnectChecked(old(view.Utxo()), txs, height).value; view.Utxo() == p.u && vtxundo == p.undos
    ensures view.hashBlock == if ok && (isGenesis || !fJustCheck) then hash else old(view.hashBlock)
  {
    hide CoinsViewCache.Valid, CoinsViewCache.Utxo, CoinsViewCache.Beneath;
    vtxundo := [];
    ok := CheckBlock(txs);
    if !ok {
      return;
    }
    if isGenesis {
      view.SetBestBlock(hash);
      return;
    }
    var fees;
    ok, vtxundo, fees := ConnectCoins(txs, height, enforceBIP30, view);
    if !ok {
      return;
    }
    var coinbaseOut := GetValueOut(txs[0].vout);
    var limit := GetBlockValue(height, fees, minDifficulty);
    if coinbaseOut > limit || !scriptsOk {
      return false, vtxundo;
    }
    if !fJustCheck {
      view.SetBestBlock(hash);
    }
  }

  /** The BIP 30 check and the loop over the transactions. */
  method ConnectCoins(txs: seq<Tx>, height: nat, enforceBIP30: bool, view: CoinsViewCache)
    returns (ok: bool, vtxundo: seq<seq<TxInUndo>>, fees: int)
    requires view.Valid() && !view.hasModifier && BlockOk(txs)
    modifies view`cacheCoins, view`hasModifier, view.lower`cacheCoins
    ensures view.Valid() && !view.hasModifier && view.Beneath() == old(view.Beneath())
    ensures ok == ((enforceBIP30 ==> NoneUnspent(old(view.Utxo()), txs)) &&
                   ConnectChecked(old(view.Utxo()), txs, height).Some?)
    ensures ok ==> ConnectChecked(old(view.Utxo()), txs, height) == Some(Progress(view.Utxo(), vtxundo, fees))
  {
    hide CoinsViewCache.Valid, CoinsViewCache.Utxo, CoinsViewCache.Beneath;
    vtxundo, fees := [], 0;
    if enforceBIP30 {
      ok := NoneOverwritten(txs, view);
      if !ok {
        return;
      }
    }
    ok, vtxundo, fees := ConnectAll(txs, height, view);
  }
}
