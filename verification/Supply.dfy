/**
 * How much value the UTXO set can hold: no accepted block raises the total by more than its
 * subsidy, and the subsidies of all 32-bit heights add up to less than MAX_MONEY.
 */
module Supply {
  import opened Coins
  import opened UtxoSet
  import opened BlockRules

  // ---------- the value of one record ----------

  function Worth(o: TxOut): int {
    if o.IsNull() then 0 else o.value
  }

  /** Value of the unspent outputs. */
  function Unspent(vout: seq<TxOut>): int {
    if vout == [] then 0 else Unspent(vout[..|vout| - 1]) + Worth(vout[|vout| - 1])
  }

  lemma {:induction false} UnspentUpdate(vout: seq<TxOut>, n: nat, o: TxOut)
    requires n < |vout|
    ensures Unspent(vout[n := o]) == Unspent(vout) - Worth(vout[n]) + Worth(o)
  {
    var last := |vout| - 1;
    if n < last {
      UnspentUpdate(vout[..last], n, o);
      assert vout[n := o][..last] == vout[..last][n := o];
    } else {
      assert vout[n := o][..last] == vout[..last];
    }
  }

  lemma {:induction false} UnspentTrim(vout: seq<TxOut>)
    ensures Unspent(Trim(vout)) == Unspent(vout)
  {
    if vout != [] && vout[|vout| - 1].IsNull() {
      UnspentTrim(vout[..|vout| - 1]);
    }
  }

  /** What a transaction sends to outputs that can never be spent. */
  function Burnt(vout: seq<TxOut>): int {
    if vout == [] then 0
    else
      var o := vout[|vout| - 1];
      Burnt(vout[..|vout| - 1]) + if |o.script| > 0 && o.script[0] == 0x6a then o.value else 0
  }

  lemma {:induction false} UnspentSpendable(vout: seq<TxOut>)
    requires forall i | 0 <= i < |vout| :: vout[i].value >= 0
    ensures 0 <= Unspent(Spendable(vout)) == ValueOut(vout) - Burnt(vout) <= ValueOut(vout)
  {
    if vout != [] {
      var front := vout[..|vout| - 1];
      UnspentSpendable(front);
      assert Spendable(vout)[..|vout| - 1] == Spendable(front);
    }
  }

  /** No unspent output has negative value. */
  ghost predicate Solvent(u: UtxoMap) {
    forall t, i | t in u && 0 <= i < |u[t].vout| :: Worth(u[t].vout[i]) >= 0
  }

  lemma {:induction false} UnspentNonNegative(vout: seq<TxOut>)
    requires forall i | 0 <= i < |vout| :: Worth(vout[i]) >= 0
    ensures Unspent(vout) >= 0
  {
    if vout != [] {
      UnspentNonNegative(vout[..|vout| - 1]);
    }
  }

  lemma {:induction false} PrunedIsWorthless(vout: seq<TxOut>)
    requires forall i | 0 <= i < |vout| :: vout[i].IsNull()
    ensures Unspent(vout) == 0
  {
    if vout != [] {
      PrunedIsWorthless(vout[..|vout| - 1]);
    }
  }

  // ---------- the value of the set ----------

  /** Total value of the unspent outputs, whatever order they are added up in. */
  ghost function Total(u: UtxoMap): int {
    if u == map[] then 0 else
      var t :| t in u;
      Unspent(u[t].vout) + Total(u - {t})
  }

  lemma {:induction false} TotalWithout(u: UtxoMap, t: Txid)
    requires t in u
    ensures Total(u) == Unspent(u[t].vout) + Total(u - {t})
    decreases |u|
  {
    var s :| s in u && Total(u) == Unspent(u[s].vout) + Total(u - {s});
    if s != t {
      TotalWithout(u - {s}, t);
      TotalWithout(u - {t}, s);
      assert u - {s} - {t} == u - {t} - {s};
    }
  }

  lemma {:induction false} TotalPut(u: UtxoMap, t: Txid, c: Coins)
    ensures Total(Put(u, t, c)) == Total(u) - Unspent(Get(u, t).vout) + Unspent(c.vout)
  {
    if t in u {
      TotalWithout(u, t);
    } else {
      assert u - {t} == u;
    }
    if c.IsPruned() {
      PrunedIsWorthless(c.vout);
    } else {
      TotalWithout(u[t := c], t);
      assert u[t := c] - {t} == u - {t};
    }
  }

  lemma {:induction false} TotalNonNegative(u: UtxoMap)
    requires Solvent(u)
    ensures Total(u) >= 0
    decreases |u|
  {
    if u != map[] {
      var t :| t in u && Total(u) == Unspent(u[t].vout) + Total(u - {t});
      UnspentNonNegative(u[t].vout);
      TotalNonNegative(u - {t});
    }
  }

  // ---------- one transaction ----------

  lemma {:induction false} SpendInputTotal(u: UtxoMap, out: OutPoint)
    requires SpendInput(u, out).Some?
    ensures Total(SpendInput(u, out).value.0) == Total(u) - InputValue(u, out)
  {
    var c := Get(u, out.hash);
    var left := SpendOutput(c, out.n).value.0;
    TotalPut(u, out.hash, left);
    UnspentTrim(c.vout[out.n := NULL_OUT]);
    UnspentUpdate(c.vout, out.n, NULL_OUT);
  }

  lemma {:induction false} SpendInputSolvent(u: UtxoMap, out: OutPoint)
    requires SpendInput(u, out).Some? && Solvent(u)
    ensures Solvent(SpendInput(u, out).value.0)
  {
    var c := Get(u, out.hash);
    var left := SpendOutput(c, out.n).value.0;
    forall i | 0 <= i < |left.vout|
      ensures Worth(left.vout[i]) >= 0
    {
      assert left.vout[i] == c.vout[out.n := NULL_OUT][i];
      assert i != out.n ==> left.vout[i] == c.vout[i];
    }
  }

  /** Spending one output does not change what another one is worth. */
  lemma {:induction false} SpendInputOthers(u: UtxoMap, out: OutPoint, other: OutPoint)
    requires SpendInput(u, out).Some? && other != out
    ensures InputValue(SpendInput(u, out).value.0, other) == InputValue(u, other)
  {
    SpendInputAvailability(u, out, other);
    var c := u[out.hash];
    var left := SpendOutput(c, out.n).value.0;
    if other.hash == out.hash && other.n < |left.vout| {
      assert left.vout[other.n] == c.vout[out.n := NULL_OUT][other.n];
    }
  }

  lemma {:induction false} SpendInputsOthers(u: UtxoMap, vin: seq<OutPoint>, other: OutPoint)
    requires SpendInputs(u, vin).Some? && other !in vin
    ensures InputValue(SpendInputs(u, vin).value.0, other) == InputValue(u, other)
  {
    if vin != [] {
      var front := vin[..|vin| - 1];
      SpendInputsOthers(u, front, other);
      SpendInputOthers(SpendInputs(u, front).value.0, vin[|vin| - 1], other);
    }
  }

  /** Spending distinct inputs lowers the total by the sum computed before spending them. */
  lemma {:induction false} SpendInputsTotal(u: UtxoMap, vin: seq<OutPoint>)
    requires SpendInputs(u, vin).Some? && Solvent(u)
    ensures var u' := SpendInputs(u, vin).value.0; Total(u') == Total(u) - ValueIn(u, vin) && Solvent(u')
  {
    if vin != [] {
      var front := vin[..|vin| - 1];
      var last := vin[|vin| - 1];
      SpendInputsTotal(u, front);
      var u1 := SpendInputs(u, front).value.0;
      SpendsSucceedExactly(u, vin);
      assert last !in front by {
        assert vin == front + [last];
        DistinctInputsSnoc(front, last);
      }
      SpendInputsOthers(u, front, last);
      SpendInputTotal(u1, last);
      SpendInputSolvent(u1, last);
    }
  }

  lemma {:induction false} AddOutputsTotal(u: UtxoMap, tx: Tx, height: int)
    requires Solvent(u) && OutputsNonNegative(tx)
    ensures var u' := Put(u, tx.hash, FromTx(tx, height));
            && Total(u') == Total(u) + ValueOut(tx.vout) - Burnt(tx.vout) - Unspent(Get(u, tx.hash).vout)
            && Total(u') <= Total(u) + ValueOut(tx.vout) && Solvent(u')
  {
    var c := FromTx(tx, height);
    var s := Spendable(tx.vout);
    TotalPut(u, tx.hash, c);
    UnspentTrim(s);
    UnspentSpendable(tx.vout);
    UnspentNonNegative(Get(u, tx.hash).vout);
    forall i | 0 <= i < |c.vout|
      ensures Worth(c.vout[i]) >= 0
    {
      assert c.vout[i] == s[i] == DropUnspendable(tx.vout[i]);
    }
  }

  /** One round of the ConnectBlock loop: what the total loses, the fees may gain. */
  lemma {:induction false} ConnectNextTotal(p: Progress, tx: Tx, n: nat, height: int)
    requires Solvent(p.u) && TxOk(tx) && ConnectNext(p, tx, n, height).Some?
    ensures var q := ConnectNext(p, tx, n, height).value;
            && Solvent(q.u)
            && p.fees <= q.fees
            && Total(q.u) + q.fees <= Total(p.u) + p.fees + if tx.IsCoinBase() then ValueOut(tx.vout) else 0
  {
    if tx.IsCoinBase() {
      AddOutputsTotal(p.u, tx, height);
    } else {
      SpendInputsTotal(p.u, tx.vin);
      AddOutputsTotal(SpendInputs(p.u, tx.vin).value.0, tx, height);
    }
  }

  // ---------- one block ----------

  lemma {:induction false} ConnectCheckedTotal(u: UtxoMap, txs: seq<Tx>, height: int)
    requires Solvent(u) && ConnectChecked(u, txs, height).Some?
    requires forall i | 0 <= i < |txs| :: TxOk(txs[i]) && (i > 0 ==> !txs[i].IsCoinBase())
    ensures var p := ConnectChecked(u, txs, height).value;
            && Solvent(p.u)
            && 0 <= p.fees
            && Total(p.u) + p.fees <= Total(u) + if txs == [] then 0 else ValueOut(txs[0].vout)
  {
    if txs != [] {
      var n := |txs| - 1;
      var front := txs[..n];
      assert forall i | 0 <= i < n :: front[i] == txs[i];
      ConnectCheckedTotal(u, front, height);
      ConnectNextTotal(ConnectChecked(u, front, height).value, txs[n], n, height);
      ValueOutInRange(txs[0]);
    }
  }

  /** Value is conserved: an accepted block raises the total by at most its subsidy. */
  lemma {:induction false} BlockConservesValue(u: UtxoMap, txs: seq<Tx>, height: nat, enforceBIP30: bool,
                                               minDifficulty: bool)
    requires Solvent(u) && Accepts(u, txs, height, enforceBIP30, minDifficulty)
    ensures var p := ConnectChecked(u, txs, height).value;
            Solvent(p.u) && Total(p.u) <= Total(u) + Subsidy(height, minDifficulty)
  {
    ConnectCheckedTotal(u, txs, height);
  }

  ghost function AllBurnt(txs: seq<Tx>): int {
    if txs == [] then 0 else AllBurnt(txs[..|txs| - 1]) + Burnt(txs[|txs| - 1].vout)
  }

  lemma {:induction false} ConnectNextBalance(p: Progress, tx: Tx, n: nat, height: int)
    requires Solvent(p.u) && TxOk(tx) && ConnectNext(p, tx, n, height).Some? && tx.hash !in p.u
    ensures var q := ConnectNext(p, tx, n, height).value;
            Total(q.u) + q.fees + Burnt(tx.vout) ==
            Total(p.u) + p.fees + if tx.IsCoinBase() then ValueOut(tx.vout) else 0
  {
    hide FromTx, Total, ValueIn, ValueOut, Burnt, TxOk;
    TxOutputs(tx);
    if tx.IsCoinBase() {
      AddOutputsTotal(p.u, tx, height);
    } else {
      SpendInputsTotal(p.u, tx.vin);
      SpendInputsShrinksKeys(p.u, tx.vin);
      AddOutputsTotal(SpendInputs(p.u, tx.vin).value.0, tx, height);
    }
  }

  lemma {:induction false} TxOutputs(tx: Tx)
    requires TxOk(tx)
    ensures OutputsNonNegative(tx)
  {}

  /**
   * To the last coin: what a block adds to the set is what its coinbase pays, less the fees, less
   * what is burnt.
   */
  lemma {:induction false} BlockBalance(u: UtxoMap, txs: seq<Tx>, height: int)
    requires Solvent(u) && BlockShape(u, txs) && BlockOk(txs) && ConnectChecked(u, txs, height).Some?
    ensures var p := ConnectChecked(u, txs, height).value;
            Total(p.u) == Total(u) + ValueOut(txs[0].vout) - p.fees - AllBurnt(txs)
  {
    hide ConnectNext, Total, ValueOut, Burnt, Solvent;
    var n := |txs| - 1;
    var front := txs[..n];
    var p := ConnectChecked(u, front, height).value;
    assert forall i | 0 <= i < n :: front[i] == txs[i];
    ConnectCheckedTotal(u, front, height);
    ConnectCheckedConnects(u, front, height);
    ConnectCheckedConnects(u, txs, height);
    LastTxidIsNew(u, txs, height);
    ConnectNextBalance(p, txs[n], n, height);
    if n > 0 {
      BlockShapePrefix(u, txs);
      BlockBalance(u, front, height);
    } else {
      assert AllBurnt(front) == 0;
    }
  }

  const INT64_MAX: int := 0x7FFF_FFFF_FFFF_FFFF

  /**
   * While a block is being connected, accepted or not, neither the running fee total nor the
   * value-in sum just before it is range-checked leaves the 64-bit range.
   */
  lemma {:induction false} FeesFitInt64(u: UtxoMap, txs: seq<Tx>, height: int, k: nat)
    requires Solvent(u) && Total(u) <= MAX_MONEY && BlockOk(txs) && k < |txs|
    requires ConnectChecked(u, txs[..k], height).Some?
    requires HaveInputs(ConnectChecked(u, txs[..k], height).value.u, txs[k].vin)
    ensures var p := ConnectChecked(u, txs[..k], height).value;
            && 0 <= p.fees <= 2 * MAX_MONEY
            && 0 <= ValueIn(p.u, txs[k].vin) <= 2 * MAX_MONEY
            && -INT64_MAX <= p.fees + ValueIn(p.u, txs[k].vin) - ValueOut(txs[k].vout) <= INT64_MAX
  {
    var front := txs[..k];
    assert forall i | 0 <= i < k :: front[i] == txs[i];
    ConnectCheckedTotal(u, front, height);
    var p := ConnectChecked(u, front, height).value;
    ValueOutInRange(txs[0]);
    ValueOutInRange(txs[k]);
    SpendsSucceedExactly(p.u, txs[k].vin);
    SpendInputsTotal(p.u, txs[k].vin);
    TotalNonNegative(SpendInputs(p.u, txs[k].vin).value.0);
    TotalNonNegative(p.u);
    ValueInNonNegative(p.u, txs[k].vin);
  }

  lemma {:induction false} ValueInNonNegative(u: UtxoMap, vin: seq<OutPoint>)
    requires Solvent(u)
    ensures ValueIn(u, vin) >= 0
  {
    if vin != [] {
      ValueInNonNegative(u, vin[..|vin| - 1]);
      var out := vin[|vin| - 1];
      if Available(u, out) {
        assert Worth(u[out.hash].vout[out.n]) >= 0;
      }
    }
  }

  // ---------- all blocks ----------

  /** Sum of the mainnet subsidies of heights 1 to n. */
  function Issued(n: nat): int {
    if n == 0 then 0 else Issued(n - 1) + Subsidy(n, false)
  }

  /** The schedule of mainnet, in the smallest units: 100000000 of them are a coin. */
  lemma {:induction false} Schedule(height: nat)
    ensures Subsidy(height, false) ==
            if height == 68425 then 1_000_000_000
            else if height < 69791 then 5_000_000_000
            else if height < 210000 then 1_000_000_000
            else if height < 420000 then 500_000_000
            else if height < 630000 then 250_000_000
            else if height < 840000 then 125_000_000
            else if height < 951753 then 62_500_000
            else 150_000_000
  {
    if height < 951753 {
      var eras := height / 210000;
      assert eras <= 4;
      var full := if height == 68425 || height >= 69791 then 1_000_000_000 else 5_000_000_000;
      Halvings(full, eras);
    }
  }

  lemma {:induction false} Halvings(value: nat, k: nat)
    requires k <= 4
    ensures ShiftRight(value, k) ==
            if k == 0 then value else if k == 1 then value / 2 else if k == 2 then value / 2 / 2
            else if k == 3 then value / 2 / 2 / 2 else value / 2 / 2 / 2 / 2
  {
    if k > 0 {
      Halvings(value / 2, k - 1);
    }
  }

  /** The schedule of the test networks. */
  lemma {:induction false} TestSchedule(height: nat)
    ensures Subsidy(height, true) ==
            if height == 205 then 900_000_000 else if height < 350 then 5_000_000_000 else 1_000_000_000
  {}

  /** From a height on, as long as the subsidy is the same. */
  lemma {:induction false} IssuedRun(from: nat, n: nat, each: int)
    requires from <= n && forall h: nat | from < h <= n :: Subsidy(h, false) == each
    ensures Issued(n) == Issued(from) + each * (n - from)
  {
    hide Subsidy;
    if from < n {
      IssuedRun(from, n - 1, each);
    }
  }

  /**
   * What has been issued by the end of each era. The last block before 69791 and the one at 68425 end
   * two short eras of their own.
   */
  lemma {:induction false} IssuedByEra()
    ensures Issued(69790) == 348_946_000_000_000
    ensures Issued(209999) == 489_155_000_000_000
    ensures Issued(419999) == 594_155_000_000_000
    ensures Issued(629999) == 646_655_000_000_000
    ensures Issued(839999) == 672_905_000_000_000
    ensures Issued(951752) == 679_889_562_500_000
    ensures forall n: nat | n >= 951752 :: Issued(n) == 679_889_562_500_000 + 150_000_000 * (n - 951752)
  {
    hide Subsidy, Issued;
    forall h: nat
      ensures Subsidy(h, false) ==
              if h == 68425 then 1_000_000_000
              else if h < 69791 then 5_000_000_000
              else if h < 210000 then 1_000_000_000
              else if h < 420000 then 500_000_000
              else if h < 630000 then 250_000_000
              else if h < 840000 then 125_000_000
              else if h < 951753 then 62_500_000
              else 150_000_000
    {
      Schedule(h);
    }
    IssuedNothing();
    IssuedRun(0, 68424, 5_000_000_000);
    IssuedRun(68424, 68425, 1_000_000_000);
    IssuedRun(68425, 69790, 5_000_000_000);
    IssuedRun(69790, 209999, 1_000_000_000);
    IssuedRun(209999, 419999, 500_000_000);
    IssuedRun(419999, 629999, 250_000_000);
    IssuedRun(629999, 839999, 125_000_000);
    IssuedRun(839999, 951752, 62_500_000);
    forall n: nat | n >= 951752
      ensures Issued(n) == 679_889_562_500_000 + 150_000_000 * (n - 951752)
    {
      IssuedRun(951752, n, 150_000_000);
    }
  }

  lemma {:induction false} IssuedNothing()
    ensures Issued(0) == 0
  {}

  lemma {:induction false} SubsidyBound(height: nat)
    ensures 0 < Subsidy(height, false) <= if height <= 951752 then 5_000_000_000 else 150_000_000
  {
    Schedule(height);
  }

  lemma {:induction false} IssuedBound(n: nat)
    ensures 0 <= Issued(n) <= 5_000_000_000 * (if n <= 951752 then n else 951752) + 150_000_000 * n
  {
    if n > 0 {
      hide Subsidy;
      IssuedBound(n - 1);
      SubsidyBound(n);
    }
  }

  /** Every height a 32-bit signed integer can hold keeps the supply below MAX_MONEY. */
  lemma {:induction false} SupplyBelowMaxMoney(n: nat)
    requires n <= 0x7FFF_FFFF
    ensures Issued(n) < MAX_MONEY
  {
    hide Issued;
    IssuedBound(n);
    assert MAX_MONEY == 1_000_000_000_000_000_000;
  }
}
