/** Weighted sums over the unspent outputs, and how spending and adding change them. With the
    weight "amount" this is the money in circulation; with the weight "amount if paid to
    address a" it is the balance of a. */
module CoinSums {
  import opened Coins
  import opened CoinsCache
  import opened BlockCoins
  import opened Undo

  type Weight = TxOut -> int

  /** The sum over the first `k` outputs of a list, null outputs counting nothing. */
  function VoutSum(vout: seq<TxOut>, w: Weight, k: nat): int
    requires k <= |vout|
  {
    if k == 0 then 0
    else VoutSum(vout, w, k - 1) + if vout[k - 1].IsNull() then 0 else w(vout[k - 1])
  }

  function RecordSum(c: Coins, w: Weight): int { VoutSum(c.vout, w, |c.vout|) }

  /** The sum over all unspent outputs. */
  ghost function SumOf(m: Utxo, w: Weight): int {
    if m == map[] then 0
    else var t :| t in m; RecordSum(m[t], w) + SumOf(m - {t}, w)
  }

  lemma {:induction false} VoutSumPrefix(a: seq<TxOut>, b: seq<TxOut>, w: Weight, k: nat)
    requires k <= |a| && k <= |b| && forall i | 0 <= i < k :: a[i] == b[i]
    ensures VoutSum(a, w, k) == VoutSum(b, w, k)
  {
    if k > 0 {
      VoutSumPrefix(a, b, w, k - 1);
    }
  }

  /** Null outputs at the end do not count, so trimming keeps the sum. */
  lemma {:induction false} VoutSumNullTail(vout: seq<TxOut>, w: Weight, k: nat, n: nat)
    requires k <= n <= |vout| && forall i | k <= i < n :: vout[i].IsNull()
    ensures VoutSum(vout, w, n) == VoutSum(vout, w, k)
  {
    if k < n {
      VoutSumNullTail(vout, w, k, n - 1);
    }
  }

  lemma TrimKeepsSum(vout: seq<TxOut>, w: Weight)
    ensures VoutSum(Trim(vout), w, |Trim(vout)|) == VoutSum(vout, w, |vout|)
  {
    var t := Trim(vout);
    VoutSumPrefix(t, vout, w, |t|);
    VoutSumNullTail(vout, w, |t|, |vout|);
  }

  lemma {:induction false} VoutSumNullOne(vout: seq<TxOut>, w: Weight, n: nat, k: nat)
    requires n < |vout| && k <= |vout| && !vout[n].IsNull()
    ensures VoutSum(vout[n := NULL_OUT], w, k) == VoutSum(vout, w, k) - if n < k then w(vout[n]) else 0
  {
    if k > 0 {
      VoutSumNullOne(vout, w, n, k - 1);
    }
  }

  /** The sum does not depend on the order in which records are visited. */
  lemma {:induction false} SumTakesOut(m: Utxo, w: Weight, t: Hash)
    requires t in m
    ensures SumOf(m, w) == RecordSum(m[t], w) + SumOf(m - {t}, w)
    decreases |m|
  {
    var u :| u in m && SumOf(m, w) == RecordSum(m[u], w) + SumOf(m - {u}, w);
    if u != t {
      SumTakesOut(m - {u}, w, t);
      SumTakesOut(m - {t}, w, u);
      assert m - {u} - {t} == m - {t} - {u};
    }
  }

  lemma EmptyRecordSum(c: Coins, w: Weight)
    requires c.IsPruned()
    ensures RecordSum(c, w) == 0
  {
    VoutSumNullTail(c.vout, w, 0, |c.vout|);
  }

  /** Replacing one record changes the sum by the difference of the two. */
  lemma SumAfterWrite(m: Utxo, w: Weight, t: Hash, c: Coins)
    ensures SumOf(SetCoins(m, t, c), w) == SumOf(m, w) - RecordSum(At(m, t), w) + RecordSum(c, w)
  {
    if t in m {
      SumTakesOut(m, w, t);
    } else {
      assert m - {t} == m;
    }
    if c.IsPruned() {
      EmptyRecordSum(c, w);
    } else {
      SumTakesOut(m[t := c], w, t);
      assert m[t := c] - {t} == m - {t};
    }
  }

  lemma SumAfterSpend(m: Utxo, w: Weight, out: OutPoint)
    requires HaveInput(m, out)
    ensures SumOf(SpendInput(m, out), w) == SumOf(m, w) - w(m[out.hash].vout[out.n])
  {
    var c := m[out.hash];
    var nulled := c.vout[out.n := NULL_OUT];
    SumAfterWrite(m, w, out.hash, CleanedUp(c.(vout := nulled)));
    TrimKeepsSum(nulled, w);
    VoutSumNullOne(c.vout, w, out.n, |c.vout|);
  }

  /** The output an input refers to. */
  function Prevout(m: Utxo, out: OutPoint): TxOut {
    if HaveInput(m, out) then m[out.hash].vout[out.n] else NULL_OUT
  }

  /** Spending one output does not touch any other. */
  lemma SpendKeepsPrevouts(m: Utxo, out: OutPoint, other: OutPoint)
    requires HaveInput(m, out)
    ensures Prevout(SpendInput(m, out), other) == if other == out then NULL_OUT else Prevout(m, other)
  {
    SpendKeepsOthers(m, out, other);
    var c := m[out.hash];
    var nulled := c.vout[out.n := NULL_OUT];
    if other.hash == out.hash && HaveInput(SpendInput(m, out), other) {
      assert SpendInput(m, out)[other.hash].vout == Trim(nulled);
      assert Trim(nulled)[other.n] == nulled[other.n];
    }
  }

  /** What the first `k` inputs are worth, read before any of them is spent. */
  function InSum(m: Utxo, vin: seq<OutPoint>, w: Weight, k: nat): int
    requires k <= |vin|
  {
    if k == 0 then 0 else InSum(m, vin, w, k - 1) + w(Prevout(m, vin[k - 1]))
  }

  lemma {:induction false} SpendFirstKeepsPrevouts(m: Utxo, vin: seq<OutPoint>, k: nat, other: OutPoint)
    requires k <= |vin| && CanSpend(m, vin, k)
    ensures Prevout(SpendFirst(m, vin, k), other) == if NotAmong(vin, k, other) then Prevout(m, other) else NULL_OUT
  {
    hide SpendInput, HaveInput, Prevout;
    if k > 0 {
      SpendFirstKeepsPrevouts(m, vin, k - 1, other);
      SpendKeepsPrevouts(SpendFirst(m, vin, k - 1), vin[k - 1], other);
    }
  }

  /** An input still refers to the same output when its turn comes. */
  lemma PrevoutWhenSpent(m: Utxo, vin: seq<OutPoint>, k: nat)
    requires k < |vin| && CanSpend(m, vin, k + 1)
    ensures HaveInput(SpendFirst(m, vin, k), vin[k]) && HaveInput(m, vin[k])
    ensures Prevout(SpendFirst(m, vin, k), vin[k]) == Prevout(m, vin[k])
  {
    hide SpendInput, HaveInput, Prevout;
    assert CanSpend(m, vin, k);
    SpendFirstKeepsOthers(m, vin, k, vin[k]);
    SpendFirstKeepsPrevouts(m, vin, k, vin[k]);
  }

  lemma {:induction false} SumAfterSpends(m: Utxo, vin: seq<OutPoint>, w: Weight, k: nat)
    requires k <= |vin| && CanSpend(m, vin, k)
    ensures SumOf(SpendFirst(m, vin, k), w) == SumOf(m, w) - InSum(m, vin, w, k)
  {
    hide SpendInput, HaveInput, SumOf;
    if k > 0 {
      SumAfterSpends(m, vin, w, k - 1);
      PrevoutWhenSpent(m, vin, k - 1);
      SumAfterSpend(SpendFirst(m, vin, k - 1), w, vin[k - 1]);
    }
  }

  /** What the first `k` outputs of a transaction are worth; provably unspendable ones never
      enter the coins. */
  function OutSum(tx: Tx, w: Weight, k: nat): int
    requires k <= |tx.vout|
  {
    if k == 0 then 0
    else OutSum(tx, w, k - 1) + if tx.vout[k - 1].IsUnspendable() then 0 else w(tx.vout[k - 1])
  }

  lemma {:induction false} NullUnspendableSum(tx: Tx, w: Weight, k: nat)
    requires k <= |tx.vout| && OutputsOk(tx)
    ensures VoutSum(NullUnspendable(tx.vout), w, k) == OutSum(tx, w, k)
  {
    if k > 0 {
      NullUnspendableSum(tx, w, k - 1);
    }
  }

  /** A transaction moves the sum by what it creates less what it spends. */
  lemma SumAfterTx(m: Utxo, tx: Tx, h: nat, w: Weight)
    requires TxReady(m, tx) && WellFormed(m)
    ensures SumOf(ApplyTx(m, tx, h), w)
              == SumOf(m, w) - (if tx.IsCoinBase() then 0 else InSum(m, tx.vin, w, |tx.vin|)) + OutSum(tx, w, |tx.vout|)
  {
    hide SumOf, SetCoins, SpendFirst;
    var m1 := if tx.IsCoinBase() then m else SpendFirst(m, tx.vin, |tx.vin|);
    if !tx.IsCoinBase() {
      SumAfterSpends(m, tx.vin, w, |tx.vin|);
      SpendFirstKeepsWellFormed(m, tx.vin, |tx.vin|);
    }
    SumAfterWrite(m1, w, tx.id, CoinsOf(tx, h));
    NullUnspendableSum(tx, w, |tx.vout|);
    TrimKeepsSum(NullUnspendable(tx.vout), w);
    assert RecordSum(At(m1, tx.id), w) == 0;
  }
}
