/** What a lost coinstake flag lets through. CheckInputs asks for maturity only where a flag is set
    (src/main.cpp:2130-2131), so a node that has rolled back and lost flags applies the test to
    fewer records than one that never did. */
module LostFlags {
  import opened Coins
  import opened CoinsCache
  import opened BlockCoins
  import opened Undo

  // ----- the same transactions on worn coins -----

  lemma SpendWorn(m: Utxo, out: OutPoint, gone: set<Hash>, cut: set<Hash>)
    ensures SpendInput(Worn(m, gone, cut), out) == Worn(SpendInput(m, out), gone, cut)
    ensures HaveInput(Worn(m, gone, cut), out) <==> HaveInput(m, out)
  {
    hide Trim, CutVersion;
    var w := Worn(m, gone, cut);
    if HaveInput(m, out) {
      var c' := SpendOne(m[out.hash], out.n).coins;
      assert SpendOne(w[out.hash], out.n).coins == WornRecord(c', out.hash in gone, out.hash in gone || out.hash in cut);
      assert SpendOne(w[out.hash], out.n).coins.IsPruned() <==> c'.IsPruned();
    }
    SameView(SpendInput(w, out), Worn(SpendInput(m, out), gone, cut));
  }

  lemma {:induction false} SpendFirstWorn(m: Utxo, vin: seq<OutPoint>, k: nat, gone: set<Hash>, cut: set<Hash>)
    requires k <= |vin|
    ensures SpendFirst(Worn(m, gone, cut), vin, k) == Worn(SpendFirst(m, vin, k), gone, cut)
  {
    hide SpendInput, Worn;
    if k > 0 {
      SpendFirstWorn(m, vin, k - 1, gone, cut);
      SpendWorn(SpendFirst(m, vin, k - 1), vin[k - 1], gone, cut);
    }
  }

  lemma ApplyTxWorn(m: Utxo, tx: Tx, h: nat, gone: set<Hash>, cut: set<Hash>)
    requires tx.id !in gone && tx.id !in cut
    ensures ApplyTx(Worn(m, gone, cut), tx, h) == Worn(ApplyTx(m, tx, h), gone, cut)
  {
    hide SpendFirst, CoinsOf;
    SpendFirstWorn(m, tx.vin, |tx.vin|, gone, cut);
    SameView(ApplyTx(Worn(m, gone, cut), tx, h), Worn(ApplyTx(m, tx, h), gone, cut));
  }

  lemma {:induction false} ApplyFirstWorn(m: Utxo, txs: seq<Tx>, h: nat, k: nat, gone: set<Hash>, cut: set<Hash>)
    requires k <= |txs| && forall i | 0 <= i < k :: txs[i].id !in gone && txs[i].id !in cut
    ensures ApplyFirst(Worn(m, gone, cut), txs, h, k) == Worn(ApplyFirst(m, txs, h, k), gone, cut)
  {
    hide ApplyTx, Worn;
    if k > 0 {
      ApplyFirstWorn(m, txs, h, k - 1, gone, cut);
      ApplyTxWorn(ApplyFirst(m, txs, h, k - 1), txs[k - 1], h, gone, cut);
    }
  }

  // ----- the maturity test -----

  /** The input spends a coinstake that is too young and whose flag is lost. */
  ghost predicate SpendsLostEarly(m: Utxo, out: OutPoint, h: nat, maturity: nat, gone: set<Hash>) {
    out.hash in m && m[out.hash].coinStake && out.hash in gone && h - m[out.hash].height < maturity
  }

  /** None of the inputs of `tx` does. */
  ghost predicate NoneEarly(m: Utxo, tx: Tx, h: nat, maturity: nat, gone: set<Hash>) {
    tx.IsCoinBase() || forall j | 0 <= j < |tx.vin| :: !SpendsLostEarly(m, tx.vin[j], h, maturity, gone)
  }

  lemma TxAdmittedIff(m: Utxo, tx: Tx, h: nat, maturity: nat, gone: set<Hash>, cut: set<Hash>)
    ensures TxOk(m, tx, h, maturity) <==>
            TxOk(Worn(m, gone, cut), tx, h, maturity) && NoneEarly(m, tx, h, maturity, gone)
  {
    var w := Worn(m, gone, cut);
    forall j | 0 <= j < |tx.vin|
      ensures HaveInput(w, tx.vin[j]) <==> HaveInput(m, tx.vin[j])
    {
      SpendWorn(m, tx.vin[j], gone, cut);
    }
  }

  lemma {:induction false} TxsAdmittedIff(m: Utxo, txs: seq<Tx>, h: nat, maturity: nat, gone: set<Hash>, cut: set<Hash>, k: nat)
    requires k <= |txs| && forall i | 0 <= i < k :: txs[i].id !in gone && txs[i].id !in cut
    ensures TxsOk(m, txs, h, maturity, k) <==>
            TxsOk(Worn(m, gone, cut), txs, h, maturity, k)
            && forall i | 0 <= i < k :: NoneEarly(ApplyFirst(m, txs, h, i), txs[i], h, maturity, gone)
  {
    hide ApplyFirst, TxOk, NoneEarly, Worn;
    if k > 0 {
      TxsAdmittedIff(m, txs, h, maturity, gone, cut, k - 1);
      ApplyFirstWorn(m, txs, h, k - 1, gone, cut);
      TxAdmittedIff(ApplyFirst(m, txs, h, k - 1), txs[k - 1], h, maturity, gone, cut);
    }
  }

  lemma WornInside(m: Utxo, gone: set<Hash>, cut: set<Hash>)
    ensures Worn(m, gone * m.Keys, cut * m.Keys) == Worn(m, gone, cut)
  {
    SameView(Worn(m, gone * m.Keys, cut * m.Keys), Worn(m, gone, cut));
  }

  /** A block is acceptable on the true coins exactly when it is on the worn ones and no
      transaction of it spends, too early, a coinstake whose flag is lost. So every block a
      node that never rolled back accepts is still accepted after a rollback, and the
      converse fails on exactly the blocks with such an input. */
  lemma BlockAdmittedIff(m: Utxo, txs: seq<Tx>, h: nat, maturity: nat, gone: set<Hash>, cut: set<Hash>)
    ensures BlockOk(m, txs, h, maturity) <==>
            BlockOk(Worn(m, gone, cut), txs, h, maturity)
            && forall i | 0 <= i < |txs| :: NoneEarly(ApplyFirst(m, txs, h, i), txs[i], h, maturity, gone * m.Keys)
  {
    hide ApplyFirst, TxsOk, NoneEarly, Worn;
    var g, c := gone * m.Keys, cut * m.Keys;
    WornInside(m, gone, cut);
    assert Worn(m, g, c).Keys == m.Keys by { WornKeys(m, g, c); }
    if forall i | 0 <= i < |txs| :: txs[i].id !in m {
      TxsAdmittedIff(m, txs, h, maturity, g, c, |txs|);
    }
  }

  lemma WornKeys(m: Utxo, gone: set<Hash>, cut: set<Hash>)
    ensures Worn(m, gone, cut).Keys == m.Keys
  {
  }
}
