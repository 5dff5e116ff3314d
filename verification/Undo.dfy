/** Disconnecting undoes connecting: for inputs, transactions, blocks and whole chains.

    Two things are not brought back. Spend saves the coinstake flag (src/coins.cpp:47) but
    DisconnectBlock restores only coinbase flag, height and version
    (src/main.cpp:2324-2326), so records whose last output was spent come back without it.
    And a version that has been on disk, in the undo file or in the coin database, has lost
    all but seven bits if it was negative. `Worn` names exactly these differences. */
module Undo {
  import opened Coins
  import opened CoinsCache
  import opened BlockCoins

  /** One record whose coinstake flag is lost, whose version is cut, or both. */
  function WornRecord(c: Coins, gone: bool, cut: bool): Coins {
    c.(coinStake := c.coinStake && !gone, version := if cut then CutVersion(c.version) else c.version)
  }

  /** `m` after the records in `gone` were emptied and restored, and those in `cut` were read
      back from the database. */
  ghost function Worn(m: Utxo, gone: set<Hash>, cut: set<Hash>): Utxo {
    map t | t in m :: WornRecord(m[t], t in gone, t in gone || t in cut)
  }

  /** Records of `before` that are no longer live in `after`. */
  ghost function Gone(before: Utxo, after: Utxo): set<Hash> {
    before.Keys - after.Keys
  }

  // ----- one input -----

  lemma SpendKeepsWellFormed(m: Utxo, out: OutPoint)
    requires WellFormed(m) && HaveInput(m, out)
    ensures WellFormed(SpendInput(m, out)) && SpendInput(m, out).Keys <= m.Keys
  {
    var c := m[out.hash];
    var c' := CleanedUp(c.(vout := c.vout[out.n := NULL_OUT]));
    TrimmedPrunedIffEmpty(c');
  }

  /** Growing the trimmed outputs back and putting the output in place gives the original list. */
  lemma OutputRestores(c: Coins, n: nat)
    requires Trimmed(c.vout) && CanonicalNulls(c.vout) && c.IsAvailable(n)
    ensures PutOutput(Trim(c.vout[n := NULL_OUT]), n, c.vout[n]) == c.vout
  {
    hide Trim;
    var nulled := c.vout[n := NULL_OUT];
    if n == |c.vout| - 1 {
      LastOutputRestores(c, Trim(nulled));
    } else {
      TrimUnique(nulled, nulled);
    }
  }

  lemma LastOutputRestores(c: Coins, t: seq<TxOut>)
    requires CanonicalNulls(c.vout) && c.vout != [] && c.IsAvailable(|c.vout| - 1)
    requires var nulled := c.vout[|c.vout| - 1 := NULL_OUT];
             Trimmed(t) && |t| <= |nulled| && t == nulled[..|t|] && forall i | |t| <= i < |nulled| :: nulled[i].IsNull()
    ensures PutOutput(t, |c.vout| - 1, c.vout[|c.vout| - 1]) == c.vout
  {
    var n := |c.vout| - 1;
    var nulled := c.vout[n := NULL_OUT];
    var r := PutOutput(t, n, c.vout[n]);
    assert |t| <= n && |r| == |c.vout|;
    forall i | 0 <= i < n
      ensures r[i] == c.vout[i]
    {
      assert i >= |t| ==> nulled[i].IsNull();
    }
  }

  /** Undo of the spend that emptied a record: everything but the coinstake flag and what the
      undo file keeps of the version. */
  lemma RestoreEmptied(c: Coins, n: nat, found: Coins)
    requires Trimmed(c.vout) && CanonicalNulls(c.vout) && c.IsAvailable(n) && c.height >= 1
    requires SpendOne(c, n).coins.IsPruned() && found.IsPruned()
    ensures RestoreRecord(found, n, StoredUndo(SpendOne(c, n).undo)) == (WornRecord(c, true, true), true)
  {
    var nulled := c.vout[n := NULL_OUT];
    TrimmedPrunedIffEmpty(CleanedUp(c.(vout := nulled)));
    OutputRestores(c, n);
    TrimUnique(c.vout, c.vout);
  }

  /** Undo of any other spend: the record is as before, whatever became of flag and version. */
  lemma RestorePartial(c: Coins, n: nat, gone: bool, cut: bool)
    requires Trimmed(c.vout) && CanonicalNulls(c.vout) && c.IsAvailable(n)
    requires !SpendOne(c, n).coins.IsPruned()
    ensures RestoreRecord(WornRecord(SpendOne(c, n).coins, gone, cut), n, StoredUndo(SpendOne(c, n).undo))
              == (WornRecord(c, gone, cut), true)
  {
    hide Trim, PutOutput, CutVersion, Trimmed, CanonicalNulls;
    var c' := SpendOne(c, n).coins;
    TrimmedPrunedIffEmpty(c');
    OutputRestores(c, n);
    TrimUnique(c.vout, c.vout);
    assert n < |c'.vout| ==> c'.vout[n] == NULL_OUT;
    assert !WornRecord(c', gone, cut).IsPruned();
  }

  lemma PutBack(m: Utxo, t: Hash, c': Coins, gone: set<Hash>, cut: set<Hash>)
    requires t in m && !m[t].IsPruned()
    ensures var m', lost := SetCoins(m, t, c'), t in gone || c'.IsPruned();
            SetCoins(Worn(m', gone, cut), t, WornRecord(m[t], lost, lost || t in cut)) == Worn(m, gone + Gone(m, m'), cut)
  {
    var m', lost := SetCoins(m, t, c'), t in gone || c'.IsPruned();
    var r := WornRecord(m[t], lost, lost || t in cut);
    assert !r.IsPruned();
    SameView(SetCoins(Worn(m', gone, cut), t, r), Worn(m, gone + Gone(m, m'), cut));
  }

  lemma RestoreAfterSpend(m: Utxo, out: OutPoint, gone: set<Hash>, cut: set<Hash>)
    requires WellFormed(m) && HaveInput(m, out)
    ensures var m' := SpendInput(m, out);
            RestoreInput(Worn(m', gone, cut), out, StoredUndo(InputUndo(m, out)))
              == (Worn(m, gone + Gone(m, m'), cut), true)
  {
    hide Trim, PutOutput;
    var c := m[out.hash];
    var c' := SpendOne(c, out.n).coins;
    PutBack(m, out.hash, c', gone, cut);
    var v := Worn(SetCoins(m, out.hash, c'), gone, cut);
    if c'.IsPruned() {
      RestoreEmptied(c, out.n, At(v, out.hash));
    } else {
      RestorePartial(c, out.n, out.hash in gone, out.hash in gone || out.hash in cut);
    }
  }

  // ----- the inputs of a transaction -----

  lemma {:induction false} SpendFirstKeepsWellFormed(m: Utxo, vin: seq<OutPoint>, k: nat)
    requires WellFormed(m) && k <= |vin| && CanSpend(m, vin, k)
    ensures WellFormed(SpendFirst(m, vin, k)) && SpendFirst(m, vin, k).Keys <= m.Keys
  {
    hide SpendInput, WellFormed;
    if k > 0 {
      SpendFirstKeepsWellFormed(m, vin, k - 1);
      SpendKeepsWellFormed(SpendFirst(m, vin, k - 1), vin[k - 1]);
    }
  }

  lemma RestoreOneMore(v: Utxo, vin: seq<OutPoint>, undos: seq<TxInUndo>, k: nat)
    requires 0 < k <= |vin| == |undos|
    ensures var (v1, ok1) := RestoreInput(v, vin[k - 1], undos[k - 1]);
            var (v2, ok2) := RestoreFirst(v1, vin, undos, k - 1);
            RestoreFirst(v, vin, undos, k) == (v2, ok1 && ok2)
  {
  }

  /** One input back, in a state `v` that is `m'` with the wear of `gone` and `cut`. */
  lemma RestoreStep(m1: Utxo, m': Utxo, out: OutPoint, v: Utxo, gone: set<Hash>, gone1: set<Hash>, cut: set<Hash>)
    requires WellFormed(m1) && HaveInput(m1, out) && m' == SpendInput(m1, out)
    requires v == Worn(m', gone, cut) && gone1 == gone + Gone(m1, m')
    ensures RestoreInput(v, out, StoredUndo(InputUndo(m1, out))) == (Worn(m1, gone1, cut), true)
  {
    RestoreAfterSpend(m1, out, gone, cut);
  }

  /** `undos` is what the first `k` spends recorded, read back from disk. */
  ghost predicate Recorded(m: Utxo, vin: seq<OutPoint>, undos: seq<TxInUndo>, k: nat)
    requires k <= |vin| == |undos|
  {
    k == 0 ||
    (Recorded(m, vin, undos, k - 1) && undos[k - 1] == StoredUndo(InputUndo(SpendFirst(m, vin, k - 1), vin[k - 1])))
  }

  lemma {:induction false} TxUndoRecorded(m: Utxo, tx: Tx, k: nat)
    requires !tx.IsCoinBase() && k <= |tx.vin|
    ensures Recorded(m, tx.vin, ReadTx(TxUndo(m, tx)), k)
  {
    hide SpendInput, InputUndo;
    if k > 0 {
      TxUndoRecorded(m, tx, k - 1);
    }
  }

  lemma SpendFacts(m: Utxo, vin: seq<OutPoint>, k: nat)
    requires WellFormed(m) && 0 < k <= |vin| && CanSpend(m, vin, k)
    ensures var m1, m' := SpendFirst(m, vin, k - 1), SpendFirst(m, vin, k);
            && CanSpend(m, vin, k - 1) && HaveInput(m1, vin[k - 1]) && m' == SpendInput(m1, vin[k - 1])
            && WellFormed(m1) && m'.Keys <= m1.Keys <= m.Keys
  {
    hide SpendInput, WellFormed, HaveInput;
    SpendFirstKeepsWellFormed(m, vin, k - 1);
    SpendKeepsWellFormed(SpendFirst(m, vin, k - 1), vin[k - 1]);
  }

  lemma GoneCompose(m: Utxo, m1: Utxo, m': Utxo, gone: set<Hash>)
    requires m'.Keys <= m1.Keys <= m.Keys
    ensures gone + Gone(m, m') == gone + Gone(m1, m') + Gone(m, m1)
  {
  }

  lemma {:induction false} RestoreFirstUndoes(m: Utxo, vin: seq<OutPoint>, undos: seq<TxInUndo>, k: nat,
                                             v: Utxo, gone: set<Hash>, gone': set<Hash>, cut: set<Hash>)
    requires WellFormed(m) && k <= |vin| == |undos| && CanSpend(m, vin, k) && Recorded(m, vin, undos, k)
    requires v == Worn(SpendFirst(m, vin, k), gone, cut)
    requires gone' == gone + Gone(m, SpendFirst(m, vin, k))
    ensures RestoreFirst(v, vin, undos, k) == (Worn(m, gone', cut), true)
  {
    hide SpendInput, RestoreInput, Worn, WellFormed, HaveInput, InputUndo;
    var m' := SpendFirst(m, vin, k);
    if k == 0 {
      assert gone' == gone;
    } else {
      var m1 := SpendFirst(m, vin, k - 1);
      var gone1 := gone + Gone(m1, m');
      SpendFacts(m, vin, k);
      RestoreStep(m1, m', vin[k - 1], v, gone, gone1, cut);
      GoneCompose(m, m1, m', gone);
      RestoreFirstUndoes(m, vin, undos, k - 1, Worn(m1, gone1, cut), gone1, gone', cut);
      RestoreOneMore(v, vin, undos, k);
    }
  }

  // ----- one transaction -----

  /** What has been checked about a transaction when it is applied. */
  ghost predicate TxReady(m: Utxo, tx: Tx) {
    && tx.id !in m && OutputsOk(tx)
    && (tx.IsCoinBase() || CanSpend(m, tx.vin, |tx.vin|))
  }

  lemma CoinsOfWellFormed(tx: Tx, h: nat)
    requires OutputsOk(tx)
    ensures Trimmed(CoinsOf(tx, h).vout) && CanonicalNulls(CoinsOf(tx, h).vout)
    ensures tx.IsCoinStake() ==> !CoinsOf(tx, h).IsPruned()
  {
    var nulled := NullUnspendable(tx.vout);
    var v := Trim(nulled);
    if tx.IsCoinStake() {
      assert !nulled[0].IsNull();
      assert !v[0].IsNull();
    }
  }

  lemma ApplyTxKeepsWellFormed(m: Utxo, tx: Tx, h: nat)
    requires WellFormed(m) && TxReady(m, tx) && h >= 1
    ensures WellFormed(ApplyTx(m, tx, h))
    ensures ApplyTx(m, tx, h).Keys <= m.Keys + {tx.id}
    ensures tx.IsCoinStake() ==> tx.id in ApplyTx(m, tx, h)
  {
    CoinsOfWellFormed(tx, h);
    if !tx.IsCoinBase() {
      SpendFirstKeepsWellFormed(m, tx.vin, |tx.vin|);
    }
  }

  /** Taking the outputs out again finds them as the block has them, unless the coinstake flag
      of this very transaction had been lost. A version cut on disk does not show: the
      comparison takes over a negative version of the block (src/main.cpp:2301-2302), and any
      other is kept. */
  lemma RemoveAfterAdd(m1: Utxo, tx: Tx, h: nat, gone: set<Hash>, cut: set<Hash>)
    requires tx.id !in m1 && OutputsOk(tx)
    ensures var m' := SetCoins(m1, tx.id, CoinsOf(tx, h));
            RemoveTx(Worn(m', gone, cut), tx, h)
              == (Worn(m1, gone, cut), !(tx.IsCoinStake() && tx.id in gone))
  {
    hide CoinsOf, WithoutUnspendable, CutVersion;
    var m' := SetCoins(m1, tx.id, CoinsOf(tx, h));
    WornCompares(tx, h, tx.id in gone, tx.id in gone || tx.id in cut);
    NothingLeftCompares(tx, h);
    SameView(Worn(m', gone, cut) - {tx.id}, Worn(m1, gone, cut));
  }

  /** The record of a transaction, worn, compared with what the block says it should be. */
  lemma WornCompares(tx: Tx, h: nat, gone: bool, cut: bool)
    requires OutputsOk(tx) && (gone ==> cut)
    ensures var b := CoinsOf(tx, h);
            var found := WithoutUnspendable(WornRecord(b, gone, cut));
            && (found.IsPruned() <==> b.IsPruned())
            && (if b.version < 0 then found.(version := b.version) else found).SameAs(b) == !(tx.IsCoinStake() && gone)
  {
    hide Trim, NullUnspendable;
    var b := CoinsOf(tx, h);
    CoinsOfWellFormed(tx, h);
    WithoutUnspendableIdempotent(Coins(tx.IsCoinBase(), tx.IsCoinStake(), tx.vout, h, tx.version));
    assert WithoutUnspendable(b) == b;
    assert WithoutUnspendable(WornRecord(b, gone, cut)) == WornRecord(b, gone, cut);
  }

  /** A record without outputs is not kept, and a missing one compares like it. */
  lemma NothingLeftCompares(tx: Tx, h: nat)
    ensures var b := CoinsOf(tx, h);
            var found := WithoutUnspendable(EMPTY_COINS);
            b.IsPruned() ==> (if b.version < 0 then found.(version := b.version) else found).SameAs(b)
  {
    hide CoinsOf;
    assert NullUnspendable([]) == [];
  }

  lemma DisconnectTxUndoes(m: Utxo, tx: Tx, h: nat, v: Utxo, gone: set<Hash>, gone': set<Hash>, cut: set<Hash>)
    requires WellFormed(m) && TxReady(m, tx)
    requires v == Worn(ApplyTx(m, tx, h), gone, cut) && gone' == gone + Gone(m, ApplyTx(m, tx, h))
    ensures UndoFits(tx, TxUndo(m, tx))
    ensures UndoFits(tx, ReadTx(TxUndo(m, tx)))
    ensures DisconnectTx(v, tx, ReadTx(TxUndo(m, tx)), h) == (Worn(m, gone', cut), !(tx.IsCoinStake() && tx.id in gone))
  {
    hide SpendInput, RestoreInput, InputUndo, RemoveTx, CoinsOf;
    var m1 := if tx.IsCoinBase() then m else SpendFirst(m, tx.vin, |tx.vin|);
    if !tx.IsCoinBase() {
      SpendFirstKeepsWellFormed(m, tx.vin, |tx.vin|);
      TxUndoRecorded(m, tx, |tx.vin|);
    }
    RemoveAfterAdd(m1, tx, h, gone, cut);
    assert Gone(m, ApplyTx(m, tx, h)) == Gone(m, m1);
    if tx.IsCoinBase() {
      assert gone' == gone;
    } else {
      RestoreFirstUndoes(m, tx.vin, ReadTx(TxUndo(m, tx)), |tx.vin|, Worn(m1, gone, cut), gone, gone', cut);
    }
  }

  // ----- a block -----

  /** The first `k` transactions are ready when their turn comes. */
  ghost predicate TxsReady(m: Utxo, txs: seq<Tx>, h: nat, k: nat)
    requires k <= |txs|
  {
    k == 0 || (TxsReady(m, txs, h, k - 1) && TxReady(ApplyFirst(m, txs, h, k - 1), txs[k - 1]))
  }

  lemma {:induction false} ApplyFirstKeepsWellFormed(m: Utxo, txs: seq<Tx>, h: nat, k: nat)
    requires WellFormed(m) && k <= |txs| && h >= 1 && TxsReady(m, txs, h, k)
    ensures WellFormed(ApplyFirst(m, txs, h, k))
    ensures forall t | t in ApplyFirst(m, txs, h, k) :: t in m || exists i :: 0 <= i < k && txs[i].id == t
  {
    hide ApplyTx, WellFormed;
    if k > 0 {
      ApplyFirstKeepsWellFormed(m, txs, h, k - 1);
      ApplyTxKeepsWellFormed(ApplyFirst(m, txs, h, k - 1), txs[k - 1], h);
    }
  }

  /** The disconnect sees every coinstake among the first `k` transactions with its flag: none
      is among those lost before, and none was emptied later in the block. */
  ghost predicate StakesIntact(txs: seq<Tx>, k: nat, after: Utxo, gone: set<Hash>)
    requires k <= |txs|
  {
    forall i | 0 <= i < k :: txs[i].IsCoinStake() ==> txs[i].id in after && txs[i].id !in gone
  }

  lemma StakesIntactStep(txs: seq<Tx>, k: nat, m1: Utxo, m': Utxo, gone: set<Hash>)
    requires 0 < k <= |txs| && DistinctIds(txs) && m'.Keys <= m1.Keys + {txs[k - 1].id}
    requires txs[k - 1].IsCoinStake() ==> txs[k - 1].id in m'
    ensures StakesIntact(txs, k, m', gone) <==>
            StakesIntact(txs, k - 1, m1, gone + Gone(m1, m')) && !(txs[k - 1].IsCoinStake() && txs[k - 1].id in gone)
  {
    forall i | 0 <= i < k - 1
      ensures txs[i].id in m' ==> txs[i].id in m1
    {
      assert txs[i].id != txs[k - 1].id;
    }
  }

  lemma WornCompose(m: Utxo, m1: Utxo, m': Utxo, gone: set<Hash>, cut: set<Hash>)
    requires forall t | t in m && t in m' :: t in m1
    ensures Worn(m, gone + Gone(m1, m') + Gone(m, m1), cut) == Worn(m, gone + Gone(m, m'), cut)
  {
    SameView(Worn(m, gone + Gone(m1, m') + Gone(m, m1), cut), Worn(m, gone + Gone(m, m'), cut));
  }

  lemma DisconnectOneMore(v: Utxo, txs: seq<Tx>, undos: seq<seq<TxInUndo>>, h: nat, k: nat)
    requires 0 < k <= |txs| && UndosFit(txs, undos)
    ensures var (v1, ok1) := DisconnectTx(v, txs[k - 1], undos[k - 1], h);
            var (v2, ok2) := DisconnectFirst(v1, txs, undos, h, k - 1);
            DisconnectFirst(v, txs, undos, h, k) == (v2, ok1 && ok2)
  {
  }

  lemma ApplyOneMore(m: Utxo, txs: seq<Tx>, h: nat, k: nat)
    requires 0 < k <= |txs| && TxsReady(m, txs, h, k)
    ensures TxsReady(m, txs, h, k - 1) && TxReady(ApplyFirst(m, txs, h, k - 1), txs[k - 1])
    ensures ApplyFirst(m, txs, h, k) == ApplyTx(ApplyFirst(m, txs, h, k - 1), txs[k - 1], h)
    ensures |BlockUndo(m, txs, h)| == |txs|
    ensures BlockUndo(m, txs, h)[k - 1] == TxUndo(ApplyFirst(m, txs, h, k - 1), txs[k - 1])
    ensures ReadBack(BlockUndo(m, txs, h))[k - 1] == ReadTx(TxUndo(ApplyFirst(m, txs, h, k - 1), txs[k - 1]))
  {
    hide ApplyTx, TxUndo, TxReady, ReadTx;
  }

  lemma BlockUndoAt(m: Utxo, txs: seq<Tx>, h: nat, i: nat)
    requires i < |txs|
    ensures |BlockUndo(m, txs, h)| == |txs| && BlockUndo(m, txs, h)[i] == TxUndo(ApplyFirst(m, txs, h, i), txs[i])
  {
    hide ApplyTx, TxUndo;
  }

  lemma BlockUndoFits(m: Utxo, txs: seq<Tx>, h: nat)
    ensures UndosFit(txs, BlockUndo(m, txs, h)) && UndosFit(txs, ReadBack(BlockUndo(m, txs, h)))
  {
  }

  lemma {:induction false} DisconnectFirstUndoes(m: Utxo, txs: seq<Tx>, h: nat, k: nat, v: Utxo, gone: set<Hash>,
                                                cut: set<Hash>)
    requires WellFormed(m) && k <= |txs| && h >= 1 && TxsReady(m, txs, h, k)
    requires DistinctIds(txs) && forall i | 0 <= i < |txs| :: txs[i].id !in m
    requires UndosFit(txs, ReadBack(BlockUndo(m, txs, h)))
    requires v == Worn(ApplyFirst(m, txs, h, k), gone, cut)
    ensures DisconnectFirst(v, txs, ReadBack(BlockUndo(m, txs, h)), h, k)
              == (Worn(m, gone + Gone(m, ApplyFirst(m, txs, h, k)), cut),
                  StakesIntact(txs, k, ApplyFirst(m, txs, h, k), gone))
  {
    hide ApplyTx, DisconnectTx, BlockUndo, ReadBack, Worn, WellFormed, TxReady, OutputsOk;
    var m' := ApplyFirst(m, txs, h, k);
    if k == 0 {
      assert gone + Gone(m, m) == gone;
    } else {
      var m1 := ApplyFirst(m, txs, h, k - 1);
      var gone1 := gone + Gone(m1, m');
      ApplyOneMore(m, txs, h, k);
      ApplyFirstKeepsWellFormed(m, txs, h, k - 1);
      ApplyTxKeepsWellFormed(m1, txs[k - 1], h);
      DisconnectTxUndoes(m1, txs[k - 1], h, v, gone, gone1, cut);
      DisconnectFirstUndoes(m, txs, h, k - 1, Worn(m1, gone1, cut), gone1, cut);
      DisconnectOneMore(v, txs, ReadBack(BlockUndo(m, txs, h)), h, k);
      WornCompose(m, m1, m', gone, cut);
      StakesIntactStep(txs, k, m1, m', gone);
    }
  }
}
