/** Applying a block to the coins and taking it back: UpdateCoins (src/main.cpp:2082-2096) and
    DisconnectBlock (src/main.cpp:2241-2383), as functions on the plain map of live coins.
    Module BlockProcessing runs the same steps on the layered cache. */
module BlockCoins {
  import opened Coins
  import opened CoinsCache

  /** The coins at `t`, or an empty record. */
  function At(m: Utxo, t: Hash): Coins { if t in m then m[t] else EMPTY_COINS }

  // ----- connecting -----

  const NO_UNDO := TxInUndo(NULL_OUT, false, false, 0, 0)

  predicate HaveInput(m: Utxo, out: OutPoint) { At(m, out.hash).IsAvailable(out.n) }

  predicate HaveInputs(m: Utxo, vin: seq<OutPoint>) {
    forall i | 0 <= i < |vin| :: HaveInput(m, vin[i])
  }

  predicate DistinctInputs(vin: seq<OutPoint>) {
    forall i, j | 0 <= i < j < |vin| :: vin[i] != vin[j]
  }

  /** ModifyCoins(hash)->Spend(out, undo) */
  function SpendInput(m: Utxo, out: OutPoint): Utxo {
    match SpendOne(At(m, out.hash), out.n)
    case Refused => m
    case Spent(c, _) => SetCoins(m, out.hash, c)
  }

  function InputUndo(m: Utxo, out: OutPoint): TxInUndo {
    match SpendOne(At(m, out.hash), out.n)
    case Refused => NO_UNDO
    case Spent(_, undo) => undo
  }

  /** The coins after the first `k` inputs are spent. */
  function SpendFirst(m: Utxo, vin: seq<OutPoint>, k: nat): Utxo
    requires k <= |vin|
  {
    if k == 0 then m else SpendInput(SpendFirst(m, vin, k - 1), vin[k - 1])
  }

  /** The first `k` calls of Spend succeed, so the `assert(ret)` of UpdateCoins holds. */
  predicate CanSpend(m: Utxo, vin: seq<OutPoint>, k: nat)
    requires k <= |vin|
  {
    k == 0 || (CanSpend(m, vin, k - 1) && HaveInput(SpendFirst(m, vin, k - 1), vin[k - 1]))
  }

  /** UpdateCoins */
  function ApplyTx(m: Utxo, tx: Tx, h: nat): Utxo {
    SetCoins(if tx.IsCoinBase() then m else SpendFirst(m, tx.vin, |tx.vin|), tx.id, CoinsOf(tx, h))
  }

  function TxUndo(m: Utxo, tx: Tx): seq<TxInUndo> {
    if tx.IsCoinBase() then []
    else seq(|tx.vin|, i requires 0 <= i < |tx.vin| => InputUndo(SpendFirst(m, tx.vin, i), tx.vin[i]))
  }

  /** The transaction loop of ConnectBlock, after its first `k` rounds. */
  function ApplyFirst(m: Utxo, txs: seq<Tx>, h: nat, k: nat): Utxo
    requires k <= |txs|
  {
    if k == 0 then m else ApplyTx(ApplyFirst(m, txs, h, k - 1), txs[k - 1], h)
  }

  function ApplyBlock(m: Utxo, txs: seq<Tx>, h: nat): Utxo { ApplyFirst(m, txs, h, |txs|) }

  /** The undo data of a block. The empty entry of the coinbase is not written to disk. */
  function BlockUndo(m: Utxo, txs: seq<Tx>, h: nat): seq<seq<TxInUndo>> {
    seq(|txs|, i requires 0 <= i < |txs| => TxUndo(ApplyFirst(m, txs, h, i), txs[i]))
  }

  // ----- the checks a block has passed -----

  predicate CanonicalNulls(vout: seq<TxOut>) {
    forall i | 0 <= i < |vout| :: vout[i].IsNull() ==> vout[i] == NULL_OUT
  }

  /** Records are live, trimmed, nulled as SetNull nulls, and created above the genesis block. */
  ghost predicate WellFormed(m: Utxo) {
    && ValidUtxo(m)
    && forall t | t in m :: m[t].height >= 1 && CanonicalNulls(m[t].vout)
  }

  /** CheckTransaction: no negative output value (src/main.cpp:1002). */
  predicate OutputsOk(tx: Tx) { forall i | 0 <= i < |tx.vout| :: tx.vout[i].value >= 0 }

  /** CheckTransaction: there are inputs and outputs, only a coinbase has a null input, and only a
      coinbase or coinstake has an empty output (src/main.cpp:985-1031). */
  predicate WellShaped(tx: Tx) {
    && |tx.vin| > 0 && |tx.vout| > 0
    && (tx.IsCoinBase() || forall j | 0 <= j < |tx.vin| :: !tx.vin[j].IsNull())
    && (tx.IsCoinBase() || tx.IsCoinStake() || forall k | 0 <= k < |tx.vout| :: !tx.vout[k].IsEmpty())
  }

  /** The second transaction says what kind of block it is (src/primitives/block.h:134-137). */
  predicate IsProofOfStake(txs: seq<Tx>) { |txs| > 1 && txs[1].IsCoinStake() }

  /** CheckBlock: the coinbase of a proof-of-stake block has one output, an empty one, and no other
      transaction is a coinstake (src/main.cpp:3540-3551). */
  predicate StakeRules(txs: seq<Tx>)
    requires |txs| > 0
  {
    IsProofOfStake(txs) ==>
      && |txs[0].vout| == 1 && txs[0].vout[0].IsEmpty()
      && forall i | 2 <= i < |txs| :: !txs[i].IsCoinStake()
  }

  /** ConnectBlock: proof of work up to a height, and proof of stake above it
      (src/main.cpp:2444-2450). */
  predicate PeriodOk(txs: seq<Tx>, h: nat, lastPow: nat) { IsProofOfStake(txs) <==> h > lastPow }

  /** CheckInputs: coinbase and coinstake outputs have matured (src/main.cpp:2130-2131). */
  predicate Matured(m: Utxo, vin: seq<OutPoint>, h: nat, maturity: nat) {
    forall i | 0 <= i < |vin| ::
      (At(m, vin[i].hash).coinBase || At(m, vin[i].hash).coinStake) ==> h - At(m, vin[i].hash).height >= maturity
  }

  predicate TxOk(m: Utxo, tx: Tx, h: nat, maturity: nat) {
    && OutputsOk(tx)
    && (tx.IsCoinBase() || (HaveInputs(m, tx.vin) && DistinctInputs(tx.vin) && Matured(m, tx.vin, h, maturity)))
  }

  predicate DistinctIds(txs: seq<Tx>) {
    forall i, j | 0 <= i < j < |txs| :: txs[i].id != txs[j].id
  }

  /** The first `k` transactions pass their checks in turn. */
  predicate TxsOk(m: Utxo, txs: seq<Tx>, h: nat, maturity: nat, k: nat)
    requires k <= |txs|
  {
    k == 0 ||
    (TxsOk(m, txs, h, maturity, k - 1) && TxOk(ApplyFirst(m, txs, h, k - 1), txs[k - 1], h, maturity))
  }

  /** CheckBlock and ConnectBlock: one coinbase, first; the shapes are right; no live transaction is
      overwritten (BIP 30); every transaction passes its own checks in turn. */
  predicate BlockOk(m: Utxo, txs: seq<Tx>, h: nat, maturity: nat) {
    && h >= 1
    && |txs| > 0 && txs[0].IsCoinBase()
    && (forall i | 1 <= i < |txs| :: !txs[i].IsCoinBase())
    && (forall i | 0 <= i < |txs| :: WellShaped(txs[i])) && StakeRules(txs)
    && DistinctIds(txs)
    && (forall i | 0 <= i < |txs| :: txs[i].id !in m)
    && TxsOk(m, txs, h, maturity, |txs|)
  }

  // ----- disconnecting -----

  /** Put an output in its place, growing the list with null outputs when it is too short. */
  function PutOutput(vout: seq<TxOut>, n: nat, out: TxOut): seq<TxOut> {
    (if |vout| < n + 1 then vout + seq(n + 1 - |vout|, _ => NULL_OUT) else vout)[n := out]
  }

  /** Undo of one spend on the record it hit (src/main.cpp:2319-2335); the flag says nothing
      was out of place. */
  function RestoreRecord(c0: Coins, n: nat, undo: TxInUndo): (Coins, bool) {
    var expected := if undo.height != 0 then c0.IsPruned() else !c0.IsPruned();
    // the coinstake flag saved by Spend is not restored
    var c1 := if undo.height != 0 then Coins(undo.coinBase, false, [], undo.height, undo.version) else c0;
    (CleanedUp(c1.(vout := PutOutput(c1.vout, n, undo.txout))), expected && !c1.IsAvailable(n))
  }

  function RestoreInput(v: Utxo, out: OutPoint, undo: TxInUndo): (Utxo, bool) {
    var (c, ok) := RestoreRecord(At(v, out.hash), out.n, undo);
    (SetCoins(v, out.hash, c), ok)
  }

  /** Restore the first `k` inputs, last one first. */
  function RestoreFirst(v: Utxo, vin: seq<OutPoint>, undos: seq<TxInUndo>, k: nat): (Utxo, bool)
    requires k <= |vin| == |undos|
    decreases k
  {
    if k == 0 then (v, true)
    else
      var (v1, ok1) := RestoreInput(v, vin[k - 1], undos[k - 1]);
      var (v2, ok2) := RestoreFirst(v1, vin, undos, k - 1);
      (v2, ok1 && ok2)
  }

  /** Check the outputs against the block, then remove them (src/main.cpp:2292-2308). */
  function RemoveTx(v: Utxo, tx: Tx, h: nat): (Utxo, bool) {
    var inBlock := CoinsOf(tx, h);
    var found := WithoutUnspendable(At(v, tx.id));
    var outs := if inBlock.version < 0 then found.(version := inBlock.version) else found;
    (v - {tx.id}, outs.SameAs(inBlock))
  }

  predicate UndoFits(tx: Tx, undos: seq<TxInUndo>) { tx.IsCoinBase() || |undos| == |tx.vin| }

  function DisconnectTx(v: Utxo, tx: Tx, undos: seq<TxInUndo>, h: nat): (Utxo, bool)
    requires UndoFits(tx, undos)
  {
    var (v1, ok1) := RemoveTx(v, tx, h);
    if tx.IsCoinBase() then (v1, ok1)
    else
      var (v2, ok2) := RestoreFirst(v1, tx.vin, undos, |tx.vin|);
      (v2, ok1 && ok2)
  }

  /** Undo data as DisconnectBlock gets it: written to the undo file by ConnectBlock and read
      back (src/main.cpp:2254, src/undo.h:40-66). */
  function ReadTx(undos: seq<TxInUndo>): seq<TxInUndo> {
    seq(|undos|, j requires 0 <= j < |undos| => StoredUndo(undos[j]))
  }

  function ReadBack(undos: seq<seq<TxInUndo>>): seq<seq<TxInUndo>> {
    seq(|undos|, i requires 0 <= i < |undos| => ReadTx(undos[i]))
  }

  predicate UndosFit(txs: seq<Tx>, undos: seq<seq<TxInUndo>>) {
    |txs| == |undos| && forall i | 0 <= i < |txs| :: UndoFits(txs[i], undos[i])
  }

  /** Disconnect the first `k` transactions, last one first. */
  function DisconnectFirst(v: Utxo, txs: seq<Tx>, undos: seq<seq<TxInUndo>>, h: nat, k: nat): (Utxo, bool)
    requires k <= |txs| && UndosFit(txs, undos)
    decreases k
  {
    if k == 0 then (v, true)
    else
      var (v1, ok1) := DisconnectTx(v, txs[k - 1], undos[k - 1], h);
      var (v2, ok2) := DisconnectFirst(v1, txs, undos, h, k - 1);
      (v2, ok1 && ok2)
  }

  /** DisconnectBlock: the coins it leaves, and fClean; `undos` is what ConnectBlock wrote. */
  function DisconnectBlock(v: Utxo, txs: seq<Tx>, undos: seq<seq<TxInUndo>>, h: nat): (Utxo, bool)
    requires UndosFit(txs, undos)
  {
    assert UndosFit(txs, ReadBack(undos));
    DisconnectFirst(v, txs, ReadBack(undos), h, |txs|)
  }

  // ----- spending is possible exactly when the inputs are there and distinct -----

  lemma SpendKeepsOthers(m: Utxo, out: OutPoint, other: OutPoint)
    requires HaveInput(m, out)
    ensures HaveInput(SpendInput(m, out), other) <==> HaveInput(m, other) && other != out
  {
    var c := m[out.hash];
    var nulled := c.vout[out.n := NULL_OUT];
    var c' := CleanedUp(c.(vout := nulled));
    forall i: nat
      ensures c'.IsAvailable(i) <==> i < |nulled| && !nulled[i].IsNull()
    {
      assert i < |c'.vout| ==> c'.vout[i] == nulled[i];
    }
    assert c'.IsPruned() ==> !c'.IsAvailable(other.n);
  }

  /** `other` is not among the first `k` inputs. */
  predicate NotAmong(vin: seq<OutPoint>, k: nat, other: OutPoint)
    requires k <= |vin|
  {
    forall i | 0 <= i < k :: vin[i] != other
  }

  lemma {:induction false} SpendFirstKeepsOthers(m: Utxo, vin: seq<OutPoint>, k: nat, other: OutPoint)
    requires k <= |vin| && CanSpend(m, vin, k)
    ensures HaveInput(SpendFirst(m, vin, k), other) <==> HaveInput(m, other) && NotAmong(vin, k, other)
  {
    hide SpendInput, HaveInput;
    if k > 0 {
      SpendFirstKeepsOthers(m, vin, k - 1, other);
      SpendKeepsOthers(SpendFirst(m, vin, k - 1), vin[k - 1], other);
    }
  }

  lemma {:induction false} CanSpendFirstIff(m: Utxo, vin: seq<OutPoint>, k: nat)
    requires k <= |vin|
    ensures CanSpend(m, vin, k) <==> forall i | 0 <= i < k :: HaveInput(m, vin[i]) && NotAmong(vin, i, vin[i])
  {
    hide SpendInput, HaveInput;
    if k > 0 {
      CanSpendFirstIff(m, vin, k - 1);
      if CanSpend(m, vin, k - 1) {
        SpendFirstKeepsOthers(m, vin, k - 1, vin[k - 1]);
      }
    }
  }

  /** The assertion in UpdateCoins never fails on a transaction that passed HaveInputs and
      the duplicate-input check, and fails on every other. */
  lemma CanSpendIff(m: Utxo, vin: seq<OutPoint>)
    ensures CanSpend(m, vin, |vin|) <==> HaveInputs(m, vin) && DistinctInputs(vin)
  {
    CanSpendFirstIff(m, vin, |vin|);
  }
}
