/** A chain that the node accepts from genesis on and cannot be rolled back, for every maturity and
    every length of the proof-of-work period that allows a stake at all: a coinstake is created,
    buried, and then emptied by one later coinstake. Disconnecting the spender brings its
    record back without the coinstake flag, so disconnecting the block that created it reports a
    mismatch and DisconnectBlock returns false. */
module RollbackWitness {
  import opened Coins
  import opened CoinsCache
  import opened BlockCoins
  import opened Undo
  import opened Rollback

  /** The least that GetBlockValue allows (src/main.cpp:1683-1696). */
  const FUND := 125_000_000

  const NOTHING := TxOut(0, [])

  function CoinBaseId(h: nat): Hash { 2 * h }

  function StakeId(h: nat): Hash { 2 * h + 1 }

  function CoinBaseTx(h: nat, out: TxOut): Tx { Tx(CoinBaseId(h), [OutPoint(NULL_HASH, NULL_INDEX)], [out], 1) }

  function StakeTx(h: nat, vin: seq<OutPoint>, value: int, script: Script): Tx {
    Tx(StakeId(h), vin, [NOTHING, TxOut(value, script)], 1)
  }

  /** The rules of the chain, and the script everything is paid to. */
  datatype Case = Case(maturity: nat, lastPow: nat, script: Script) {
    /** Some coinbase has matured when the first stake is due. */
    predicate Ok() { 1 <= maturity <= lastPow && !TxOut(FUND, script).IsUnspendable() }

    /** The height of the last block. */
    function End(): nat { lastPow + maturity + 1 }

    /** The coinstake that will be emptied. */
    function Victim(): Hash { StakeId(lastPow + 1) }

    /** Each coinstake mints one unit. Those before the last spend the coinbases in turn; the last one
        spends both outputs of the first. */
    function StakeAt(h: nat): Tx
      requires h > lastPow
    {
      if h == End() then StakeTx(h, [OutPoint(Victim(), 1), OutPoint(Victim(), 0)], FUND + 2, script)
      else StakeTx(h, [OutPoint(CoinBaseId(h - lastPow), 0)], FUND + 1, script)
    }

    function BlockAt(h: nat): seq<Tx> {
      if h <= lastPow then [CoinBaseTx(h, TxOut(FUND, script))] else [CoinBaseTx(h, NOTHING), StakeAt(h)]
    }

    /** The blocks above height `from`, up to height `to`. */
    function Part(from: nat, to: nat): seq<seq<Tx>>
      requires from <= to
    {
      seq(to - from, i requires 0 <= i < to - from => BlockAt(from + i + 1))
    }

    function FundCoins(h: nat): Coins { Coins(true, false, [TxOut(FUND, script)], h, 1) }

    function VictimCoins(): Coins { Coins(false, true, [NOTHING, TxOut(FUND + 1, script)], lastPow + 1, 1) }

    /** The coins after the block at height `k`, as far as they matter. */
    ghost predicate Phase(m: Utxo, k: nat) {
      && (forall t | t in m :: t <= StakeId(k))
      && (k == 0 ==> m == map[])
      && (forall j: nat | 1 <= j <= k && j <= lastPow && k - lastPow < j ::
            CoinBaseId(j) in m && m[CoinBaseId(j)] == FundCoins(j))
      && (lastPow < k < End() ==> Victim() in m && m[Victim()] == VictimCoins())
      && (k == End() ==> Victim() !in m)
      && (forall h: nat | lastPow + 1 < h <= k :: StakeId(h) in m && m[StakeId(h)].coinStake)
    }
  }

  // ----- single blocks -----

  lemma CoinBaseCoins(h: nat, out: TxOut)
    requires out.value >= 0 && !out.IsUnspendable()
    ensures var tx, c := CoinBaseTx(h, out), Coins(true, false, [out], h, 1);
            && tx.IsCoinBase() && !tx.IsCoinStake() && WellShaped(tx) && OutputsOk(tx)
            && CoinsOf(tx, h) == c && !c.IsPruned()
  {
    assert NullUnspendable([out]) == [out];
    assert !Coins(true, false, [out], h, 1).vout[0].IsNull();
  }

  /** A block of one coinbase adds its record. */
  lemma CoinBaseBlock(m: Utxo, out: TxOut, h: nat, maturity: nat)
    requires CoinBaseId(h) !in m && h >= 1 && out.value >= 0 && !out.IsUnspendable()
    ensures var txs := [CoinBaseTx(h, out)];
            && BlockOk(m, txs, h, maturity) && !IsProofOfStake(txs)
            && ApplyBlock(m, txs, h) == m[CoinBaseId(h) := Coins(true, false, [out], h, 1)]
  {
    var txs := [CoinBaseTx(h, out)];
    CoinBaseCoins(h, out);
    assert ApplyFirst(m, txs, h, 0) == m;
    assert TxsOk(m, txs, h, maturity, 0);
    assert TxOk(m, txs[0], h, maturity);
    assert ApplyBlock(m, txs, h) == ApplyTx(m, txs[0], h);
  }

  lemma EmptyCoinBaseIsOk(m: Utxo, h: nat, maturity: nat)
    ensures var tx := CoinBaseTx(h, NOTHING);
            TxOk(m, tx, h, maturity) && ApplyTx(m, tx, h) == m[CoinBaseId(h) := Coins(true, false, [NOTHING], h, 1)]
  {
    CoinBaseCoins(h, NOTHING);
  }

  lemma StakeShape(h: nat, vin: seq<OutPoint>, value: int, script: Script)
    requires |vin| > 0 && forall j | 0 <= j < |vin| :: vin[j].hash != NULL_HASH
    ensures var tx := StakeTx(h, vin, value, script);
            tx.IsCoinStake() && !tx.IsCoinBase() && WellShaped(tx)
  {
  }

  /** A block of an empty coinbase and a coinstake. */
  lemma StakeBlock(m: Utxo, tx: Tx, h: nat, maturity: nat)
    requires CoinBaseId(h) !in m && tx.id == StakeId(h) && tx.id !in m && h >= 1
    requires tx.IsCoinStake() && !tx.IsCoinBase() && WellShaped(tx)
    requires TxOk(m[CoinBaseId(h) := Coins(true, false, [NOTHING], h, 1)], tx, h, maturity)
    ensures var txs, m1 := [CoinBaseTx(h, NOTHING), tx], m[CoinBaseId(h) := Coins(true, false, [NOTHING], h, 1)];
            && BlockOk(m, txs, h, maturity) && IsProofOfStake(txs)
            && ApplyBlock(m, txs, h) == ApplyTx(m1, tx, h) && ApplyFirst(m, txs, h, 1) == m1
  {
    hide TxOk, ApplyTx;
    var txs, m1 := [CoinBaseTx(h, NOTHING), tx], m[CoinBaseId(h) := Coins(true, false, [NOTHING], h, 1)];
    CoinBaseCoins(h, NOTHING);
    EmptyCoinBaseIsOk(m, h, maturity);
    assert ApplyFirst(m, txs, h, 0) == m;
    assert ApplyFirst(m, txs, h, 1) == ApplyTx(m, txs[0], h) == m1;
    assert ApplyFirst(m, txs, h, 2) == ApplyTx(m1, tx, h);
    assert TxsOk(m, txs, h, maturity, 0);
    assert TxsOk(m, txs, h, maturity, 1);
    assert StakeRules(txs);
  }

  // ----- spending -----

  lemma SpendTheOnlyOutput(m: Utxo, out: OutPoint)
    requires out.hash in m && |m[out.hash].vout| == 1 && out.n == 0 && !m[out.hash].vout[0].IsNull()
    ensures HaveInput(m, out) && SpendInput(m, out) == m - {out.hash}
  {
    var c := m[out.hash];
    var nulled := c.vout[0 := NULL_OUT];
    assert nulled == [NULL_OUT];
    assert Trim(nulled) == [];
  }

  lemma SpendSecondOfTwo(m: Utxo, t: Hash, b: TxOut)
    requires t in m && m[t].vout == [NOTHING, b] && !b.IsNull()
    ensures HaveInput(m, OutPoint(t, 1)) && HaveInput(m, OutPoint(t, 0))
    ensures SpendInput(m, OutPoint(t, 1)) == m[t := m[t].(vout := [NOTHING])]
  {
    var nulled := m[t].vout[1 := NULL_OUT];
    assert nulled[..1] == [NOTHING] && Trim([NOTHING]) == [NOTHING];
    assert Trim(nulled) == [NOTHING];
    assert !m[t].(vout := [NOTHING]).vout[0].IsNull();
  }

  lemma StakeCoins(h: nat, vin: seq<OutPoint>, value: int, script: Script)
    requires |vin| > 0 && vin[0].hash != NULL_HASH && !TxOut(value, script).IsUnspendable()
    ensures var c := CoinsOf(StakeTx(h, vin, value, script), h);
            c == Coins(false, true, [NOTHING, TxOut(value, script)], h, 1).(vout := Trim([NOTHING, TxOut(value, script)]))
  {
    var vout := StakeTx(h, vin, value, script).vout;
    assert NullUnspendable(vout) == vout;
  }

  /** A coinstake takes a matured coinbase out and puts its own record in. */
  lemma StakeIsOk(m: Utxo, h: nat, c: Case)
    requires c.Ok() && c.lastPow < h < c.End()
    requires CoinBaseId(h - c.lastPow) in m && m[CoinBaseId(h - c.lastPow)] == c.FundCoins(h - c.lastPow)
    ensures var tx, coins := c.StakeAt(h), Coins(false, true, [NOTHING, TxOut(FUND + 1, c.script)], h, 1);
            && tx.IsCoinStake() && !tx.IsCoinBase() && WellShaped(tx) && TxOk(m, tx, h, c.maturity)
            && ApplyTx(m, tx, h) == (m - {CoinBaseId(h - c.lastPow)})[StakeId(h) := coins]
  {
    hide SpendInput;
    var tx, out := c.StakeAt(h), OutPoint(CoinBaseId(h - c.lastPow), 0);
    StakeShape(h, tx.vin, FUND + 1, c.script);
    StakeCoins(h, tx.vin, FUND + 1, c.script);
    assert Trim([NOTHING, TxOut(FUND + 1, c.script)]) == [NOTHING, TxOut(FUND + 1, c.script)];
    assert SpendFirst(m, tx.vin, 0) == m;
    SpendTheOnlyOutput(m, out);
    assert SpendFirst(m, tx.vin, 1) == m - {out.hash};
    assert !CoinsOf(tx, h).vout[0].IsNull();
  }

  /** The two inputs of the last coinstake empty the first one's record. */
  lemma SpendVictim(m: Utxo, c: Case)
    requires c.Victim() in m && m[c.Victim()] == c.VictimCoins()
    ensures var vin := c.StakeAt(c.End()).vin;
            && SpendFirst(m, vin, 2) == m - {c.Victim()}
            && HaveInputs(m, vin) && DistinctInputs(vin)
  {
    hide SpendInput;
    var vin, t := c.StakeAt(c.End()).vin, c.Victim();
    var m1 := m[t := m[t].(vout := [NOTHING])];
    SpendSecondOfTwo(m, t, TxOut(FUND + 1, c.script));
    SpendTheOnlyOutput(m1, OutPoint(t, 0));
    assert SpendFirst(m, vin, 0) == m && SpendFirst(m, vin, 1) == m1;
    assert SpendFirst(m, vin, 2) == m1 - {t} == m - {t};
  }

  lemma LastIsOk(m: Utxo, c: Case)
    requires c.Ok() && c.Victim() in m && m[c.Victim()] == c.VictimCoins()
    ensures var h, tx := c.End(), c.StakeAt(c.End());
            var coins := Coins(false, true, [NOTHING, TxOut(FUND + 2, c.script)], h, 1);
            && tx.IsCoinStake() && !tx.IsCoinBase() && WellShaped(tx) && TxOk(m, tx, h, c.maturity)
            && ApplyTx(m, tx, h) == (m - {c.Victim()})[StakeId(h) := coins]
  {
    hide SpendFirst;
    var h, tx := c.End(), c.StakeAt(c.End());
    StakeShape(h, tx.vin, FUND + 2, c.script);
    StakeCoins(h, tx.vin, FUND + 2, c.script);
    SpendVictim(m, c);
    assert Trim([NOTHING, TxOut(FUND + 2, c.script)]) == [NOTHING, TxOut(FUND + 2, c.script)];
    assert !CoinsOf(tx, h).vout[0].IsNull();
  }

  // ----- the chain -----

  /** The block at height `k` is of the right kind, is accepted, and leads to the next phase. */
  lemma PhaseStep(m: Utxo, k: nat, c: Case)
    requires c.Ok() && 1 <= k <= c.End() && c.Phase(m, k - 1)
    ensures var txs := c.BlockAt(k);
            BlockOk(m, txs, k, c.maturity) && PeriodOk(txs, k, c.lastPow) && c.Phase(ApplyBlock(m, txs, k), k)
  {
    hide BlockOk, ApplyBlock, TxOk, ApplyTx, WellShaped;
    var m1 := m[CoinBaseId(k) := Coins(true, false, [NOTHING], k, 1)];
    if k <= c.lastPow {
      CoinBaseBlock(m, TxOut(FUND, c.script), k, c.maturity);
    } else if k < c.End() {
      StakeIsOk(m1, k, c);
      StakeBlock(m, c.StakeAt(k), k, c.maturity);
    } else {
      LastIsOk(m1, c);
      StakeBlock(m, c.StakeAt(k), k, c.maturity);
    }
  }

  /** Every block is of the kind its height asks for. */
  predicate PeriodsOk(blocks: seq<seq<Tx>>, h: nat, lastPow: nat) {
    forall k | 0 <= k < |blocks| :: PeriodOk(blocks[k], h + k + 1, lastPow)
  }

  lemma {:induction false} ChainPasses(m: Utxo, from: nat, to: nat, c: Case, k: nat)
    requires c.Ok() && from <= to <= c.End() && k <= to - from && c.Phase(m, from)
    ensures var b := c.Part(from, to);
            && ChainOk(m, b, from, c.maturity, k) && PeriodsOk(b[..k], from, c.lastPow)
            && c.Phase(StateAt(m, b, from, k), from + k)
  {
    hide BlockOk, ApplyBlock, Case.Phase, Case.BlockAt, PeriodOk, Case.End;
    if k > 0 {
      var b := c.Part(from, to);
      ChainPasses(m, from, to, c, k - 1);
      PhaseStep(StateAt(m, b, from, k - 1), from + k, c);
      assert b[k - 1] == c.BlockAt(from + k);
      forall i | 0 <= i < k
        ensures PeriodOk(b[..k][i], from + i + 1, c.lastPow)
      {
        assert i < k - 1 ==> b[..k][i] == b[..k - 1][i];
      }
    }
  }

  /** At the end the first coinstake is not live. */
  lemma VictimGone(m: Utxo, c: Case)
    requires c.Ok() && c.Phase(m, c.End())
    ensures !StakesLive(c.BlockAt(c.lastPow + 1), m)
  {
    var h := c.lastPow + 1;
    var txs := c.BlockAt(h);
    StakeShape(h, c.StakeAt(h).vin, FUND + 1, c.script);
    assert txs[1] == c.StakeAt(h) && txs[1].IsCoinStake();
  }

  /** For every maturity and every proof-of-work period at least as long: the proof-of-work blocks lead
      to coins on top of which a chain of `maturity` + 1 proof-of-stake blocks passes every check
      and cannot be rolled back. */
  lemma RollbackCanFail(c: Case)
    requires c.Ok()
    ensures var first := c.Part(0, c.lastPow);
            var m, b := StateAt(map[], first, 0, c.lastPow), c.Part(c.lastPow, c.End());
            && ChainOk(map[], first, 0, c.maturity, c.lastPow) && PeriodsOk(first, 0, c.lastPow) && WellFormed(m)
            && |b| == c.maturity + 1 && ChainOk(m, b, c.lastPow, c.maturity, |b|) && PeriodsOk(b, c.lastPow, c.lastPow)
            && ChainUndoFits(b, ChainUndo(m, b, c.lastPow))
            && !RollBack(StateAt(m, b, c.lastPow, |b|), b, ChainUndo(m, b, c.lastPow), c.lastPow, |b|).1
  {
    hide BlockOk, ApplyBlock, BlockUndo, RollBack, ChainUndo, StateAt, ChainOk, WellFormed, Case.Phase, Case.BlockAt, PeriodOk;
    var first := c.Part(0, c.lastPow);
    var m, b := StateAt(map[], first, 0, c.lastPow), c.Part(c.lastPow, c.End());
    StartPhase(c);
    ChainPasses(map[], 0, c.lastPow, c, c.lastPow);
    assert first[..c.lastPow] == first && b[..c.maturity + 1] == b;
    StatesWellFormed(map[], first, 0, c.maturity, c.lastPow);
    ChainPasses(m, c.lastPow, c.End(), c, c.maturity + 1);
    RollbackIff(m, b, c.lastPow, c.maturity);
    assert b[0] == c.BlockAt(c.lastPow + 1);
    VictimGone(StateAt(m, b, c.lastPow, c.maturity + 1), c);
  }

  lemma StartPhase(c: Case)
    ensures c.Phase(map[], 0) && WellFormed(map[])
  {
  }

  // ----- a shorter proof-of-work period allows no stake -----

  /** Every output belongs to a coinbase above genesis. */
  ghost predicate OnlyCoinBases(m: Utxo) { forall t | t in m :: m[t].coinBase && m[t].height >= 1 }

  /** Up to height `maturity` no coinbase has matured, so a block has no second transaction. */
  lemma {:induction false} NothingToSpend(m: Utxo, txs: seq<Tx>, h: nat, maturity: nat, k: nat)
    requires OnlyCoinBases(m) && BlockOk(m, txs, h, maturity) && h <= maturity && k <= |txs|
    ensures k <= 1 && OnlyCoinBases(ApplyFirst(m, txs, h, k))
  {
    hide ApplyTx, TxOk, StakeRules, OnlyCoinBases, WellShaped;
    if k > 0 {
      NothingToSpend(m, txs, h, maturity, k - 1);
      TxsOkAt(m, txs, h, maturity, k, |txs|);
      EarlyIsCoinBase(ApplyFirst(m, txs, h, k - 1), txs[k - 1], h, maturity);
      CoinBaseKeepsThem(ApplyFirst(m, txs, h, k - 1), txs[k - 1], h);
    }
  }

  lemma CoinBaseKeepsThem(m: Utxo, tx: Tx, h: nat)
    requires OnlyCoinBases(m) && tx.IsCoinBase() && h >= 1
    ensures OnlyCoinBases(ApplyTx(m, tx, h))
  {
  }

  lemma EarlyIsCoinBase(m: Utxo, tx: Tx, h: nat, maturity: nat)
    requires OnlyCoinBases(m) && WellShaped(tx) && TxOk(m, tx, h, maturity) && h <= maturity
    ensures tx.IsCoinBase()
  {
    hide OutputsOk, DistinctInputs, HaveInputs;
    if !tx.IsCoinBase() {
      InputsAreThere(m, tx.vin);
    }
  }

  lemma InputsAreThere(m: Utxo, vin: seq<OutPoint>)
    requires HaveInputs(m, vin)
    ensures forall i | 0 <= i < |vin| :: HaveInput(m, vin[i]) && vin[i].hash in m
  {
  }

  lemma {:induction false} TxsOkAt(m: Utxo, txs: seq<Tx>, h: nat, maturity: nat, i: nat, k: nat)
    requires 0 < i <= k <= |txs| && TxsOk(m, txs, h, maturity, k)
    ensures TxOk(ApplyFirst(m, txs, h, i - 1), txs[i - 1], h, maturity)
  {
    hide ApplyFirst, TxOk;
    if i < k {
      TxsOkAt(m, txs, h, maturity, i, k - 1);
    }
  }

  lemma {:induction false} OnlyCoinBasesEarly(blocks: seq<seq<Tx>>, maturity: nat, k: nat)
    requires k <= |blocks| && k <= maturity && ChainOk(map[], blocks, 0, maturity, k)
    ensures OnlyCoinBases(StateAt(map[], blocks, 0, k)) && forall i | 0 <= i < k :: !IsProofOfStake(blocks[i])
  {
    hide BlockOk, ApplyFirst, OnlyCoinBases;
    if k == 0 {
      assert OnlyCoinBases(map[]) by {
        NothingIsCoinBase();
      }
    } else {
      OnlyCoinBasesEarly(blocks, maturity, k - 1);
      NothingToSpend(StateAt(map[], blocks, 0, k - 1), blocks[k - 1], k, maturity, |blocks[k - 1]|);
    }
  }

  lemma NothingIsCoinBase()
    ensures OnlyCoinBases(map[])
  {
  }

  /** With a proof-of-work period shorter than the maturity the chain ends where the period does, so
      the cases above are all there are. */
  lemma NoStakeWithoutMaturity(blocks: seq<seq<Tx>>, maturity: nat, lastPow: nat)
    requires lastPow < maturity && ChainOk(map[], blocks, 0, maturity, |blocks|) && PeriodsOk(blocks, 0, lastPow)
    ensures |blocks| <= lastPow
  {
    hide ChainOk, StateAt, IsProofOfStake;
    if |blocks| > lastPow {
      ChainOkPrefix(map[], blocks, 0, maturity, lastPow + 1, |blocks|);
      assert PeriodOk(blocks[lastPow], lastPow + 1, lastPow);
      OnlyCoinBasesEarly(blocks, maturity, lastPow + 1);
    }
  }
}
