/** Blocks and chains: what DisconnectBlock gives back, and exactly when a chain can be rolled
    back without an error. */
module Rollback {
  import opened Coins
  import opened CoinsCache
  import opened BlockCoins
  import opened Undo

  // ----- one block -----

  lemma {:induction false} TxsOkAreReady(m: Utxo, txs: seq<Tx>, h: nat, maturity: nat, k: nat)
    requires WellFormed(m) && k <= |txs| && TxsOk(m, txs, h, maturity, k) && DistinctIds(txs) && h >= 1
    requires forall i | 0 <= i < |txs| :: txs[i].id !in m
    ensures TxsReady(m, txs, h, k) && WellFormed(ApplyFirst(m, txs, h, k))
  {
    hide ApplyTx, WellFormed, OutputsOk, Matured;
    if k > 0 {
      TxsOkAreReady(m, txs, h, maturity, k - 1);
      ApplyFirstKeepsWellFormed(m, txs, h, k - 1);
      CanSpendIff(ApplyFirst(m, txs, h, k - 1), txs[k - 1].vin);
      ApplyFirstKeepsWellFormed(m, txs, h, k);
    }
  }

  /** Spending inputs elsewhere leaves a record alone. */
  lemma {:induction false} SpendFirstElsewhere(m: Utxo, vin: seq<OutPoint>, k: nat, t: Hash)
    requires k <= |vin| && forall i | 0 <= i < k :: vin[i].hash != t
    ensures t in SpendFirst(m, vin, k) <==> t in m
    ensures t in m ==> SpendFirst(m, vin, k)[t] == m[t]
  {
    if k > 0 {
      SpendFirstElsewhere(m, vin, k - 1, t);
    }
  }

  /** The coinstakes among the first `k` transactions, as they stand right after them. */
  ghost predicate StakesFresh(txs: seq<Tx>, k: nat, after: Utxo, h: nat)
    requires k <= |txs|
  {
    forall i | 0 <= i < k && txs[i].IsCoinStake() ::
      txs[i].id in after && after[txs[i].id].coinStake && after[txs[i].id].height == h
  }

  lemma StakesFreshStep(txs: seq<Tx>, k: nat, m1: Utxo, h: nat, maturity: nat)
    requires 0 < k <= |txs| && DistinctIds(txs) && maturity >= 1
    requires TxOk(m1, txs[k - 1], h, maturity) && StakesFresh(txs, k - 1, m1, h)
    ensures StakesFresh(txs, k, ApplyTx(m1, txs[k - 1], h), h)
  {
    var tx := txs[k - 1];
    CoinsOfWellFormed(tx, h);
    forall i | 0 <= i < k - 1 && txs[i].IsCoinStake()
      ensures txs[i].id in ApplyTx(m1, tx, h) && ApplyTx(m1, tx, h)[txs[i].id] == m1[txs[i].id]
    {
      var t := txs[i].id;
      assert t != tx.id;
      if !tx.IsCoinBase() {
        assert forall j | 0 <= j < |tx.vin| :: tx.vin[j].hash != t by {
          assert At(m1, t).coinStake && At(m1, t).height == h;
        }
        SpendFirstElsewhere(m1, tx.vin, |tx.vin|, t);
      }
    }
  }

  /** With a maturity of at least one block, no coinstake is spent in its own block. */
  lemma {:induction false} StakesSurviveTheirBlock(m: Utxo, txs: seq<Tx>, h: nat, maturity: nat, k: nat)
    requires k <= |txs| && TxsOk(m, txs, h, maturity, k) && DistinctIds(txs) && maturity >= 1
    ensures StakesFresh(txs, k, ApplyFirst(m, txs, h, k), h)
  {
    hide ApplyTx, TxOk;
    if k > 0 {
      StakesSurviveTheirBlock(m, txs, h, maturity, k - 1);
      StakesFreshStep(txs, k, ApplyFirst(m, txs, h, k - 1), h, maturity);
    }
  }

  lemma WornNothing(m: Utxo)
    ensures Worn(m, {}, {}) == m
  {
    SameView(Worn(m, {}, {}), m);
  }

  /** The general step: disconnect a block from a state in which the flags of `gone` are lost and
      the versions of `gone` and `cut` have been on disk. */
  lemma DisconnectBlockFrom(m: Utxo, txs: seq<Tx>, h: nat, maturity: nat, v: Utxo, gone: set<Hash>, cut: set<Hash>)
    requires WellFormed(m) && BlockOk(m, txs, h, maturity)
    requires v == Worn(ApplyBlock(m, txs, h), gone, cut)
    ensures WellFormed(ApplyBlock(m, txs, h))
    ensures UndosFit(txs, BlockUndo(m, txs, h))
    ensures DisconnectBlock(v, txs, BlockUndo(m, txs, h), h)
              == (Worn(m, gone + Gone(m, ApplyBlock(m, txs, h)), cut),
                  StakesIntact(txs, |txs|, ApplyBlock(m, txs, h), gone))
  {
    hide WellFormed, Worn, StakesIntact, ReadBack, BlockUndo;
    TxsOkAreReady(m, txs, h, maturity, |txs|);
    BlockUndoFits(m, txs, h);
    DisconnectFirstUndoes(m, txs, h, |txs|, v, gone, cut);
  }

  /** DisconnectBlock undoes ConnectBlock, through the undo file: no mismatch is reported, and
      every output, height and coinbase flag is back. Records that the block emptied have lost
      their coinstake flag, and of a negative version all but seven bits. */
  lemma DisconnectUndoesConnect(m: Utxo, txs: seq<Tx>, h: nat, maturity: nat)
    requires WellFormed(m) && BlockOk(m, txs, h, maturity) && maturity >= 1
    ensures UndosFit(txs, BlockUndo(m, txs, h))
    ensures DisconnectBlock(ApplyBlock(m, txs, h), txs, BlockUndo(m, txs, h), h)
              == (Worn(m, Gone(m, ApplyBlock(m, txs, h)), {}), true)
  {
    hide Worn, WellFormed, BlockUndo, DisconnectBlock, TxsOk;
    var m' := ApplyBlock(m, txs, h);
    WornNothing(m');
    DisconnectBlockFrom(m, txs, h, maturity, m', {}, {});
    StakesSurviveTheirBlock(m, txs, h, maturity, |txs|);
    assert {} + Gone(m, m') == Gone(m, m');
  }

  /** ... so the old state is back exactly when the block emptied no coinstake and no record with a
      negative version. */
  lemma DisconnectExactIff(m: Utxo, txs: seq<Tx>, h: nat, maturity: nat)
    requires WellFormed(m) && BlockOk(m, txs, h, maturity) && maturity >= 1
    ensures UndosFit(txs, BlockUndo(m, txs, h))
    ensures DisconnectBlock(ApplyBlock(m, txs, h), txs, BlockUndo(m, txs, h), h).0 == m <==>
            forall t | t in Gone(m, ApplyBlock(m, txs, h)) :: !m[t].coinStake && m[t].version >= 0
  {
    hide BlockUndo, DisconnectBlock, BlockOk, CutVersion;
    DisconnectUndoesConnect(m, txs, h, maturity);
    var gone := Gone(m, ApplyBlock(m, txs, h));
    if forall t | t in gone :: !m[t].coinStake && m[t].version >= 0 {
      SameView(Worn(m, gone, {}), m);
    } else {
      var t :| t in gone && !(!m[t].coinStake && m[t].version >= 0);
      assert Worn(m, gone, {})[t] != m[t];
    }
  }

  // ----- a chain of blocks -----

  /** The coins after the first `k` of `blocks`, connected on top of height `h`. */
  function StateAt(m: Utxo, blocks: seq<seq<Tx>>, h: nat, k: nat): Utxo
    requires k <= |blocks|
  {
    if k == 0 then m else ApplyBlock(StateAt(m, blocks, h, k - 1), blocks[k - 1], h + k)
  }

  /** The undo data written while connecting them. */
  function ChainUndo(m: Utxo, blocks: seq<seq<Tx>>, h: nat): seq<seq<seq<TxInUndo>>> {
    seq(|blocks|, k requires 0 <= k < |blocks| => BlockUndo(StateAt(m, blocks, h, k), blocks[k], h + k + 1))
  }

  /** The first `k` blocks pass their checks in turn. */
  predicate ChainOk(m: Utxo, blocks: seq<seq<Tx>>, h: nat, maturity: nat, k: nat)
    requires k <= |blocks|
  {
    k == 0 ||
    (ChainOk(m, blocks, h, maturity, k - 1) && BlockOk(StateAt(m, blocks, h, k - 1), blocks[k - 1], h + k, maturity))
  }

  predicate ChainUndoFits(blocks: seq<seq<Tx>>, undos: seq<seq<seq<TxInUndo>>>) {
    && |blocks| == |undos|
    && forall k | 0 <= k < |blocks| :: UndosFit(blocks[k], undos[k])
  }

  /** Disconnect the first `k` blocks again, tip first; the flag says that every
      DisconnectBlock succeeded. */
  function RollBack(v: Utxo, blocks: seq<seq<Tx>>, undos: seq<seq<seq<TxInUndo>>>, h: nat, k: nat): (Utxo, bool)
    requires k <= |blocks| && ChainUndoFits(blocks, undos)
    decreases k
  {
    if k == 0 then (v, true)
    else
      var (v1, ok1) := DisconnectBlock(v, blocks[k - 1], undos[k - 1], h + k);
      var (v2, ok2) := RollBack(v1, blocks, undos, h, k - 1);
      (v2, ok1 && ok2)
  }

  /** The records emptied by some of the first `k` blocks. */
  ghost function Lost(m: Utxo, blocks: seq<seq<Tx>>, h: nat, k: nat): set<Hash>
    requires k <= |blocks|
  {
    if k == 0 then {}
    else Lost(m, blocks, h, k - 1) + Gone(StateAt(m, blocks, h, k - 1), StateAt(m, blocks, h, k))
  }

  /** Block by block, tip first: the disconnect sees every coinstake with its flag. */
  ghost predicate StakesKept(m: Utxo, blocks: seq<seq<Tx>>, h: nat, k: nat, gone: set<Hash>)
    requires k <= |blocks|
  {
    k == 0 ||
    (var m1, m' := StateAt(m, blocks, h, k - 1), StateAt(m, blocks, h, k);
     && StakesIntact(blocks[k - 1], |blocks[k - 1]|, m', gone)
     && StakesKept(m, blocks, h, k - 1, gone + Gone(m1, m')))
  }

  lemma {:induction false} StatesWellFormed(m: Utxo, blocks: seq<seq<Tx>>, h: nat, maturity: nat, k: nat)
    requires WellFormed(m) && k <= |blocks| && ChainOk(m, blocks, h, maturity, k)
    ensures WellFormed(StateAt(m, blocks, h, k))
  {
    hide ApplyBlock, WellFormed, BlockOk, Worn;
    if k > 0 {
      StatesWellFormed(m, blocks, h, maturity, k - 1);
      var m1 := StateAt(m, blocks, h, k - 1);
      DisconnectBlockFrom(m1, blocks[k - 1], h + k, maturity, Worn(StateAt(m, blocks, h, k), {}, {}), {}, {});
    }
  }

  lemma ChainUndosFit(m: Utxo, blocks: seq<seq<Tx>>, h: nat)
    ensures ChainUndoFits(blocks, ChainUndo(m, blocks, h))
  {
    hide StateAt, BlockUndo;
    forall k | 0 <= k < |blocks|
      ensures UndosFit(blocks[k], ChainUndo(m, blocks, h)[k])
    {
      BlockUndoFits(StateAt(m, blocks, h, k), blocks[k], h + k + 1);
    }
  }

  lemma ChainUndoAt(m: Utxo, blocks: seq<seq<Tx>>, h: nat, k: nat)
    requires k < |blocks|
    ensures ChainUndo(m, blocks, h)[k] == BlockUndo(StateAt(m, blocks, h, k), blocks[k], h + k + 1)
  {
    hide StateAt, BlockUndo;
  }

  lemma {:induction false} RollBackFrom(m: Utxo, blocks: seq<seq<Tx>>, h: nat, maturity: nat, k: nat,
                                       v: Utxo, gone: set<Hash>, cut: set<Hash>)
    requires WellFormed(m) && k <= |blocks| && ChainOk(m, blocks, h, maturity, k)
    requires ChainUndoFits(blocks, ChainUndo(m, blocks, h))
    requires v == Worn(StateAt(m, blocks, h, k), gone, cut)
    ensures RollBack(v, blocks, ChainUndo(m, blocks, h), h, k)
              == (Worn(m, gone + Lost(m, blocks, h, k), cut), StakesKept(m, blocks, h, k, gone))
  {
    hide Worn, WellFormed, BlockOk, ApplyBlock, BlockUndo, DisconnectBlock, StakesIntact, ChainUndo;
    if k == 0 {
      assert gone + {} == gone;
    } else {
      var m1, m' := StateAt(m, blocks, h, k - 1), StateAt(m, blocks, h, k);
      var gone1 := gone + Gone(m1, m');
      StatesWellFormed(m, blocks, h, maturity, k - 1);
      ChainUndoAt(m, blocks, h, k - 1);
      DisconnectBlockFrom(m1, blocks[k - 1], h + k, maturity, v, gone, cut);
      RollBackFrom(m, blocks, h, maturity, k - 1, Worn(m1, gone1, cut), gone1, cut);
      assert gone1 + Lost(m, blocks, h, k - 1) == gone + Lost(m, blocks, h, k);
    }
  }

  // ----- when a rollback goes through -----

  /** The coinstakes of `txs` are live in `m`. */
  ghost predicate StakesLive(txs: seq<Tx>, m: Utxo) {
    forall i | 0 <= i < |txs| && txs[i].IsCoinStake() :: txs[i].id in m
  }

  /** No coinstake of `txs` has lost its flag. */
  ghost predicate StakesOutside(txs: seq<Tx>, gone: set<Hash>) {
    forall i | 0 <= i < |txs| && txs[i].IsCoinStake() :: txs[i].id !in gone
  }

  /** Every coinstake of the first `k` blocks is live after its own block and after every later one. */
  ghost predicate StakesStayLive(m: Utxo, blocks: seq<seq<Tx>>, h: nat, k: nat)
    requires k <= |blocks|
  {
    forall i, j | 0 <= i < j <= k :: StakesLive(blocks[i], StateAt(m, blocks, h, j))
  }

  lemma LaterBlocksSeeIt(txs: seq<Tx>, m1: Utxo, m': Utxo, gone: set<Hash>)
    requires StakesLive(txs, m1)
    ensures StakesOutside(txs, gone + Gone(m1, m')) <==> StakesOutside(txs, gone) && StakesLive(txs, m')
  {
    if StakesOutside(txs, gone) && StakesLive(txs, m') {
      assert forall i | 0 <= i < |txs| && txs[i].IsCoinStake() :: txs[i].id in m';
    }
  }

  lemma IntactIsLiveAndOutside(txs: seq<Tx>, m': Utxo, gone: set<Hash>)
    ensures StakesIntact(txs, |txs|, m', gone) <==> StakesLive(txs, m') && StakesOutside(txs, gone)
  {
  }

  lemma {:induction false} StakesKeptIff(m: Utxo, blocks: seq<seq<Tx>>, h: nat, k: nat, gone: set<Hash>)
    requires k <= |blocks|
    ensures StakesKept(m, blocks, h, k, gone) <==>
            StakesStayLive(m, blocks, h, k) && forall i | 0 <= i < k :: StakesOutside(blocks[i], gone)
  {
    hide StateAt, StakesIntact, StakesLive, StakesOutside, Gone;
    if k > 0 {
      var m1, m' := StateAt(m, blocks, h, k - 1), StateAt(m, blocks, h, k);
      StakesKeptIff(m, blocks, h, k - 1, gone + Gone(m1, m'));
      IntactIsLiveAndOutside(blocks[k - 1], m', gone);
      if StakesStayLive(m, blocks, h, k - 1) {
        forall i | 0 <= i < k - 1
          ensures StakesOutside(blocks[i], gone + Gone(m1, m')) <==>
                  StakesOutside(blocks[i], gone) && StakesLive(blocks[i], m')
        {
          LaterBlocksSeeIt(blocks[i], m1, m', gone);
        }
      }
    }
  }

  /** Rolling a chain back: the state comes back up to the coinstake flag and the version of the
      records that were emptied on the way, and the rollback goes through exactly when no
      coinstake of the chain was emptied by a later block of it. */
  lemma RollbackIff(m: Utxo, blocks: seq<seq<Tx>>, h: nat, maturity: nat)
    requires WellFormed(m) && ChainOk(m, blocks, h, maturity, |blocks|)
    ensures ChainUndoFits(blocks, ChainUndo(m, blocks, h))
    ensures RollBack(StateAt(m, blocks, h, |blocks|), blocks, ChainUndo(m, blocks, h), h, |blocks|)
              == (Worn(m, Lost(m, blocks, h, |blocks|), {}), StakesStayLive(m, blocks, h, |blocks|))
  {
    hide Worn, WellFormed, ChainOk, StateAt, ChainUndo, RollBack, StakesKept, StakesStayLive, Lost;
    var n := |blocks|;
    ChainUndosFit(m, blocks, h);
    WornNothing(StateAt(m, blocks, h, n));
    RollBackFrom(m, blocks, h, maturity, n, StateAt(m, blocks, h, n), {}, {});
    StakesKeptIff(m, blocks, h, n, {});
    assert {} + Lost(m, blocks, h, n) == Lost(m, blocks, h, n);
  }

  // ----- how deep a rollback is safe -----

  /** A flagged record too young to be spent is untouched by a block. */
  lemma {:induction false} YoungStakeStays(m: Utxo, txs: seq<Tx>, h: nat, maturity: nat, k: nat, t: Hash)
    requires k <= |txs| && TxsOk(m, txs, h, maturity, k) && t in m && forall i | 0 <= i < k :: txs[i].id != t
    requires m[t].coinStake && h - m[t].height < maturity
    ensures t in ApplyFirst(m, txs, h, k) && ApplyFirst(m, txs, h, k)[t] == m[t]
  {
    hide ApplyTx, TxOk;
    if k > 0 {
      YoungStakeStays(m, txs, h, maturity, k - 1, t);
      TxLeavesYoungStake(ApplyFirst(m, txs, h, k - 1), txs[k - 1], h, maturity, t);
    }
  }

  lemma TxLeavesYoungStake(m: Utxo, tx: Tx, h: nat, maturity: nat, t: Hash)
    requires TxOk(m, tx, h, maturity) && t in m && tx.id != t && m[t].coinStake && h - m[t].height < maturity
    ensures t in ApplyTx(m, tx, h) && ApplyTx(m, tx, h)[t] == m[t]
  {
    hide SpendFirst, CoinsOf;
    if !tx.IsCoinBase() {
      assert forall j | 0 <= j < |tx.vin| :: tx.vin[j].hash != t;
      SpendFirstElsewhere(m, tx.vin, |tx.vin|, t);
    }
  }

  /** Block i's coinstakes stand as they were created until `maturity` blocks lie on top of them. */
  lemma {:induction false} YoungStakesStand(m: Utxo, blocks: seq<seq<Tx>>, h: nat, maturity: nat, i: nat, j: nat)
    requires i < j <= |blocks| && j - i <= maturity && ChainOk(m, blocks, h, maturity, j)
    ensures StakesFresh(blocks[i], |blocks[i]|, StateAt(m, blocks, h, j), h + i + 1)
    decreases j
  {
    hide ApplyFirst, TxsOk, DistinctIds;
    var m1, txs := StateAt(m, blocks, h, j - 1), blocks[j - 1];
    assert BlockOk(m1, txs, h + j, maturity);
    if j - 1 == i {
      StakesSurviveTheirBlock(m1, txs, h + j, maturity, |txs|);
    } else {
      YoungStakesStand(m, blocks, h, maturity, i, j - 1);
      forall x | 0 <= x < |blocks[i]| && blocks[i][x].IsCoinStake()
        ensures var t := blocks[i][x].id; t in m1 && t in ApplyBlock(m1, txs, h + j) && ApplyBlock(m1, txs, h + j)[t] == m1[t]
      {
        YoungStakeStays(m1, txs, h + j, maturity, |txs|, blocks[i][x].id);
      }
    }
  }

  /** Rolling back no more blocks than the maturity always goes through: their coinstakes are too
      young to have been spent. RollbackWitness has a chain one block longer that fails. */
  lemma ShallowRollbackSucceeds(m: Utxo, blocks: seq<seq<Tx>>, h: nat, maturity: nat)
    requires WellFormed(m) && ChainOk(m, blocks, h, maturity, |blocks|) && |blocks| <= maturity
    ensures ChainUndoFits(blocks, ChainUndo(m, blocks, h))
    ensures RollBack(StateAt(m, blocks, h, |blocks|), blocks, ChainUndo(m, blocks, h), h, |blocks|)
              == (Worn(m, Lost(m, blocks, h, |blocks|), {}), true)
  {
    hide Worn, WellFormed, BlockOk, ApplyBlock, ChainUndo, RollBack, Lost;
    RollbackIff(m, blocks, h, maturity);
    forall i, j | 0 <= i < j <= |blocks|
      ensures StakesLive(blocks[i], StateAt(m, blocks, h, j))
    {
      ChainOkPrefix(m, blocks, h, maturity, j, |blocks|);
      YoungStakesStand(m, blocks, h, maturity, i, j);
    }
  }

  lemma {:induction false} ChainOkPrefix(m: Utxo, blocks: seq<seq<Tx>>, h: nat, maturity: nat, j: nat, k: nat)
    requires j <= k <= |blocks| && ChainOk(m, blocks, h, maturity, k)
    ensures ChainOk(m, blocks, h, maturity, j)
  {
    hide StateAt, BlockOk;
    if j < k {
      ChainOkPrefix(m, blocks, h, maturity, j, k - 1);
    }
  }
}
