/** The indexes and the money supply across whole blocks: connecting keeps them in step with the
    coins, disconnecting brings them back. */
module IndexBlocks {
  import opened Options
  import opened Coins
  import opened CoinsCache
  import opened BlockCoins
  import opened Undo
  import opened CoinSums
  import opened AddressIndex

  /** What must hold before a block's first transaction. */
  ghost predicate BlockFits(m: Utxo, txs: seq<Tx>, h: nat) {
    && WellFormed(m) && h >= 1 && DistinctIds(txs) && TxsReady(m, txs, h, |txs|)
    && forall i | 0 <= i < |txs| :: txs[i].id !in m
  }

  lemma {:induction false} TxsReadyPrefix(m: Utxo, txs: seq<Tx>, h: nat, i: nat, k: nat)
    requires i <= k <= |txs| && TxsReady(m, txs, h, k)
    ensures TxsReady(m, txs, h, i)
    ensures i > 0 ==> TxReady(ApplyFirst(m, txs, h, i - 1), txs[i - 1])
  {
    hide ApplyFirst, TxReady;
    if i < k {
      TxsReadyPrefix(m, txs, h, i, k - 1);
    }
  }

  /** The state before transaction `k - 1` of a block. */
  lemma BlockStep(m: Utxo, txs: seq<Tx>, h: nat, k: nat)
    requires BlockFits(m, txs, h) && 0 < k <= |txs|
    ensures var m1 := ApplyFirst(m, txs, h, k - 1);
            && WellFormed(m1) && TxReady(m1, txs[k - 1])
            && ApplyFirst(m, txs, h, k) == ApplyTx(m1, txs[k - 1], h)
            && forall i | k <= i < |txs| :: txs[i].id !in m1
  {
    hide ApplyTx, WellFormed, TxReady;
    TxsReadyPrefix(m, txs, h, k, |txs|);
    TxsReadyPrefix(m, txs, h, k - 1, |txs|);
    ApplyFirstKeepsWellFormed(m, txs, h, k - 1);
  }

  /** Connecting a block keeps the indexes in step with the coins, transaction by transaction,
      and never writes a delta or spent entry over an existing one. */
  lemma {:induction false} ConnectIndexKeeps(ix: Index, m: Utxo, txs: seq<Tx>, h: nat, key: Indexer, k: nat)
    requires BlockFits(m, txs, h) && IndexReady(ix, m, txs, h, key) && IndexesSpendable(key) && k <= |txs|
    ensures IndexMidway(ConnectIndex(ix, m, txs, h, key, k), ApplyFirst(m, txs, h, k), txs, h, key, k)
    ensures k > 0 ==>
              var m1 := ApplyFirst(m, txs, h, k - 1);
              var es := Events(txs[k - 1], Prevouts(m1, txs[k - 1]), k - 1, h, key);
              FreshAll(ConnectIndex(ix, m, txs, h, key, k - 1), es, |es|)
  {
    hide ApplyTx, WellFormed, TxReady, TxsReady, LiveOf, Agrees, Replay, Events, FreshAll, SpentIsGone, Unspent, IndexesSpendable;
    if k > 0 {
      ConnectIndexKeeps(ix, m, txs, h, key, k - 1);
      BlockStep(m, txs, h, k);
      ConnectIndexStep(ConnectIndex(ix, m, txs, h, key, k - 1), ApplyFirst(m, txs, h, k - 1), txs, h, key, k,
                       ApplyFirst(m, txs, h, k));
    }
  }

  /** Undo heights line up with the events of the transaction. */
  lemma UndoneEvents(m: Utxo, tx: Tx, i: nat, h: nat, key: Indexer, undos: seq<TxInUndo>)
    requires TxReady(m, tx) && undos == TxUndo(m, tx)
    ensures UndoFits(tx, undos)
    ensures UndoneOutputs(tx, undos) == Prevouts(m, tx)
    ensures |UndoHeights(tx, undos)| == |Events(tx, Prevouts(m, tx), i, h, key)|
  {
    hide TxReady, TxUndo, Prevout;
    UndoRemembersPrevouts(m, tx);
  }

  /** What DisconnectBlock does to the indexes for the last of the first `k` transactions. */
  lemma DisconnectIndexStep(ix': Index, txs: seq<Tx>, undos: seq<seq<TxInUndo>>, h: nat, key: Indexer, k: nat)
    requires 0 < k <= |txs| && UndosFit(txs, undos)
    ensures var es := Events(txs[k - 1], UndoneOutputs(txs[k - 1], undos[k - 1]), k - 1, h, key);
            var hs := UndoHeights(txs[k - 1], undos[k - 1]);
            |es| == |hs| &&
            DisconnectIndex(ix', txs, undos, h, key, k)
              == DisconnectIndex(TakeBack(ix', es, hs, |es|), txs, undos, h, key, k - 1)
  {
  }

  /** `ix'` differs from `ix` at most in the unspent index, which agrees with `m`. */
  ghost predicate InStep(ix': Index, ix: Index, m: Utxo, key: Indexer) {
    ix'.deltas == ix.deltas && ix'.spent == ix.spent && Agrees(ix'.unspent, key, LiveOf(m))
  }

  lemma TakeBackTx(ix1: Index, ix': Index, m1: Utxo, tx: Tx, i: nat, h: nat, key: Indexer, heights: seq<nat>)
    requires TxReady(m1, tx) && WellFormed(m1) && IndexesSpendable(key)
    requires var es := Events(tx, Prevouts(m1, tx), i, h, key);
             && |heights| == |es| && FreshAll(ix1, es, |es|)
             && InStep(ix', Replay(ix1, es, |es|), ApplyTx(m1, tx, h), key)
    ensures var es := Events(tx, Prevouts(m1, tx), i, h, key);
            InStep(TakeBack(ix', es, heights, |es|), ix1, m1, key)
  {
    hide TxReady, WellFormed, Events, FreshAll, Replay, TakeBack, FitsAll, LiveAfter, LiveOf, Agrees, ApplyTx, IndexesSpendable;
    var es := Events(tx, Prevouts(m1, tx), i, h, key);
    TxEventsFit(m1, tx, i, h, key);
    TakeBackUndoesReplay(ix1, ix', es, heights, |es|);
    TakeBackAgrees(ix', key, LiveOf(m1), es, heights, |es|);
  }

  /** Disconnecting the first `k` transactions brings back the deltas and the spent index
      exactly, and the unspent index in every key, amount and script. */
  lemma {:induction false} DisconnectIndexUndoes(ix: Index, ix': Index, m: Utxo, txs: seq<Tx>, h: nat, key: Indexer, k: nat)
    requires BlockFits(m, txs, h) && IndexReady(ix, m, txs, h, key) && IndexesSpendable(key) && k <= |txs|
    requires UndosFit(txs, BlockUndo(m, txs, h))
    requires InStep(ix', ConnectIndex(ix, m, txs, h, key, k), ApplyFirst(m, txs, h, k), key)
    ensures InStep(DisconnectIndex(ix', txs, BlockUndo(m, txs, h), h, key, k), ix, m, key)
    decreases k
  {
    hide ApplyTx, WellFormed, TxReady, LiveOf, Agrees, Replay, Events, FreshAll, IndexReady, IndexMidway, InStep,
         TakeBack, IndexesSpendable, DisconnectIndex, BlockUndo, UndoneOutputs, UndoHeights, BlockFits, UndoFits,
         DistinctIds, TxsReady, ConnectIndex, ApplyFirst;
    if k == 0 {
      ConnectIndexUnfold(ix, m, txs, h, key, 0);
      assert ApplyFirst(m, txs, h, 0) == m by { ApplyNothing(m, txs, h); }
      assert DisconnectIndex(ix', txs, BlockUndo(m, txs, h), h, key, 0) == ix' by {
        DisconnectNothing(ix', txs, BlockUndo(m, txs, h), h, key);
      }
    } else {
      var m1, tx := ApplyFirst(m, txs, h, k - 1), txs[k - 1];
      var undos := BlockUndo(m, txs, h);
      var ix1 := ConnectIndex(ix, m, txs, h, key, k - 1);
      BlockStep(m, txs, h, k);
      BlockUndoAt(m, txs, h, k - 1);
      ConnectIndexUnfold(ix, m, txs, h, key, k);
      ConnectIndexKeeps(ix, m, txs, h, key, k);
      UndoneEvents(m1, tx, k - 1, h, key, undos[k - 1]);
      var es := Events(tx, Prevouts(m1, tx), k - 1, h, key);
      TakeBackTx(ix1, ix', m1, tx, k - 1, h, key, UndoHeights(tx, undos[k - 1]));
      DisconnectIndexStep(ix', txs, undos, h, key, k);
      DisconnectIndexUndoes(ix, TakeBack(ix', es, UndoHeights(tx, undos[k - 1]), |es|), m, txs, h, key, k - 1);
    }
  }

  lemma ApplyNothing(m: Utxo, txs: seq<Tx>, h: nat)
    ensures ApplyFirst(m, txs, h, 0) == m
  {
  }

  lemma DisconnectNothing(ix': Index, txs: seq<Tx>, undos: seq<seq<TxInUndo>>, h: nat, key: Indexer)
    requires UndosFit(txs, undos)
    ensures DisconnectIndex(ix', txs, undos, h, key, 0) == ix'
  {
  }

  // ----- balances -----

  /** An output counts towards the address it pays to. */
  function PaidTo(key: Indexer, a: Address): Weight {
    (o: TxOut) => if key(o.script) == Some(a) then o.value else 0
  }

  lemma {:induction false} CreditsOfTx(m: Utxo, tx: Tx, i: nat, h: nat, key: Indexer, a: Address, k: nat)
    requires IndexesSpendable(key)
    requires k <= |Inputs(tx)| + |tx.vout|
    ensures var es := Events(tx, Prevouts(m, tx), i, h, key);
            var nIn := |Inputs(tx)|;
            Credits(es, a, k) == if k <= nIn then -InSum(m, Inputs(tx), PaidTo(key, a), k)
                                 else OutSum(tx, PaidTo(key, a), k - nIn) - InSum(m, Inputs(tx), PaidTo(key, a), nIn)
  {
    hide Prevout, Credit, PaidTo;
    if k > 0 {
      CreditsOfTx(m, tx, i, h, key, a, k - 1);
      CreditOfEvent(m, tx, i, h, key, a, k - 1);
    }
  }

  lemma CreditOfEvent(m: Utxo, tx: Tx, i: nat, h: nat, key: Indexer, a: Address, p: nat)
    requires IndexesSpendable(key) && p < |Inputs(tx)| + |tx.vout|
    ensures var e, nIn := EventAt(tx, Prevouts(m, tx), i, h, key, p), |Inputs(tx)|;
            Credit(e, a) == if p < nIn then -PaidTo(key, a)(Prevout(m, tx.vin[p]))
                            else if tx.vout[p - nIn].IsUnspendable() then 0 else PaidTo(key, a)(tx.vout[p - nIn])
  {
    hide Prevout;
    if p >= |Inputs(tx)| {
      var o := tx.vout[p - |Inputs(tx)|];
      assert o.IsUnspendable() ==> key(o.script) == None;
    }
  }

  /** Connecting a block changes the stored deltas of an address by as much as its unspent
      outputs. */
  lemma {:induction false} BalanceMoves(ix: Index, m: Utxo, txs: seq<Tx>, h: nat, key: Indexer, a: Address, k: nat)
    requires BlockFits(m, txs, h) && IndexReady(ix, m, txs, h, key) && IndexesSpendable(key) && k <= |txs|
    ensures SumDeltas(ConnectIndex(ix, m, txs, h, key, k).deltas, a) - SumDeltas(ix.deltas, a)
              == SumOf(ApplyFirst(m, txs, h, k), PaidTo(key, a)) - SumOf(m, PaidTo(key, a))
  {
    hide ApplyTx, WellFormed, TxReady, TxsReady, Replay, Events, FreshAll, IndexReady, IndexMidway, SumDeltas, SumOf,
         IndexesSpendable, PaidTo, InSum, OutSum, Credits, ConnectIndex, BlockFits;
    if k > 0 {
      BalanceMoves(ix, m, txs, h, key, a, k - 1);
      var m1, tx, ix1 := ApplyFirst(m, txs, h, k - 1), txs[k - 1], ConnectIndex(ix, m, txs, h, key, k - 1);
      var es := Events(tx, Prevouts(m1, tx), k - 1, h, key);
      BlockStep(m, txs, h, k);
      ConnectIndexKeeps(ix, m, txs, h, key, k);
      ConnectIndexUnfold(ix, m, txs, h, key, k);
      SumAfterReplay(ix1, es, a, |es|);
      EventCount(tx, Prevouts(m1, tx), k - 1, h, key);
      CreditsOfTx(m1, tx, k - 1, h, key, a, |es|);
      SumAfterTx(m1, tx, h, PaidTo(key, a));
      NoOutputs(tx, PaidTo(key, a));
      NoInputs(m1, tx, PaidTo(key, a));
    } else {
      ConnectIndexUnfold(ix, m, txs, h, key, 0);
    }
  }

  lemma ConnectIndexUnfold(ix: Index, m: Utxo, txs: seq<Tx>, h: nat, key: Indexer, k: nat)
    requires k <= |txs|
    ensures ConnectIndex(ix, m, txs, h, key, k) == if k == 0 then ix else
              var es := Events(txs[k - 1], Prevouts(ApplyFirst(m, txs, h, k - 1), txs[k - 1]), k - 1, h, key);
              Replay(ConnectIndex(ix, m, txs, h, key, k - 1), es, |es|)
  {
  }

  lemma NoOutputs(tx: Tx, w: Weight)
    ensures OutSum(tx, w, 0) == 0
  {
  }

  lemma NoInputs(m: Utxo, tx: Tx, w: Weight)
    ensures InSum(m, Inputs(tx), w, |Inputs(tx)|) == if tx.IsCoinBase() then 0 else InSum(m, tx.vin, w, |tx.vin|)
  {
  }
}
