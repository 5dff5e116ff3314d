/** The node's ledger over whole runs: coins, indexes, undo data and money supply, under any
    sequence of ConnectTip and DisconnectTip (src/main.cpp:2241-2383, 2506-2634). */
module Ledger {
  import opened Options
  import opened Coins
  import opened CoinsCache
  import opened BlockCoins
  import opened Undo
  import opened Rollback
  import opened CoinSums
  import opened AddressIndex
  import opened IndexBlocks

  // ----- money supply of a block -----

  function AMOUNT(): Weight { (o: TxOut) => o.value }

  /** GetValueOut: every output counts, spendable or not. */
  function ValueOut(tx: Tx, k: nat): int
    requires k <= |tx.vout|
  {
    if k == 0 then 0 else ValueOut(tx, k - 1) + tx.vout[k - 1].value
  }

  /** GetValueIn: nothing for a coinbase. */
  function ValueIn(m: Utxo, tx: Tx): int { InSum(m, Inputs(tx), AMOUNT(), |Inputs(tx)|) }

  /** nValueOut - nValueIn after the first `k` transactions. */
  function Minted(m: Utxo, txs: seq<Tx>, h: nat, k: nat): int
    requires k <= |txs|
  {
    if k == 0 then 0
    else Minted(m, txs, h, k - 1) + ValueOut(txs[k - 1], |txs[k - 1].vout|) - ValueIn(ApplyFirst(m, txs, h, k - 1), txs[k - 1])
  }

  /** The value sent to provably unspendable outputs. */
  function Burned(txs: seq<Tx>, k: nat): int
    requires k <= |txs|
  {
    if k == 0 then 0
    else Burned(txs, k - 1) + ValueOut(txs[k - 1], |txs[k - 1].vout|) - OutSum(txs[k - 1], AMOUNT(), |txs[k - 1].vout|)
  }

  lemma {:induction false} SupplyMoves(m: Utxo, txs: seq<Tx>, h: nat, k: nat)
    requires BlockFits(m, txs, h) && k <= |txs|
    ensures SumOf(ApplyFirst(m, txs, h, k), AMOUNT()) + Burned(txs, k) == SumOf(m, AMOUNT()) + Minted(m, txs, h, k)
  {
    hide ApplyTx, WellFormed, TxReady, BlockFits, SumOf, AMOUNT, InSum, OutSum, ValueOut;
    if k > 0 {
      SupplyMoves(m, txs, h, k - 1);
      BlockStep(m, txs, h, k);
      SumAfterTx(ApplyFirst(m, txs, h, k - 1), txs[k - 1], h, AMOUNT());
      NoInputs(ApplyFirst(m, txs, h, k - 1), txs[k - 1], AMOUNT());
    }
  }

  lemma {:induction false} BurnedIsNotNegative(tx: Tx, k: nat)
    requires k <= |tx.vout| && OutputsOk(tx)
    ensures OutSum(tx, AMOUNT(), k) <= ValueOut(tx, k)
  {
    if k > 0 {
      BurnedIsNotNegative(tx, k - 1);
    }
  }

  // ----- the spent entries of a block -----

  function EntryOf(e: Event): SpentValue { SpentValue(e.txid, e.n, e.height, e.txout.value, e.addr) }

  /** Replaying events adds the entries of the spending ones, and nothing else. */
  lemma {:induction false} ReplaySpent(ix: Index, es: seq<Event>, k: nat)
    requires k <= |es| && FreshAll(ix, es, k)
    ensures var s := Replay(ix, es, k).spent;
            && (forall out | out in ix.spent :: out in s && s[out] == ix.spent[out])
            && (forall p | 0 <= p < k && es[p].spending :: es[p].out in s && s[es[p].out] == EntryOf(es[p]))
            && (forall out | out in s :: out in ix.spent || exists p :: 0 <= p < k && es[p].spending && es[p].out == out)
  {
    if k > 0 {
      ReplaySpent(ix, es, k - 1);
      var s1, s := Replay(ix, es, k - 1).spent, Replay(ix, es, k).spent;
      assert Fresh(Replay(ix, es, k - 1), es[k - 1]);
      forall out | out in s
        ensures out in ix.spent || exists p :: 0 <= p < k && es[p].spending && es[p].out == out
      {
        if out !in s1 {
          assert es[k - 1].spending && es[k - 1].out == out;
        }
      }
    }
  }

  /** The spent entry of input `j` of transaction `i`, told by the undo data. */
  function SpentEntry(txs: seq<Tx>, undos: seq<seq<TxInUndo>>, h: nat, key: Indexer, i: nat, j: nat): SpentValue
    requires UndosFit(txs, undos) && i < |txs| && j < |Inputs(txs[i])|
  {
    SpentValue(txs[i].id, j, h, undos[i][j].txout.value, key(undos[i][j].txout.script))
  }

  predicate IsInput(txs: seq<Tx>, i: nat, j: nat, out: OutPoint) {
    i < |txs| && j < |Inputs(txs[i])| && txs[i].vin[j] == out
  }

  /** `s'` is `s` with the entries of the first `k` transactions added. */
  ghost predicate SpentAdded(s: map<OutPoint, SpentValue>, s': map<OutPoint, SpentValue>, txs: seq<Tx>,
                             undos: seq<seq<TxInUndo>>, h: nat, key: Indexer, k: nat)
    requires UndosFit(txs, undos)
  {
    && (forall out | out in s :: out in s' && s'[out] == s[out])
    && (forall i: nat, j: nat, out | i < k && IsInput(txs, i, j, out) ::
          out in s' && s'[out] == SpentEntry(txs, undos, h, key, i, j))
    && (forall out | out in s' :: out in s || exists i: nat, j: nat :: i < k && IsInput(txs, i, j, out))
  }

  lemma SpentAddedStep(s: map<OutPoint, SpentValue>, ix1: Index, txs: seq<Tx>, undos: seq<seq<TxInUndo>>, h: nat,
                       key: Indexer, k: nat, m1: Utxo)
    requires 0 < k <= |txs| && UndosFit(txs, undos) && SpentAdded(s, ix1.spent, txs, undos, h, key, k - 1)
    requires TxReady(m1, txs[k - 1]) && undos[k - 1] == TxUndo(m1, txs[k - 1])
    requires var es := Events(txs[k - 1], Prevouts(m1, txs[k - 1]), k - 1, h, key); FreshAll(ix1, es, |es|)
    ensures var es := Events(txs[k - 1], Prevouts(m1, txs[k - 1]), k - 1, h, key);
            SpentAdded(s, Replay(ix1, es, |es|).spent, txs, undos, h, key, k)
  {
    hide FreshAll, Replay, TxReady, TxUndo, Prevout;
    var tx := txs[k - 1];
    var es := Events(tx, Prevouts(m1, tx), k - 1, h, key);
    var s' := Replay(ix1, es, |es|).spent;
    ReplaySpent(ix1, es, |es|);
    UndoRemembersPrevouts(m1, tx);
    var found := UndoneOutputs(tx, undos[k - 1]);
    assert forall j | 0 <= j < |Inputs(tx)| :: found[j] == undos[k - 1][j].txout;
    forall i: nat, j: nat, out | i < k && IsInput(txs, i, j, out)
      ensures out in s' && s'[out] == SpentEntry(txs, undos, h, key, i, j)
    {
      if i == k - 1 {
        assert es[j].spending && es[j].out == out;
      }
    }
    forall out | out in s'
      ensures out in s || exists i: nat, j: nat :: i < k && IsInput(txs, i, j, out)
    {
      if out !in ix1.spent {
        var p :| 0 <= p < |es| && es[p].spending && es[p].out == out;
        assert IsInput(txs, k - 1, p, out);
      }
    }
  }

  lemma {:induction false} ConnectSpent(ix: Index, m: Utxo, txs: seq<Tx>, h: nat, key: Indexer, k: nat)
    requires BlockFits(m, txs, h) && IndexReady(ix, m, txs, h, key) && IndexesSpendable(key) && k <= |txs|
    requires UndosFit(txs, BlockUndo(m, txs, h))
    ensures SpentAdded(ix.spent, ConnectIndex(ix, m, txs, h, key, k).spent, txs, BlockUndo(m, txs, h), h, key, k)
  {
    hide ApplyTx, WellFormed, TxReady, TxsReady, Replay, Events, FreshAll, IndexReady, IndexMidway, IndexesSpendable,
         ConnectIndex, BlockFits, SpentAdded, BlockUndo, ApplyFirst, UndosFit, UndoFits, Prevouts, TxUndo, DistinctIds;
    ConnectIndexUnfold(ix, m, txs, h, key, k);
    if k == 0 {
      NothingAdded(ix.spent, txs, BlockUndo(m, txs, h), h, key);
    } else {
      ConnectSpent(ix, m, txs, h, key, k - 1);
      BlockStep(m, txs, h, k);
      BlockReady(m, txs, h, k);
      ApplyOneMore(m, txs, h, k);
      ConnectIndexKeeps(ix, m, txs, h, key, k);
      SpentAddedStep(ix.spent, ConnectIndex(ix, m, txs, h, key, k - 1), txs, BlockUndo(m, txs, h), h, key, k,
                     ApplyFirst(m, txs, h, k - 1));
    }
  }

  lemma NothingAdded(s: map<OutPoint, SpentValue>, txs: seq<Tx>, undos: seq<seq<TxInUndo>>, h: nat, key: Indexer)
    requires UndosFit(txs, undos)
    ensures SpentAdded(s, s, txs, undos, h, key, 0)
  {
  }

  lemma BlockReady(m: Utxo, txs: seq<Tx>, h: nat, k: nat)
    requires BlockFits(m, txs, h) && k <= |txs|
    ensures TxsReady(m, txs, h, k)
  {
    hide ApplyFirst, TxReady, WellFormed;
    TxsReadyPrefix(m, txs, h, k, |txs|);
  }

  // ----- the node -----

  /** A connected block with its undo data and the money supply recorded at it. */
  datatype Tip = Tip(txs: seq<Tx>, undos: seq<seq<TxInUndo>>, supply: int)

  /** The blocks of the active chain above genesis, and what is stored about them. */
  datatype Node = Node(coins: Utxo, index: Index, chain: seq<Tip>)

  const EMPTY_NODE := Node(map[], EMPTY_INDEX, [])

  datatype Params = Params(key: Indexer, maturity: nat, lastPow: nat, maxMoney: int)

  function Supply(chain: seq<Tip>): int { if chain == [] then 0 else chain[|chain| - 1].supply }

  function NextHeight(n: Node): nat { |n.chain| + 1 }

  function NextSupply(n: Node, txs: seq<Tx>): int {
    Supply(n.chain) + Minted(n.coins, txs, NextHeight(n), |txs|)
  }

  /** ConnectBlock goes through. */
  predicate Accepts(n: Node, txs: seq<Tx>, p: Params) {
    && BlockOk(n.coins, txs, NextHeight(n), p.maturity)
    && PeriodOk(txs, NextHeight(n), p.lastPow)
    && NextSupply(n, txs) <= p.maxMoney
  }

  function Connected(n: Node, txs: seq<Tx>, p: Params): Node {
    Node(ApplyBlock(n.coins, txs, NextHeight(n)),
         ConnectIndex(n.index, n.coins, txs, NextHeight(n), p.key, |txs|),
         n.chain + [Tip(txs, BlockUndo(n.coins, txs, NextHeight(n)), NextSupply(n, txs))])
  }

  predicate HasUndo(n: Node) {
    |n.chain| > 0 && UndosFit(n.chain[|n.chain| - 1].txs, n.chain[|n.chain| - 1].undos)
  }

  /** DisconnectBlock reports no mismatch at the tip. */
  predicate DisconnectIsClean(n: Node)
    requires HasUndo(n)
  {
    var tip := n.chain[|n.chain| - 1];
    DisconnectBlock(n.coins, tip.txs, tip.undos, |n.chain|).1
  }

  /** DisconnectTip. The index writes happen before fClean is looked at; the coins are only
      flushed when it is true. */
  function Disconnected(n: Node, p: Params): Node
    requires HasUndo(n)
  {
    var tip := n.chain[|n.chain| - 1];
    var index := DisconnectIndex(n.index, tip.txs, tip.undos, |n.chain|, p.key, |tip.txs|);
    if DisconnectIsClean(n)
    then Node(DisconnectBlock(n.coins, tip.txs, tip.undos, |n.chain|).0, index, n.chain[..|n.chain| - 1])
    else Node(n.coins, index, n.chain)
  }

  // ----- what a good node looks like -----

  function ChainBurned(chain: seq<Tip>, k: nat): int
    requires k <= |chain|
  {
    if k == 0 then 0 else ChainBurned(chain, k - 1) + Burned(chain[k - 1].txs, |chain[k - 1].txs|)
  }

  /** Input `j` of transaction `i` of the block at height `h` spends `out`. */
  predicate Spends(chain: seq<Tip>, h: nat, i: nat, j: nat, out: OutPoint) {
    1 <= h <= |chain| && IsInput(chain[h - 1].txs, i, j, out)
  }

  predicate ChainHasUndo(chain: seq<Tip>) {
    forall k | 0 <= k < |chain| :: UndosFit(chain[k].txs, chain[k].undos)
  }

  /** The spent index names exactly the outputs spent on the chain, each with its one spender;
      in particular no output is spent twice. */
  ghost predicate SpentNames(spent: map<OutPoint, SpentValue>, chain: seq<Tip>, key: Indexer)
    requires ChainHasUndo(chain)
  {
    && (forall h: nat, i: nat, j: nat, out | Spends(chain, h, i, j, out) ::
          out in spent && spent[out] == SpentEntry(chain[h - 1].txs, chain[h - 1].undos, h, key, i, j))
    && (forall out | out in spent :: exists h: nat, i: nat, j: nat :: Spends(chain, h, i, j, out))
  }

  ghost predicate BalancesMatch(n: Node, key: Indexer) {
    forall a :: SumDeltas(n.index.deltas, a) == SumOf(n.coins, PaidTo(key, a))
  }

  ghost predicate SupplyMatches(n: Node) {
    && Supply(n.chain) == SumOf(n.coins, AMOUNT()) + ChainBurned(n.chain, |n.chain|)
    && ChainBurned(n.chain, |n.chain|) >= 0
  }

  ghost predicate Written(ix: Index, live: imap<OutPoint, TxOut>, height: nat) {
    && (forall k | k in ix.deltas :: k.height <= height)
    && SpentIsGone(ix.spent, live)
  }

  /** Coins, undo data and supply. */
  ghost predicate GoodCoins(n: Node, p: Params) {
    && WellFormed(n.coins)
    && ChainHasUndo(n.chain)
    && NoDebt(LiveOf(n.coins))
    && SupplyMatches(n) && 0 <= Supply(n.chain) && (n.chain != [] ==> Supply(n.chain) <= p.maxMoney)
  }

  /** ... and the indexes. */
  ghost predicate Good(n: Node, p: Params) {
    && GoodCoins(n, p)
    && Agrees(n.index.unspent, p.key, LiveOf(n.coins))
    && BalancesMatch(n, p.key)
    && SpentNames(n.index.spent, n.chain, p.key)
    && Written(n.index, LiveOf(n.coins), |n.chain|)
  }

  /** No live output has a negative value. */
  ghost predicate NoDebt(live: imap<OutPoint, TxOut>) { forall out | out in live :: live[out].value >= 0 }

  /** No id of the block is the id of a transaction spent from earlier on the chain. */
  ghost predicate NewIds(n: Node, txs: seq<Tx>) {
    forall i | 0 <= i < |txs| :: Unspent(n.index.spent, txs[i].id)
  }

  // ----- connecting keeps a node good -----

  lemma AcceptedFits(n: Node, txs: seq<Tx>, p: Params)
    requires GoodCoins(n, p) && Accepts(n, txs, p)
    ensures BlockFits(n.coins, txs, NextHeight(n))
    ensures WellFormed(ApplyBlock(n.coins, txs, NextHeight(n)))
  {
    hide WellFormed, ApplyFirst, TxsOk, TxsReady, LiveOf, SumOf, SupplyMatches;
    TxsOkAreReady(n.coins, txs, NextHeight(n), p.maturity, |txs|);
  }

  lemma ReadyForNext(n: Node, txs: seq<Tx>, p: Params)
    requires Good(n, p) && NewIds(n, txs)
    ensures IndexReady(n.index, n.coins, txs, NextHeight(n), p.key)
  {
    hide WellFormed, LiveOf, Agrees, SpentNames, BalancesMatch, SupplyMatches, Unspent;
  }

  lemma SpentNamesGrow(n: Node, txs: seq<Tx>, p: Params, tip: Tip)
    requires ChainHasUndo(n.chain) && SpentNames(n.index.spent, n.chain, p.key)
    requires UndosFit(tip.txs, tip.undos) && tip.txs == txs
    requires SpentAdded(n.index.spent, Connected(n, txs, p).index.spent, txs, tip.undos, NextHeight(n), p.key, |txs|)
    requires forall h: nat, i: nat, j: nat, out | Spends(n.chain, h, i, j, out) :: Spends(n.chain + [tip], h, i, j, out)
    ensures ChainHasUndo(n.chain + [tip])
    ensures SpentNames(Connected(n, txs, p).index.spent, n.chain + [tip], p.key)
  {
    hide ConnectIndex, ApplyBlock, BlockUndo, UndosFit, Minted;
    var s, s', chain', H := n.index.spent, Connected(n, txs, p).index.spent, n.chain + [tip], NextHeight(n);
    assert chain'[H - 1] == tip;
    forall h: nat, i: nat, j: nat, out | Spends(chain', h, i, j, out)
      ensures out in s' && s'[out] == SpentEntry(chain'[h - 1].txs, chain'[h - 1].undos, h, p.key, i, j)
    {
      if h < H {
        assert Spends(n.chain, h, i, j, out);
      } else {
        assert IsInput(txs, i, j, out);
      }
    }
    forall out | out in s'
      ensures exists h: nat, i: nat, j: nat :: Spends(chain', h, i, j, out)
    {
      if out in s {
        var h: nat, i: nat, j: nat :| Spends(n.chain, h, i, j, out);
        assert Spends(chain', h, i, j, out);
      } else {
        var i: nat, j: nat :| i < |txs| && IsInput(txs, i, j, out);
        assert Spends(chain', H, i, j, out);
      }
    }
  }

  lemma {:induction false} TxKeepsNoDebt(m: Utxo, tx: Tx, i: nat, h: nat, key: Indexer, k: nat)
    requires OutputsOk(tx) && NoDebt(LiveOf(m)) && k <= |Inputs(tx)| + |tx.vout|
    ensures NoDebt(LiveAfter(LiveOf(m), Events(tx, Prevouts(m, tx), i, h, key), k))
  {
    hide LiveOf, Prevout;
    if k > 0 {
      TxKeepsNoDebt(m, tx, i, h, key, k - 1);
    }
  }

  lemma {:induction false} BlockKeepsNoDebt(m: Utxo, txs: seq<Tx>, h: nat, key: Indexer, k: nat)
    requires BlockFits(m, txs, h) && NoDebt(LiveOf(m)) && k <= |txs|
    ensures NoDebt(LiveOf(ApplyFirst(m, txs, h, k)))
  {
    hide NoDebt, LiveOf, LiveAfter, ApplyTx, WellFormed, OutputsOk, BlockFits, Events, FitsAll;
    if k > 0 {
      var m1, tx := ApplyFirst(m, txs, h, k - 1), txs[k - 1];
      BlockKeepsNoDebt(m, txs, h, key, k - 1);
      BlockStep(m, txs, h, k);
      TxEventsFit(m1, tx, k - 1, h, key);
      EventCount(tx, Prevouts(m1, tx), k - 1, h, key);
      TxKeepsNoDebt(m1, tx, k - 1, h, key, |Events(tx, Prevouts(m1, tx), k - 1, h, key)|);
    }
  }

  lemma {:induction false} VoutSumNotNegative(vout: seq<TxOut>, k: nat)
    requires k <= |vout| && forall i | 0 <= i < |vout| :: vout[i].IsNull() || vout[i].value >= 0
    ensures VoutSum(vout, AMOUNT(), k) >= 0
  {
    if k > 0 {
      VoutSumNotNegative(vout, k - 1);
    }
  }

  predicate RecordNoDebt(c: Coins) {
    forall i | 0 <= i < |c.vout| :: c.vout[i].IsNull() || c.vout[i].value >= 0
  }

  lemma NoDebtRecord(m: Utxo, t: Hash)
    requires NoDebt(LiveOf(m)) && t in m
    ensures RecordNoDebt(m[t])
  {
    forall i: nat | i < |m[t].vout| && !m[t].vout[i].IsNull()
      ensures m[t].vout[i].value >= 0
    {
      LiveOfHas(m, OutPoint(t, i));
    }
  }

  lemma {:induction false} SumNotNegative(m: Utxo)
    requires forall t | t in m :: RecordNoDebt(m[t])
    ensures SumOf(m, AMOUNT()) >= 0
    decreases |m|
  {
    hide RecordNoDebt, RecordSum, AMOUNT;
    if m != map[] {
      var t :| t in m && SumOf(m, AMOUNT()) == RecordSum(m[t], AMOUNT()) + SumOf(m - {t}, AMOUNT());
      RecordNotNegative(m[t]);
      SumNotNegative(m - {t});
    }
  }

  lemma RecordNotNegative(c: Coins)
    requires RecordNoDebt(c)
    ensures RecordSum(c, AMOUNT()) >= 0
  {
    VoutSumNotNegative(c.vout, |c.vout|);
  }

  lemma {:induction false} ChainBurnedPrefix(a: seq<Tip>, b: seq<Tip>, k: nat)
    requires k <= |a| <= |b| && b[..|a|] == a
    ensures ChainBurned(a, k) == ChainBurned(b, k)
  {
    if k > 0 {
      ChainBurnedPrefix(a, b, k - 1);
      assert a[k - 1] == b[..|a|][k - 1];
    }
  }

  lemma {:induction false} BlockBurnedNotNegative(txs: seq<Tx>, k: nat)
    requires k <= |txs| && forall i | 0 <= i < |txs| :: OutputsOk(txs[i])
    ensures Burned(txs, k) >= 0
  {
    hide OutputsOk, AMOUNT;
    if k > 0 {
      BlockBurnedNotNegative(txs, k - 1);
      BurnedIsNotNegative(txs[k - 1], |txs[k - 1].vout|);
    }
  }

  lemma {:induction false} TxsOkOutputs(m: Utxo, txs: seq<Tx>, h: nat, maturity: nat, k: nat)
    requires k <= |txs| && TxsOk(m, txs, h, maturity, k)
    ensures forall i | 0 <= i < k :: OutputsOk(txs[i])
  {
    hide ApplyFirst, HaveInputs, DistinctInputs, Matured, OutputsOk;
    if k > 0 {
      TxsOkOutputs(m, txs, h, maturity, k - 1);
    }
  }

  lemma ConnectSupply(n: Node, txs: seq<Tx>, p: Params)
    requires BlockFits(n.coins, txs, NextHeight(n)) && Accepts(n, txs, p)
    requires SupplyMatches(n) && NoDebt(LiveOf(n.coins))
    ensures var n' := Connected(n, txs, p);
            SupplyMatches(n') && NoDebt(LiveOf(n'.coins)) && 0 <= Supply(n'.chain) <= p.maxMoney
  {
    hide ApplyFirst, BlockFits, SumOf, TxsOk, Minted, Burned, ConnectIndex, BlockUndo, LiveOf, NoDebt, AMOUNT;
    var n' := Connected(n, txs, p);
    SupplyMoves(n.coins, txs, NextHeight(n), |txs|);
    ChainBurnedPrefix(n.chain, n'.chain, |n.chain|);
    TxsOkOutputs(n.coins, txs, NextHeight(n), p.maturity, |txs|);
    BlockBurnedNotNegative(txs, |txs|);
    BlockKeepsNoDebt(n.coins, txs, NextHeight(n), p.key, |txs|);
    forall t | t in n'.coins
      ensures RecordNoDebt(n'.coins[t])
    {
      NoDebtRecord(n'.coins, t);
    }
    SumNotNegative(n'.coins);
  }

  /** Connecting an accepted block keeps coins, undo data and supply in order, whatever the indexes
      hold. */
  lemma ConnectKeepsGoodCoins(n: Node, txs: seq<Tx>, p: Params)
    requires GoodCoins(n, p) && Accepts(n, txs, p)
    ensures GoodCoins(Connected(n, txs, p), p)
  {
    hide ConnectIndex, ApplyBlock, BlockUndo, Minted, BlockFits, SupplyMatches, LiveOf, NoDebt, WellFormed, BlockOk, UndosFit;
    AcceptedFits(n, txs, p);
    ConnectSupply(n, txs, p);
    BlockUndoFits(n.coins, txs, NextHeight(n));
  }

  lemma ConnectSpentNames(n: Node, txs: seq<Tx>, p: Params)
    requires BlockFits(n.coins, txs, NextHeight(n)) && IndexesSpendable(p.key)
    requires IndexReady(n.index, n.coins, txs, NextHeight(n), p.key)
    requires ChainHasUndo(n.chain) && SpentNames(n.index.spent, n.chain, p.key)
    ensures var n' := Connected(n, txs, p);
            ChainHasUndo(n'.chain) && SpentNames(n'.index.spent, n'.chain, p.key)
  {
    hide BlockFits, IndexReady, IndexesSpendable, ConnectIndex, ApplyFirst, Minted, SpentNames, SpentAdded, UndosFit;
    var H := NextHeight(n);
    var tip := Tip(txs, BlockUndo(n.coins, txs, H), NextSupply(n, txs));
    BlockUndoFits(n.coins, txs, H);
    ConnectSpent(n.index, n.coins, txs, H, p.key, |txs|);
    forall h: nat, i: nat, j: nat, out | Spends(n.chain, h, i, j, out)
      ensures Spends(n.chain + [tip], h, i, j, out)
    {
      assert (n.chain + [tip])[h - 1] == n.chain[h - 1];
    }
    SpentNamesGrow(n, txs, p, tip);
  }

  lemma ConnectBalances(n: Node, txs: seq<Tx>, p: Params)
    requires BlockFits(n.coins, txs, NextHeight(n)) && IndexesSpendable(p.key)
    requires IndexReady(n.index, n.coins, txs, NextHeight(n), p.key) && BalancesMatch(n, p.key)
    ensures BalancesMatch(Connected(n, txs, p), p.key)
  {
    hide BlockFits, IndexReady, IndexesSpendable, ConnectIndex, ApplyFirst, SumOf, SumDeltas, Minted, BlockUndo, PaidTo;
    forall a
      ensures SumDeltas(Connected(n, txs, p).index.deltas, a) == SumOf(Connected(n, txs, p).coins, PaidTo(p.key, a))
    {
      BalanceMoves(n.index, n.coins, txs, NextHeight(n), p.key, a, |txs|);
    }
  }

  lemma ReadyIsMidway(ix: Index, m: Utxo, txs: seq<Tx>, h: nat, key: Indexer)
    requires h >= 1 && IndexMidway(ix, m, txs, h, key, |txs|)
    ensures Agrees(ix.unspent, key, LiveOf(m)) && Written(ix, LiveOf(m), h)
  {
    hide LiveOf, Agrees, SpentIsGone;
  }

  /** Connecting an accepted block keeps everything in step. */
  lemma ConnectKeepsGood(n: Node, txs: seq<Tx>, p: Params)
    requires Good(n, p) && Accepts(n, txs, p) && NewIds(n, txs) && IndexesSpendable(p.key)
    ensures Good(Connected(n, txs, p), p)
  {
    hide ConnectIndex, ApplyBlock, BlockUndo, Minted, IndexesSpendable, BlockFits, IndexReady, IndexMidway, SpentNames,
         SupplyMatches, BalancesMatch, LiveOf, Agrees, NoDebt, WellFormed, ChainHasUndo, NewIds, BlockOk, Written;
    AcceptedFits(n, txs, p);
    ReadyForNext(n, txs, p);
    ConnectKeepsGoodCoins(n, txs, p);
    ConnectSpentNames(n, txs, p);
    ConnectBalances(n, txs, p);
    ConnectIndexKeeps(n.index, n.coins, txs, NextHeight(n), p.key, |txs|);
    assert ApplyFirst(n.coins, txs, NextHeight(n), |txs|) == Connected(n, txs, p).coins by {
      ApplyBlockIsApplyFirst(n.coins, txs, NextHeight(n));
    }
    ReadyIsMidway(Connected(n, txs, p).index, Connected(n, txs, p).coins, txs, NextHeight(n), p.key);
  }

  lemma ApplyBlockIsApplyFirst(m: Utxo, txs: seq<Tx>, h: nat)
    ensures ApplyBlock(m, txs, h) == ApplyFirst(m, txs, h, |txs|)
  {
    hide ApplyFirst;
  }
}
