/** A run of the node from nothing, for every maturity and every proof-of-work period that allows a
    stake, that ends in a disconnect that is not clean: the chain of RollbackWitness is connected
    block by block and taken back tip first. All three indexes are wrong afterwards. */
module LedgerWitness {
  import opened Options
  import opened Coins
  import opened CoinsCache
  import opened BlockCoins
  import opened Undo
  import opened Rollback
  import opened RollbackWitness
  import opened CoinSums
  import opened AddressIndex
  import opened IndexBlocks
  import opened Ledger
  import opened LedgerSteps
  import opened LedgerDeltas
  import opened LedgerRuns

  function CaseOf(p: Params, script: Script): Case { Case(p.maturity, p.lastPow, script) }

  /** Connect all the blocks, then disconnect down to and including the first coinstake. */
  function Steps(c: Case): seq<Step> {
    var n := c.End() + c.maturity + 1;
    seq(n, k requires 0 <= k < n => if k < c.End() then Connect(c.BlockAt(k + 1)) else Disconnect)
  }

  // ----- the supply -----

  /** GetBlockValue (src/main.cpp:1683-1696), halved every 525600 blocks. */
  function BlockValue(h: nat): int {
    var halved := Halved(1_000_000_000, h / 525600);
    if h == 1 then 500_000_000_000_000 else if halved < 125_000_000 then 125_000_000 else halved
  }

  function Halved(n: nat, k: nat): nat { if k == 0 then n else Halved(n / 2, k - 1) }

  function MintedAt(k: nat, c: Case): int { if k <= c.lastPow then FUND else 1 }

  function SupplyAt(k: nat, c: Case): int {
    if k <= c.lastPow then FUND * k else FUND * c.lastPow + (k - c.lastPow)
  }

  /** No block mints more than its height allows. There are no fees: every other transaction would
      be a coinstake, and those mint. */
  lemma MintIsAllowed(k: nat, c: Case)
    ensures MintedAt(k, c) <= BlockValue(k)
  {
  }

  lemma CoinBaseMints(m: Utxo, h: nat, out: TxOut)
    ensures ValueOut(CoinBaseTx(h, out), 1) == out.value && ValueIn(m, CoinBaseTx(h, out)) == 0
  {
    var tx := CoinBaseTx(h, out);
    assert tx.IsCoinBase() && Inputs(tx) == [];
    assert ValueOut(tx, 0) == 0;
  }

  lemma StakePays(h: nat, vin: seq<OutPoint>, value: int, script: Script)
    ensures ValueOut(StakeTx(h, vin, value, script), 2) == value
  {
    var tx := StakeTx(h, vin, value, script);
    assert ValueOut(tx, 0) == 0 && ValueOut(tx, 1) == 0;
  }

  lemma StakeMints(m: Utxo, h: nat, c: Case)
    requires c.Ok() && c.lastPow < h < c.End()
    requires CoinBaseId(h - c.lastPow) in m && m[CoinBaseId(h - c.lastPow)] == c.FundCoins(h - c.lastPow)
    ensures var tx := c.StakeAt(h); ValueOut(tx, |tx.vout|) - ValueIn(m, tx) == 1
    ensures Prevout(m, OutPoint(CoinBaseId(h - c.lastPow), 0)) == TxOut(FUND, c.script)
  {
    var tx := c.StakeAt(h);
    StakePays(h, tx.vin, FUND + 1, c.script);
    assert Prevout(m, tx.vin[0]) == TxOut(FUND, c.script);
    assert InSum(m, Inputs(tx), AMOUNT(), 0) == 0;
  }

  lemma LastMints(m: Utxo, c: Case)
    requires c.Ok() && c.Victim() in m && m[c.Victim()] == c.VictimCoins()
    ensures var tx := c.StakeAt(c.End()); ValueOut(tx, |tx.vout|) - ValueIn(m, tx) == 1
  {
    var tx := c.StakeAt(c.End());
    StakePays(c.End(), tx.vin, FUND + 2, c.script);
    assert Prevout(m, tx.vin[0]) == TxOut(FUND + 1, c.script) && Prevout(m, tx.vin[1]) == NOTHING;
    assert InSum(m, Inputs(tx), AMOUNT(), 0) == 0 && InSum(m, Inputs(tx), AMOUNT(), 1) == FUND + 1;
  }

  lemma AfterCoinBase(m: Utxo, txs: seq<Tx>, h: nat)
    requires |txs| > 0 && txs[0] == CoinBaseTx(h, NOTHING)
    ensures ApplyFirst(m, txs, h, 1) == m[CoinBaseId(h) := Coins(true, false, [NOTHING], h, 1)]
  {
    EmptyCoinBaseIsOk(m, h, 0);
    assert ApplyFirst(m, txs, h, 0) == m;
    assert ApplyFirst(m, txs, h, 1) == ApplyTx(m, txs[0], h);
  }

  lemma BlockMints(m: Utxo, k: nat, c: Case)
    requires c.Ok() && 1 <= k <= c.End() && c.Phase(m, k - 1)
    ensures var txs := c.BlockAt(k); Minted(m, txs, k, |txs|) == MintedAt(k, c)
  {
    hide ValueIn, ValueOut, ApplyTx, Case.StakeAt;
    var txs := c.BlockAt(k);
    assert ApplyFirst(m, txs, k, 0) == m && Minted(m, txs, k, 0) == 0;
    CoinBaseMints(m, k, txs[0].vout[0]);
    assert Minted(m, txs, k, 1) == txs[0].vout[0].value;
    if k > c.lastPow {
      AfterCoinBase(m, txs, k);
      if k < c.End() {
        StakeMints(ApplyFirst(m, txs, k, 1), k, c);
      } else {
        LastMints(ApplyFirst(m, txs, k, 1), c);
      }
    }
  }

  /** The undo data of the first coinstake remember what it spent. */
  lemma StakeUndo(m: Utxo, c: Case)
    requires c.Ok() && c.Phase(m, c.lastPow)
    ensures var undos := BlockUndo(m, c.BlockAt(c.lastPow + 1), c.lastPow + 1);
            |undos| == 2 && |undos[1]| == 1 && undos[1][0].txout == TxOut(FUND, c.script)
  {
    hide CoinsOf;
    var h := c.lastPow + 1;
    var txs, tx := c.BlockAt(h), c.StakeAt(h);
    var m1 := ApplyFirst(m, txs, h, 1);
    AfterCoinBase(m, txs, h);
    StakeShape(h, tx.vin, FUND + 1, c.script);
    assert BlockUndo(m, txs, h)[1] == TxUndo(m1, tx);
    assert SpendFirst(m1, tx.vin, 0) == m1;
    SpendTheOnlyOutput(m1, OutPoint(CoinBaseId(1), 0));
  }

  // ----- connecting -----

  /** After `k` connects. */
  ghost predicate Climbing(n: Node, k: nat, c: Case) {
    && |n.chain| == k
    && (forall i | 0 <= i < k :: n.chain[i].txs == c.BlockAt(i + 1))
    && c.Phase(n.coins, k)
    && Supply(n.chain) == SupplyAt(k, c)
    && (c.lastPow < k ==> var undos := n.chain[c.lastPow].undos;
                          |undos| == 2 && |undos[1]| == 1 && undos[1][0].txout == TxOut(FUND, c.script))
  }

  /** Only coinbases and the first coinstake are spent, and all of that from lower heights. */
  lemma SpentLower(h: nat, c: Case, a: nat, j: nat, out: OutPoint)
    requires c.Ok() && 1 <= h <= c.End() && IsInput(c.BlockAt(h), a, j, out)
    ensures out.hash < CoinBaseId(h)
  {
    if h <= c.lastPow {
      CoinBaseCoins(h, TxOut(FUND, c.script));
    } else {
      CoinBaseCoins(h, NOTHING);
    }
  }

  lemma IdsOfBlock(h: nat, c: Case)
    ensures forall i | 0 <= i < |c.BlockAt(h)| :: c.BlockAt(h)[i].id >= CoinBaseId(h)
  {
  }

  /** So the ids of the next block are new. */
  lemma IdsAreNew(n: Node, k: nat, p: Params, c: Case)
    requires c.Ok() && k < c.End() && Climbing(n, k, c) && Good(n, p)
    ensures NewIds(n, c.BlockAt(k + 1))
  {
    hide GoodCoins, Agrees, BalancesMatch, Written, Case.Phase, LiveOf, Case.BlockAt, ChainHasUndo;
    var txs := c.BlockAt(k + 1);
    GoodHasGoodCoins(n, p);
    IdsOfBlock(k + 1, c);
    forall i, out | 0 <= i < |txs| && out in n.index.spent
      ensures out.hash != txs[i].id
    {
      var h: nat, a: nat, j: nat :| Spends(n.chain, h, a, j, out);
      assert n.chain[h - 1].txs == c.BlockAt(h);
      SpentLower(h, c, a, j, out);
    }
  }

  lemma ClimbOne(n: Node, k: nat, p: Params, script: Script)
    requires var c := CaseOf(p, script);
             c.Ok() && k < c.End() && Climbing(n, k, c) && p.maxMoney >= FUND * p.lastPow + p.maturity + 1
    ensures var c := CaseOf(p, script);
            Accepts(n, c.BlockAt(k + 1), p) && Climbing(Connected(n, c.BlockAt(k + 1), p), k + 1, c)
            && NextSupply(n, c.BlockAt(k + 1)) - Supply(n.chain) <= BlockValue(k + 1)
  {
    hide BlockOk, ApplyBlock, Case.Phase, Case.BlockAt, Minted, ConnectIndex, BlockUndo, PeriodOk, BlockValue;
    var c := CaseOf(p, script);
    var txs := c.BlockAt(k + 1);
    PhaseStep(n.coins, k + 1, c);
    BlockMints(n.coins, k + 1, c);
    MintIsAllowed(k + 1, c);
    var n' := Connected(n, txs, p);
    assert n'.chain[k].txs == txs;
    if k == c.lastPow {
      StakeUndo(n.coins, c);
    }
  }

  lemma {:induction false} Climb(k: nat, p: Params, script: Script)
    requires var c := CaseOf(p, script); c.Ok() && k <= c.End()
    requires p.maxMoney >= FUND * p.lastPow + p.maturity + 1 && IndexesSpendable(p.key)
    ensures var c := CaseOf(p, script);
            AllFair(EMPTY_NODE, Steps(c), k, p) && Climbing(RunOf(EMPTY_NODE, Steps(c), k, p), k, c)
  {
    hide Accepts, Connected, NewIds, Climbing, Case.BlockAt, Good, IndexesSpendable, NextSupply, BlockValue;
    var c := CaseOf(p, script);
    var steps := Steps(c);
    if k == 0 {
      NothingClimbed(c);
    } else {
      Climb(k - 1, p, script);
      var n := RunOf(EMPTY_NODE, steps, k - 1, p);
      var below := RunLeavesTrail(steps, k - 1, p);
      ClimbOne(n, k - 1, p, script);
      IdsAreNew(n, k - 1, p, c);
      assert steps[k - 1] == Connect(c.BlockAt(k));
    }
  }

  lemma NothingClimbed(c: Case)
    ensures Climbing(EMPTY_NODE, 0, c)
  {
  }

  // ----- disconnecting -----

  /** The record of the first coinstake, if there, has lost its flag; the later coinstakes up to height
      `k` have theirs. */
  predicate Unmarked(coins: Utxo, k: nat, c: Case) {
    && (c.Victim() in coins ==> !coins[c.Victim()].coinStake)
    && forall h: nat | c.lastPow + 1 < h <= k :: StakeId(h) in coins && coins[StakeId(h)].coinStake
  }

  /** After `d` disconnects from `top`. */
  ghost predicate Descending(n: Node, top: Node, d: nat, c: Case) {
    d <= |top.chain| && n.chain == top.chain[..|top.chain| - d] && Unmarked(n.coins, |n.chain|, c)
  }

  lemma SpendKeepsFlag(m: Utxo, out: OutPoint, t: Hash)
    requires t in SpendInput(m, out)
    ensures t in m && SpendInput(m, out)[t].coinStake == m[t].coinStake
  {
  }

  lemma {:induction false} SpendFirstKeepsFlag(m: Utxo, vin: seq<OutPoint>, k: nat, t: Hash)
    requires k <= |vin| && t in SpendFirst(m, vin, k)
    ensures t in m && SpendFirst(m, vin, k)[t].coinStake == m[t].coinStake
  {
    hide SpendInput;
    if k > 0 {
      SpendKeepsFlag(SpendFirst(m, vin, k - 1), vin[k - 1], t);
      SpendFirstKeepsFlag(m, vin, k - 1, t);
    }
  }

  /** A block does not change the flag of a record it did not create. */
  lemma {:induction false} BlockKeepsFlag(m: Utxo, txs: seq<Tx>, h: nat, k: nat, t: Hash)
    requires k <= |txs| && t in ApplyFirst(m, txs, h, k) && forall i | 0 <= i < k :: txs[i].id != t
    ensures t in m && ApplyFirst(m, txs, h, k)[t].coinStake == m[t].coinStake
  {
    hide SpendFirst, CoinsOf;
    if k > 0 {
      var m1, tx := ApplyFirst(m, txs, h, k - 1), txs[k - 1];
      if !tx.IsCoinBase() {
        SpendFirstKeepsFlag(m1, tx.vin, |tx.vin|, t);
      }
      BlockKeepsFlag(m, txs, h, k - 1, t);
    }
  }

  /** Disconnecting a later block: the last one brings the first coinstake back without its flag, and
      no other flag changes. */
  lemma DescendCoins(s: Node, n: Node, h: nat, p: Params, c: Case)
    requires CoinLink(s, n, c.BlockAt(h), p) && HasUndo(n) && DisconnectIsClean(n)
    requires c.lastPow + 1 < h && Unmarked(n.coins, h, c)
    ensures Unmarked(Disconnected(n, p).coins, h - 1, c)
  {
    hide GoodCoins, Connected, ApplyFirst, DisconnectIndex, DisconnectBlock, CutVersion, StakesIntact, Accepts, CoinLink, Case.BlockAt;
    var txs := c.BlockAt(h);
    LinkIsBack(s, n, txs, p);
    var gone, cut :| CoinsMatch(n, Connected(s, txs, p), gone, cut);
    DisconnectCoins(s, n, txs, p, gone, cut);
    ConnectedCoins(s, txs, p);
    var m', H := ApplyBlock(s.coins, txs, NextHeight(s)), NextHeight(s);
    BlockIds(h, c);
    forall k: nat | c.lastPow < k < h && StakeId(k) in m'
      ensures StakeId(k) in s.coins && m'[StakeId(k)].coinStake == s.coins[StakeId(k)].coinStake
    {
      BlockKeepsFlag(s.coins, txs, H, |txs|, StakeId(k));
    }
    assert c.Victim() == StakeId(c.lastPow + 1);
  }

  lemma BlockIds(h: nat, c: Case)
    ensures forall i | 0 <= i < |c.BlockAt(h)| :: c.BlockAt(h)[i].id in {CoinBaseId(h), StakeId(h)}
  {
  }

  lemma ConnectedCoins(s: Node, txs: seq<Tx>, p: Params)
    ensures Connected(s, txs, p).coins == ApplyBlock(s.coins, txs, NextHeight(s))
  {
    hide ApplyBlock;
  }

  lemma MarkedTip(n: Node, h: nat, c: Case)
    requires |n.chain| == h && c.lastPow + 1 < h && n.chain[h - 1].txs == c.BlockAt(h) && Unmarked(n.coins, h, c)
    ensures TipStakesMarked(n)
  {
    CoinBaseCoins(h, NOTHING);
  }

  lemma DescendOne(n: Node, top: Node, d: nat, below: seq<Node>, p: Params, c: Case)
    requires c.Ok() && p.maturity >= 1 && d < c.maturity && Climbing(top, c.End(), c)
    requires CoinTrail(n, below, p) && Descending(n, top, d, c)
    ensures HasUndo(n) && DisconnectIsClean(n) && Descending(Disconnected(n, p), top, d + 1, c)
  {
    hide GoodCoins, CoinLink, DisconnectIsClean, TipStakesMarked, Case.Phase, DisconnectIndex, DisconnectBlock, Unmarked, Case.BlockAt;
    var k := c.End() - d;
    TrailLength(n, below, p);
    assert |n.chain| == k && n.chain[k - 1] == top.chain[k - 1];
    assert n.chain[k - 1].txs == c.BlockAt(k);
    var s := below[k - 1];
    CleanIffMarked(s, n, n.chain[k - 1].txs, p);
    MarkedTip(n, k, c);
    assert Disconnected(n, p).chain == top.chain[..k - 1];
    DescendCoins(s, n, k, p, c);
  }

  lemma {:induction false} Descend(d: nat, p: Params, script: Script)
    requires var c := CaseOf(p, script); c.Ok() && d <= c.maturity
    requires p.maxMoney >= FUND * p.lastPow + p.maturity + 1 && IndexesSpendable(p.key)
    ensures var c := CaseOf(p, script);
            var top := RunOf(EMPTY_NODE, Steps(c), c.End(), p);
            && Climbing(top, c.End(), c)
            && AllFair(EMPTY_NODE, Steps(c), c.End() + d, p)
            && Descending(RunOf(EMPTY_NODE, Steps(c), c.End() + d, p), top, d, c)
  {
    hide Accepts, Connected, NewIds, Climbing, Case.BlockAt, Good, IndexesSpendable, Disconnected, HasUndo, DisconnectIsClean, Descending;
    var c := CaseOf(p, script);
    var steps, N := Steps(c), c.End();
    var top := RunOf(EMPTY_NODE, steps, N, p);
    Climb(N, p, script);
    if d == 0 {
      NothingDescended(top, c);
    } else {
      Descend(d - 1, p, script);
      var n := RunOf(EMPTY_NODE, steps, N + d - 1, p);
      var below := RunLeavesCoinTrail(steps, N + d - 1, p);
      DescendOne(n, top, d - 1, below, p, c);
      assert steps[N + d - 1] == Disconnect;
    }
  }

  lemma NothingDescended(top: Node, c: Case)
    requires Climbing(top, c.End(), c)
    ensures Descending(top, top, 0, c) && |top.chain| == c.End()
  {
    assert top.chain[..|top.chain|] == top.chain;
  }

  // ----- the stake block -----

  lemma {:induction false} FairNeverStuck(n: Node, steps: seq<Step>, k: nat, p: Params)
    requires k <= |steps| && AllFair(n, steps, k, p)
    ensures Stuck(n, steps, k, p) == {}
  {
    hide RunOf, DisconnectIsClean, HasUndo, NewIds;
    if k > 0 {
      FairNeverStuck(n, steps, k - 1, p);
    }
  }

  lemma {:induction false} OnlyLastStuck(chain: seq<Tip>, H: nat, key: Indexer, a: Address, k: nat)
    requires ChainHasUndo(chain) && k <= |chain| && k < H
    ensures StuckCredits(chain, {H}, key, a, k) == 0
  {
    hide BlockCredits, UndosFit;
    if k > 0 {
      OnlyLastStuck(chain, H, key, a, k - 1);
    }
  }

  lemma CoinBaseCredits(k: nat, i: nat, h: nat, key: Indexer, a: Address, undos: seq<TxInUndo>)
    ensures var tx := CoinBaseTx(k, NOTHING);
            UndoFits(tx, undos) && var es := Events(tx, UndoneOutputs(tx, undos), i, h, key); Credits(es, a, |es|) == 0
  {
    var tx := CoinBaseTx(k, NOTHING);
    assert tx.IsCoinBase() && Inputs(tx) == [];
    var es := Events(tx, UndoneOutputs(tx, undos), i, h, key);
    assert |es| == 1 && Signed(es[0]) == 0;
    assert Credits(es, a, 0) == 0;
  }

  lemma StakeCredits(k: nat, vin: seq<OutPoint>, script: Script, i: nat, h: nat, key: Indexer, a: Address, undos: seq<TxInUndo>)
    requires |vin| == 1 && vin[0].hash != NULL_HASH
    requires |undos| == 1 && undos[0].txout == TxOut(FUND, script) && key(script) == Some(a)
    ensures var tx := StakeTx(k, vin, FUND + 1, script);
            UndoFits(tx, undos) && var es := Events(tx, UndoneOutputs(tx, undos), i, h, key); Credits(es, a, |es|) == 1
  {
    var tx := StakeTx(k, vin, FUND + 1, script);
    assert !tx.IsCoinBase() && Inputs(tx) == tx.vin;
    var es := Events(tx, UndoneOutputs(tx, undos), i, h, key);
    assert |es| == 3;
    assert Credit(es[0], a) == -FUND && Credit(es[1], a) == 0 && Credit(es[2], a) == FUND + 1;
    assert Credits(es, a, 0) == 0 && Credits(es, a, 1) == -FUND && Credits(es, a, 2) == -FUND;
  }

  /** What is known of the block of the first coinstake. */
  ghost predicate StakeTip(tip: Tip, c: Case) {
    && tip.txs == c.BlockAt(c.lastPow + 1)
    && |tip.undos| == 2 && |tip.undos[1]| == 1 && tip.undos[1][0].txout == TxOut(FUND, c.script)
  }

  /** It moves the balance of the address by one. */
  lemma StakeMoves(tip: Tip, c: Case, key: Indexer, a: Address)
    requires c.Ok() && StakeTip(tip, c) && UndosFit(tip.txs, tip.undos) && key(c.script) == Some(a)
    ensures BlockCredits(tip, c.lastPow + 1, key, a, |tip.txs|) == 1
  {
    hide Events, Credits, UndoneOutputs;
    var h := c.lastPow + 1;
    CoinBaseCredits(h, 0, h, key, a, tip.undos[0]);
    StakeCredits(h, c.StakeAt(h).vin, c.script, 1, h, key, a, tip.undos[1]);
    assert BlockCredits(tip, h, key, a, 0) == 0 && BlockCredits(tip, h, key, a, 1) == 0;
  }

  /** The output of the stake is live after its block, and was not before. */
  lemma StakeIndexed(s: Node, n: Node, txs: seq<Tx>, p: Params, c: Case, a: Address)
    requires CoinLink(s, n, txs, p) && c.Ok() && txs == c.BlockAt(c.lastPow + 1) && p.key(c.script) == Some(a)
    ensures !SameIndexed(p.key, LiveOf(s.coins), LiveOf(n.coins))
  {
    hide GoodCoins, Connected, ApplyTx, LiveOf, CoinsBackAt, Accepts, CoinsOf;
    var h, out := NextHeight(s), OutPoint(c.Victim(), 1);
    var tx := c.StakeAt(c.lastPow + 1);
    assert |txs| == 2 && txs[1] == tx && tx.id == c.Victim();
    LinkIsBack(s, n, txs, p);
    assert txs[1].id !in s.coins by { AcceptedIsNew(s, txs, p); }
    LiveOfHas(s.coins, out);
    ConnectKeepsGoodCoins(s, txs, p);
    BackIsGoodCoins(n, Connected(s, txs, p), p);
    ConnectedCoins(s, txs, p);
    assert ApplyBlock(s.coins, txs, h) == ApplyTx(ApplyFirst(s.coins, txs, h, 1), tx, h);
    StakeOutputLives(ApplyFirst(s.coins, txs, h, 1), tx.vin, c, h);
    LiveOfHas(ApplyBlock(s.coins, txs, h), out);
    var k := UnspentKey(a, out);
    assert k.out in LiveOf(n.coins) && k.out !in LiveOf(s.coins);
  }

  lemma AcceptedIsNew(s: Node, txs: seq<Tx>, p: Params)
    requires Accepts(s, txs, p)
    ensures forall i | 0 <= i < |txs| :: txs[i].id !in s.coins
  {
    hide TxsOk, Minted;
  }

  lemma StakeOutputLives(m: Utxo, vin: seq<OutPoint>, c: Case, h: nat)
    requires c.Ok() && |vin| > 0 && vin[0].hash != NULL_HASH
    ensures var m', out := ApplyTx(m, StakeTx(c.lastPow + 1, vin, FUND + 1, c.script), h), OutPoint(c.Victim(), 1);
            HaveInput(m', out) && Prevout(m', out) == TxOut(FUND + 1, c.script)
  {
    hide SpendFirst;
    var tx := StakeTx(c.lastPow + 1, vin, FUND + 1, c.script);
    assert NullUnspendable(tx.vout) == tx.vout;
    assert Trim(tx.vout) == tx.vout;
    assert !CoinsOf(tx, h).vout[1].IsNull();
  }

  lemma StakeSpends(c: Case)
    requires c.Ok()
    ensures !SpendsNothing(c.BlockAt(c.lastPow + 1))
  {
    var txs, tx := c.BlockAt(c.lastPow + 1), c.StakeAt(c.lastPow + 1);
    assert txs[1] == tx && Inputs(tx) == tx.vin;
  }

  /** The first `last` steps are fair; the next is a disconnect that is not clean, and after it no
      index says what it should. */
  ghost predicate EndsUnclean(steps: seq<Step>, last: nat, p: Params, a: Address)
    requires last < |steps|
  {
    var n, n' := RunOf(EMPTY_NODE, steps, last, p), RunOf(EMPTY_NODE, steps, last + 1, p);
    && AllFair(EMPTY_NODE, steps, last, p)
    && steps[last].Disconnect? && HasUndo(n) && !DisconnectIsClean(n) && ChainHasUndo(n'.chain)
    && SumDeltas(n'.index.deltas, a) + 1 == SumOf(n'.coins, PaidTo(p.key, a))
    && !Agrees(n'.index.unspent, p.key, LiveOf(n'.coins))
    && !SpentNames(n'.index.spent, n'.chain, p.key)
  }

  /** For every maturity, every proof-of-work period at least as long, every limit that allows it, every
      address and script paying to it: a run from nothing in which every block is accepted, with
      new ids and within what its height may mint, and every disconnect clean up to the last,
      which is not. */
  lemma UncleanRunExists(p: Params, script: Script, a: Address)
    requires 1 <= p.maturity <= p.lastPow && p.maxMoney >= FUND * p.lastPow + p.maturity + 1
    requires IndexesSpendable(p.key) && p.key(script) == Some(a)
    ensures var c := CaseOf(p, script);
            && |RunOf(EMPTY_NODE, Steps(c), c.End(), p).chain| == c.End()
            && EndsUnclean(Steps(c), c.End() + c.maturity, p, a)
  {
    hide Good, Link, CoinLink, CoinTrail, Trail, RunOf, AllFair, Stuck, Case.BlockAt, SumDeltas, SumOf, PaidTo, Agrees, LiveOf,
         SpentNames, IndexesSpendable, Case.Phase, TipStakesMarked, DisconnectIsClean, HasUndo, StuckCredits, SameIndexed,
         SpendsNothing, Disconnected, Climbing, Descending, StuckUnmarked, BlockCredits, StakeTip;
    var c := CaseOf(p, script);
    var steps, last := Steps(c), c.End() + c.maturity;
    assert c.Ok() by { PayingIsSpendable(p.key, script, a); }
    var top := RunOf(EMPTY_NODE, steps, c.End(), p);
    Descend(c.maturity, p, script);
    NothingDescended(top, c);
    var n, n' := RunOf(EMPTY_NODE, steps, last, p), RunOf(EMPTY_NODE, steps, last + 1, p);
    var tip := TipAfterDescent(n, top, c);
    UncleanStep(steps, last, n, n', tip, p, c, a);
    EveryRunDeltas(steps, last + 1, p, a);
    FairNeverStuck(EMPTY_NODE, steps, last, p);
    OneStuck(steps, last, n, p);
    StuckCredit(n', tip, p, c, a);
  }

  lemma PayingIsSpendable(key: Indexer, script: Script, a: Address)
    requires IndexesSpendable(key) && key(script) == Some(a)
    ensures !TxOut(FUND, script).IsUnspendable()
  {
    var o := TxOut(FUND, script);
    assert key(o.script).Some?;
  }

  /** What the tip of the chain is after all clean disconnects. */
  lemma TipAfterDescent(n: Node, top: Node, c: Case) returns (tip: Tip)
    requires c.Ok() && Climbing(top, c.End(), c) && Descending(n, top, c.maturity, c)
    ensures |n.chain| == c.lastPow + 1 && tip == n.chain[c.lastPow] && StakeTip(tip, c) && !TipStakesMarked(n)
  {
    hide Case.Phase;
    var h := c.lastPow + 1;
    tip := n.chain[c.lastPow];
    assert tip == top.chain[c.lastPow];
    StakeShape(h, c.StakeAt(h).vin, FUND + 1, c.script);
    assert tip.txs[1] == c.StakeAt(h) && tip.txs[1].id == c.Victim();
  }

  /** The last step: unclean, and what becomes of the unspent and spent indexes. */
  lemma UncleanStep(steps: seq<Step>, last: nat, n: Node, n': Node, tip: Tip, p: Params, c: Case, a: Address)
    requires c.Ok() && p.maturity >= 1 && p.maxMoney >= 0 && IndexesSpendable(p.key) && p.key(c.script) == Some(a)
    requires last < |steps| && steps[last].Disconnect? && AllFair(EMPTY_NODE, steps, last, p)
    requires n == RunOf(EMPTY_NODE, steps, last, p) && n' == RunOf(EMPTY_NODE, steps, last + 1, p)
    requires |n.chain| == c.lastPow + 1 && tip == n.chain[c.lastPow] && StakeTip(tip, c) && !TipStakesMarked(n)
    ensures HasUndo(n) && !DisconnectIsClean(n) && n' == Disconnected(n, p)
    ensures ChainHasUndo(n'.chain) && n'.chain == n.chain
    ensures !Agrees(n'.index.unspent, p.key, LiveOf(n'.coins)) && !SpentNames(n'.index.spent, n'.chain, p.key)
  {
    hide Good, Link, CoinLink, AllFair, Case.BlockAt, SumDeltas, SumOf, PaidTo, Agrees, LiveOf, SpentNames, IndexesSpendable,
         TipStakesMarked, DisconnectIsClean, HasUndo, SameIndexed, SpendsNothing, Disconnected;
    var below := RunLeavesTrail(steps, last, p);
    var s := below[|below| - 1];
    LinkOfCoins(s, n, tip.txs, p);
    CleanIffMarked(s, n, tip.txs, p);
    UncleanDisconnectDiverges(s, n, tip.txs, p, a);
    StakeIndexed(s, n, tip.txs, p, c, a);
    StakeSpends(c);
  }

  lemma OneStuck(steps: seq<Step>, k: nat, n: Node, p: Params)
    requires k < |steps| && steps[k].Disconnect? && Stuck(EMPTY_NODE, steps, k, p) == {} && n == RunOf(EMPTY_NODE, steps, k, p)
    requires HasUndo(n) && !DisconnectIsClean(n)
    ensures Stuck(EMPTY_NODE, steps, k + 1, p) == {|n.chain|}
  {
    hide RunOf, DisconnectIsClean;
  }

  /** Only that block is stuck then, and it had moved the balance by one. */
  lemma StuckCredit(n: Node, tip: Tip, p: Params, c: Case, a: Address)
    requires c.Ok() && p.key(c.script) == Some(a) && ChainHasUndo(n.chain)
    requires |n.chain| == c.lastPow + 1 && tip == n.chain[c.lastPow] && StakeTip(tip, c)
    ensures StuckCredits(n.chain, {c.lastPow + 1}, p.key, a, |n.chain|) == 1
  {
    hide BlockCredits, UndosFit, Case.BlockAt, StuckCredits, ChainDeltas, BlockDeltas, StakeTip;
    OnlyLastStuck(n.chain, c.lastPow + 1, p.key, a, c.lastPow);
    LastOfChain(n.chain, {c.lastPow + 1}, p.key, a);
    StakeMoves(tip, c, p.key, a);
  }
}
