/** What the address deltas add up to after every run, failed disconnects included
    (src/main.cpp:2269-2286, 2337-2371, 2523-2593; src/txdb.cpp:217-235). A failed disconnect
    has already erased the deltas of its block while the coins stay as they are, so the sum
    lags behind the balance by exactly what the stuck blocks had moved. */
module LedgerDeltas {
  import opened Options
  import opened Coins
  import opened CoinsCache
  import opened BlockCoins
  import opened Undo
  import opened CoinSums
  import opened AddressIndex
  import opened IndexBlocks
  import opened Ledger
  import opened LedgerSteps

  type Deltas = map<DeltaKey, int>

  /** An index with nothing but deltas. */
  function Only(d: Deltas): Index { Index(d, map[], map[]) }

  // ----- deltas do not depend on the other indexes -----

  lemma {:induction false} ReplayDeltas(ix: Index, es: seq<Event>, k: nat)
    requires k <= |es|
    ensures Replay(ix, es, k).deltas == Replay(Only(ix.deltas), es, k).deltas
  {
    if k > 0 {
      ReplayDeltas(ix, es, k - 1);
    }
  }

  lemma {:induction false} TakeBackDeltas(ix: Index, ix': Index, es: seq<Event>, hs: seq<nat>, k: nat)
    requires k <= |es| == |hs| && ix.deltas == ix'.deltas
    ensures TakeBack(ix, es, hs, k).deltas == TakeBack(ix', es, hs, k).deltas
    decreases k
  {
    if k > 0 {
      TakeBackDeltas(Backward(ix, es[k - 1], hs[k - 1]), Backward(ix', es[k - 1], hs[k - 1]), es, hs, k - 1);
    }
  }

  /** Nothing is taken back where nothing was written. */
  lemma {:induction false} TakeBackNothing(ix: Index, es: seq<Event>, hs: seq<nat>, k: nat, h: nat)
    requires k <= |es| == |hs| && (forall j | 0 <= j < k :: es[j].height == h) && (forall d | d in ix.deltas :: d.height < h)
    ensures TakeBack(ix, es, hs, k).deltas == ix.deltas
    decreases k
  {
    if k > 0 {
      var ix1 := Backward(ix, es[k - 1], hs[k - 1]);
      assert ix1.deltas == ix.deltas;
      TakeBackNothing(ix1, es, hs, k - 1, h);
    }
  }

  // ----- the deltas of a block, from what the chain stores about it -----

  function TxEvents(tip: Tip, h: nat, key: Indexer, i: nat): seq<Event>
    requires UndosFit(tip.txs, tip.undos) && i < |tip.txs|
  {
    Events(tip.txs[i], UndoneOutputs(tip.txs[i], tip.undos[i]), i, h, key)
  }

  /** `d` with the deltas of the first `k` transactions of the block. */
  function BlockDeltas(d: Deltas, tip: Tip, h: nat, key: Indexer, k: nat): Deltas
    requires UndosFit(tip.txs, tip.undos) && k <= |tip.txs|
  {
    if k == 0 then d
    else
      var es := TxEvents(tip, h, key, k - 1);
      Replay(Only(BlockDeltas(d, tip, h, key, k - 1)), es, |es|).deltas
  }

  /** What the first `k` transactions of the block moved on address `a`. */
  function BlockCredits(tip: Tip, h: nat, key: Indexer, a: Address, k: nat): int
    requires UndosFit(tip.txs, tip.undos) && k <= |tip.txs|
  {
    if k == 0 then 0
    else
      var es := TxEvents(tip, h, key, k - 1);
      BlockCredits(tip, h, key, a, k - 1) + Credits(es, a, |es|)
  }

  /** The deltas of the first `k` blocks, without the stuck ones. */
  function ChainDeltas(chain: seq<Tip>, stuck: set<nat>, key: Indexer, k: nat): Deltas
    requires ChainHasUndo(chain) && k <= |chain|
  {
    if k == 0 then map[]
    else
      var d := ChainDeltas(chain, stuck, key, k - 1);
      if k in stuck then d else BlockDeltas(d, chain[k - 1], k, key, |chain[k - 1].txs|)
  }

  /** What the stuck ones among the first `k` blocks moved on address `a`. */
  function StuckCredits(chain: seq<Tip>, stuck: set<nat>, key: Indexer, a: Address, k: nat): int
    requires ChainHasUndo(chain) && k <= |chain|
  {
    if k == 0 then 0
    else
      StuckCredits(chain, stuck, key, a, k - 1)
      + if k in stuck then BlockCredits(chain[k - 1], k, key, a, |chain[k - 1].txs|) else 0
  }

  /** The block that leads from `m` to the next state, and what is stored about it. */
  ghost predicate TipOf(tip: Tip, m: Utxo, h: nat) {
    && BlockFits(m, tip.txs, h)
    && UndosFit(tip.txs, tip.undos) && tip.undos == BlockUndo(m, tip.txs, h)
  }

  /** The events told by the undo data are those of the connect. */
  lemma TipEvents(tip: Tip, m: Utxo, h: nat, key: Indexer, k: nat)
    requires TipOf(tip, m, h) && 0 < k <= |tip.txs|
    ensures var m1, tx := ApplyFirst(m, tip.txs, h, k - 1), tip.txs[k - 1];
            && TxEvents(tip, h, key, k - 1) == Events(tx, Prevouts(m1, tx), k - 1, h, key)
            && WellFormed(m1) && TxReady(m1, tx) && ApplyFirst(m, tip.txs, h, k) == ApplyTx(m1, tx, h)
  {
    hide ApplyFirst, WellFormed, TxReady, TxsReady, BlockUndo, Prevouts, Events, TxUndo, ApplyTx, UndoFits;
    BlockStep(m, tip.txs, h, k);
    BlockUndoAt(m, tip.txs, h, k - 1);
    UndoRemembersPrevouts(ApplyFirst(m, tip.txs, h, k - 1), tip.txs[k - 1]);
  }

  lemma {:induction false} ConnectDeltas(ix: Index, tip: Tip, m: Utxo, h: nat, key: Indexer, k: nat)
    requires TipOf(tip, m, h) && k <= |tip.txs|
    ensures ConnectIndex(ix, m, tip.txs, h, key, k).deltas == BlockDeltas(ix.deltas, tip, h, key, k)
  {
    hide ApplyFirst, BlockFits, BlockUndo, Replay, Events, Prevouts, UndosFit, TxEvents;
    if k > 0 {
      ConnectDeltas(ix, tip, m, h, key, k - 1);
      TipEvents(tip, m, h, key, k);
      var es := TxEvents(tip, h, key, k - 1);
      ReplayDeltas(ConnectIndex(ix, m, tip.txs, h, key, k - 1), es, |es|);
    }
  }

  ghost predicate BelowHeight(d: Deltas, h: nat) { forall k | k in d :: k.height < h }

  ghost predicate BeforeTx(d: Deltas, h: nat, i: nat) {
    forall k | k in d :: k.height < h || (k.height == h && k.txIndex < i)
  }

  /** One transaction: its deltas are new, they add up to its credits, and taking them back leaves
      what was there. */
  lemma TxDeltas(d: Deltas, m1: Utxo, tx: Tx, i: nat, h: nat, key: Indexer)
    requires TxReady(m1, tx) && WellFormed(m1) && BeforeTx(d, h, i)
    ensures var es := Events(tx, Prevouts(m1, tx), i, h, key);
            && FreshAll(Only(d), es, |es|) && BeforeTx(Replay(Only(d), es, |es|).deltas, h, i + 1)
  {
    hide TxReady, WellFormed, Events, Replay, FreshAll;
    var es := Events(tx, Prevouts(m1, tx), i, h, key);
    TxEventsFresh(Only(d), m1, tx, i, h, key, |es|);
    assert DeltasBefore(Replay(Only(d), es, |es|).deltas, h, i, |Inputs(tx)|, |es|);
  }

  lemma {:induction false} BlockDeltasGrow(d: Deltas, tip: Tip, m: Utxo, h: nat, key: Indexer, a: Address, k: nat)
    requires TipOf(tip, m, h) && k <= |tip.txs| && BelowHeight(d, h)
    ensures BeforeTx(BlockDeltas(d, tip, h, key, k), h, k)
    ensures SumDeltas(BlockDeltas(d, tip, h, key, k), a) == SumDeltas(d, a) + BlockCredits(tip, h, key, a, k)
  {
    hide ApplyFirst, BlockFits, BlockUndo, Replay, Events, Prevouts, UndosFit, TxEvents, SumDeltas, TxReady, WellFormed, FreshAll, Credits;
    if k > 0 {
      var d1 := BlockDeltas(d, tip, h, key, k - 1);
      BlockDeltasGrow(d, tip, m, h, key, a, k - 1);
      TipEvents(tip, m, h, key, k);
      TxDeltas(d1, ApplyFirst(m, tip.txs, h, k - 1), tip.txs[k - 1], k - 1, h, key);
      var es := TxEvents(tip, h, key, k - 1);
      SumAfterReplay(Only(d1), es, a, |es|);
    }
  }

  /** Disconnecting takes the block's deltas out again. */
  lemma {:induction false} DisconnectDeltas(ix: Index, d: Deltas, tip: Tip, m: Utxo, h: nat, key: Indexer, k: nat)
    requires TipOf(tip, m, h) && k <= |tip.txs| && BelowHeight(d, h) && ix.deltas == BlockDeltas(d, tip, h, key, k)
    ensures DisconnectIndex(ix, tip.txs, tip.undos, h, key, k).deltas == d
    decreases k
  {
    hide ApplyFirst, BlockFits, BlockUndo, Replay, Events, Prevouts, UndoFits, TxEvents, TxReady, WellFormed, FreshAll,
         TakeBack, UndoHeights, DisconnectIndex;
    if k == 0 {
      DisconnectNothing(ix, tip.txs, tip.undos, h, key);
    } else {
      var d1 := BlockDeltas(d, tip, h, key, k - 1);
      var es, hs := TxEvents(tip, h, key, k - 1), UndoHeights(tip.txs[k - 1], tip.undos[k - 1]);
      BlockDeltasGrow(d, tip, m, h, key, Address(0, 0), k - 1);
      TipEvents(tip, m, h, key, k);
      TxDeltas(d1, ApplyFirst(m, tip.txs, h, k - 1), tip.txs[k - 1], k - 1, h, key);
      DisconnectIndexStep(ix, tip.txs, tip.undos, h, key, k);
      TxEventsUnfold(tip, h, key, k - 1);
      TakeBackUndoesReplay(Only(d1), Replay(Only(d1), es, |es|), es, hs, |es|);
      TakeBackDeltas(ix, Replay(Only(d1), es, |es|), es, hs, |es|);
      DisconnectDeltas(TakeBack(ix, es, hs, |es|), d, tip, m, h, key, k - 1);
    }
  }

  lemma TxEventsUnfold(tip: Tip, h: nat, key: Indexer, i: nat)
    requires UndosFit(tip.txs, tip.undos) && i < |tip.txs|
    ensures TxEvents(tip, h, key, i) == Events(tip.txs[i], UndoneOutputs(tip.txs[i], tip.undos[i]), i, h, key)
    ensures forall j | 0 <= j < |TxEvents(tip, h, key, i)| :: TxEvents(tip, h, key, i)[j].height == h
  {
  }

  /** Disconnecting a block whose deltas are gone already changes none. */
  lemma {:induction false} DisconnectNoDeltas(ix: Index, tip: Tip, h: nat, key: Indexer, k: nat)
    requires UndosFit(tip.txs, tip.undos) && k <= |tip.txs| && BelowHeight(ix.deltas, h)
    ensures DisconnectIndex(ix, tip.txs, tip.undos, h, key, k).deltas == ix.deltas
    decreases k
  {
    hide Events, TxEvents, TakeBack, UndoHeights, DisconnectIndex, UndoFits;
    if k == 0 {
      DisconnectNothing(ix, tip.txs, tip.undos, h, key);
    } else {
      var es, hs := TxEvents(tip, h, key, k - 1), UndoHeights(tip.txs[k - 1], tip.undos[k - 1]);
      DisconnectIndexStep(ix, tip.txs, tip.undos, h, key, k);
      TxEventsUnfold(tip, h, key, k - 1);
      TakeBackNothing(ix, es, hs, |es|, h);
      DisconnectNoDeltas(TakeBack(ix, es, hs, |es|), tip, h, key, k - 1);
    }
  }

  /** The block moves the balance of an address by its credits. */
  lemma {:induction false} BlockMovesBalance(tip: Tip, m: Utxo, h: nat, key: Indexer, a: Address, k: nat)
    requires TipOf(tip, m, h) && k <= |tip.txs| && IndexesSpendable(key)
    ensures SumOf(ApplyFirst(m, tip.txs, h, k), PaidTo(key, a)) == SumOf(m, PaidTo(key, a)) + BlockCredits(tip, h, key, a, k)
  {
    hide BlockFits, BlockUndo, Events, Prevouts, UndosFit, TxEvents, SumOf, TxReady, WellFormed, Credits, PaidTo, IndexesSpendable, ApplyTx;
    if k > 0 {
      var m1, tx := ApplyFirst(m, tip.txs, h, k - 1), tip.txs[k - 1];
      BlockMovesBalance(tip, m, h, key, a, k - 1);
      TipEvents(tip, m, h, key, k);
      var es := TxEvents(tip, h, key, k - 1);
      PrevoutCount(m1, tx);
      EventCount(tx, Prevouts(m1, tx), k - 1, h, key);
      CreditsOfTx(m1, tx, k - 1, h, key, a, |es|);
      SumAfterTx(m1, tx, h, PaidTo(key, a));
      NoOutputs(tx, PaidTo(key, a));
      NoInputs(m1, tx, PaidTo(key, a));
    }
  }

  // ----- along the chain -----

  lemma {:induction false} ReplayBelow(d: Deltas, es: seq<Event>, k: nat, h: nat)
    requires k <= |es| && (forall j | 0 <= j < |es| :: es[j].height == h) && BelowHeight(d, h + 1)
    ensures BelowHeight(Replay(Only(d), es, k).deltas, h + 1)
  {
    if k > 0 {
      ReplayBelow(d, es, k - 1, h);
    }
  }

  lemma {:induction false} BlockDeltasBelow(d: Deltas, tip: Tip, h: nat, key: Indexer, k: nat)
    requires UndosFit(tip.txs, tip.undos) && k <= |tip.txs| && BelowHeight(d, h + 1)
    ensures BelowHeight(BlockDeltas(d, tip, h, key, k), h + 1)
  {
    hide Replay, TxEvents, UndosFit, BelowHeight;
    if k > 0 {
      BlockDeltasBelow(d, tip, h, key, k - 1);
      TxEventsUnfold(tip, h, key, k - 1);
      var es := TxEvents(tip, h, key, k - 1);
      ReplayBelow(BlockDeltas(d, tip, h, key, k - 1), es, |es|, h);
    }
  }

  lemma {:induction false} ChainDeltasBelow(chain: seq<Tip>, stuck: set<nat>, key: Indexer, k: nat)
    requires ChainHasUndo(chain) && k <= |chain|
    ensures BelowHeight(ChainDeltas(chain, stuck, key, k), k + 1)
  {
    hide BlockDeltas, UndosFit;
    if k > 0 {
      ChainDeltasBelow(chain, stuck, key, k - 1);
      BlockDeltasBelow(ChainDeltas(chain, stuck, key, k - 1), chain[k - 1], k, key, |chain[k - 1].txs|);
    }
  }

  /** Only the first `k` blocks, and which of them are stuck, matter. */
  lemma {:induction false} ChainDeltasPrefix(a: seq<Tip>, sa: set<nat>, b: seq<Tip>, sb: set<nat>, key: Indexer,
                                            addr: Address, k: nat)
    requires ChainHasUndo(a) && ChainHasUndo(b) && k <= |a| && k <= |b| && a[..k] == b[..k]
    requires forall h | 1 <= h <= k :: h in sa <==> h in sb
    ensures ChainDeltas(a, sa, key, k) == ChainDeltas(b, sb, key, k)
    ensures StuckCredits(a, sa, key, addr, k) == StuckCredits(b, sb, key, addr, k)
  {
    hide BlockDeltas, BlockCredits, UndosFit;
    if k > 0 {
      assert a[..k - 1] == a[..k][..k - 1] && b[..k - 1] == b[..k][..k - 1];
      assert a[k - 1] == a[..k][k - 1] && b[k - 1] == b[..k][k - 1];
      ChainDeltasPrefix(a, sa, b, sb, key, addr, k - 1);
    }
  }

  /** The tip of a trail is the block its last node accepted. */
  lemma TrailTip(n: Node, below: seq<Node>, p: Params)
    requires CoinTrail(n, below, p) && below != []
    ensures var s := below[|below| - 1];
            && |n.chain| > 0 && n.chain[..|n.chain| - 1] == s.chain && |s.chain| == |n.chain| - 1
            && TipOf(n.chain[|n.chain| - 1], s.coins, |n.chain|)
            && forall w: Weight :: SumOf(n.coins, w) == SumOf(ApplyBlock(s.coins, n.chain[|n.chain| - 1].txs, |n.chain|), w)
  {
    hide GoodCoins, Accepts, BlockFits, BlockUndo, ApplyBlock, SumOf, UndosFit, CoinsBackAt, ConnectIndex, Minted;
    var s, txs := below[|below| - 1], n.chain[|n.chain| - 1].txs;
    LinkTip(s, n, txs, p);
    AcceptedFits(s, txs, p);
    BlockUndoFits(s.coins, txs, NextHeight(s));
    ConnectKeepsGoodCoins(s, txs, p);
    BackIsGoodCoins(n, Connected(s, txs, p), p);
  }

  /** The deltas of the unstuck blocks and the credits of the stuck ones make up the balance. */
  lemma {:induction false} TrailBalance(n: Node, below: seq<Node>, stuck: set<nat>, a: Address, p: Params)
    requires CoinTrail(n, below, p) && IndexesSpendable(p.key) && ChainHasUndo(n.chain)
    ensures SumDeltas(ChainDeltas(n.chain, stuck, p.key, |n.chain|), a) + StuckCredits(n.chain, stuck, p.key, a, |n.chain|)
              == SumOf(n.coins, PaidTo(p.key, a))
    decreases |below|
  {
    hide GoodCoins, TipOf, BlockDeltas, BlockCredits, UndosFit, SumOf, SumDeltas, PaidTo, IndexesSpendable, CoinLink, ApplyBlock,
         BelowHeight, ChainHasUndo;
    TrailLength(n, below, p);
    if below == [] {
      NothingYet(n, stuck, p.key, a);
    } else {
      var s, rest, H := below[|below| - 1], below[..|below| - 1], |n.chain|;
      var tip := n.chain[H - 1];
      TrailTip(n, below, p);
      assert ChainHasUndo(s.chain) by {
        GoodChainHasUndo(s, p);
      }
      TrailBalance(s, rest, stuck, a, p);
      assert n.chain[..H - 1] == s.chain[..H - 1];
      ChainDeltasPrefix(n.chain, stuck, s.chain, stuck, p.key, a, H - 1);
      ChainDeltasBelow(s.chain, stuck, p.key, H - 1);
      TipFits(tip, s.coins, H);
      BlockDeltasGrow(ChainDeltas(n.chain, stuck, p.key, H - 1), tip, s.coins, H, p.key, a, |tip.txs|);
      BlockMovesBalance(tip, s.coins, H, p.key, a, |tip.txs|);
      ApplyBlockIsApplyFirst(s.coins, tip.txs, H);
      LastOfChain(n.chain, stuck, p.key, a);
    }
  }

  lemma NothingYet(n: Node, stuck: set<nat>, key: Indexer, a: Address)
    requires n.chain == [] && n.coins == map[] && ChainHasUndo(n.chain)
    ensures SumDeltas(ChainDeltas(n.chain, stuck, key, 0), a) == 0 && StuckCredits(n.chain, stuck, key, a, 0) == 0
    ensures SumOf(n.coins, PaidTo(key, a)) == 0
  {
  }

  lemma LastOfChain(chain: seq<Tip>, stuck: set<nat>, key: Indexer, a: Address)
    requires ChainHasUndo(chain) && chain != []
    ensures UndosFit(chain[|chain| - 1].txs, chain[|chain| - 1].undos)
    ensures var H, tip := |chain|, chain[|chain| - 1];
            var d := ChainDeltas(chain, stuck, key, H - 1);
            ChainDeltas(chain, stuck, key, H) == if H in stuck then d else BlockDeltas(d, tip, H, key, |tip.txs|)
    ensures var H, tip := |chain|, chain[|chain| - 1];
            StuckCredits(chain, stuck, key, a, H)
              == StuckCredits(chain, stuck, key, a, H - 1)
                 + if H in stuck then BlockCredits(tip, H, key, a, |tip.txs|) else 0
  {
    hide BlockDeltas, BlockCredits;
  }

  lemma TipFits(tip: Tip, m: Utxo, h: nat)
    requires TipOf(tip, m, h)
    ensures UndosFit(tip.txs, tip.undos)
  {
  }

  // ----- every run -----

  /** The stored deltas are those of the unstuck blocks. */
  ghost predicate DeltasAre(n: Node, stuck: set<nat>, key: Indexer) {
    ChainHasUndo(n.chain) && n.index.deltas == ChainDeltas(n.chain, stuck, key, |n.chain|)
  }

  lemma DeltasAfterConnect(n: Node, txs: seq<Tx>, stuck: set<nat>, p: Params)
    requires GoodCoins(n, p) && Accepts(n, txs, p) && DeltasAre(n, stuck, p.key) && forall h | h in stuck :: h <= |n.chain|
    ensures DeltasAre(Connected(n, txs, p), stuck, p.key)
  {
    hide GoodCoins, Accepts, BlockFits, BlockUndo, ApplyBlock, UndosFit, ConnectIndex, Minted, BlockDeltas;
    var n', H := Connected(n, txs, p), NextHeight(n);
    var tip := n'.chain[H - 1];
    AcceptedFits(n, txs, p);
    BlockUndoFits(n.coins, txs, H);
    ConnectDeltas(n.index, tip, n.coins, H, p.key, |txs|);
    assert n'.chain[..H - 1] == n.chain[..H - 1];
    ChainDeltasPrefix(n'.chain, stuck, n.chain, stuck, p.key, Address(0, 0), H - 1);
    LastOfChain(n'.chain, stuck, p.key, Address(0, 0));
  }

  /** Clean or not, the block's deltas are gone afterwards. */
  lemma DeltasAfterDisconnect(n: Node, below: seq<Node>, stuck: set<nat>, p: Params)
    requires CoinTrail(n, below, p) && HasUndo(n) && DeltasAre(n, stuck, p.key)
    ensures var n', H := Disconnected(n, p), |n.chain|;
            DeltasAre(n', if DisconnectIsClean(n) then stuck else stuck + {H}, p.key)
  {
    hide GoodCoins, CoinLink, TipOf, BlockDeltas, DisconnectIndex, UndosFit, BelowHeight, DisconnectBlock;
    var n', H := Disconnected(n, p), |n.chain|;
    var tip := n.chain[H - 1];
    var d := ChainDeltas(n.chain, stuck, p.key, H - 1);
    TrailLength(n, below, p);
    TrailTip(n, below, p);
    var s := below[|below| - 1];
    TipFits(tip, s.coins, H);
    LastOfChain(n.chain, stuck, p.key, Address(0, 0));
    ChainDeltasBelow(n.chain, stuck, p.key, H - 1);
    if H in stuck {
      DisconnectNoDeltas(n.index, tip, H, p.key, |tip.txs|);
    } else {
      DisconnectDeltas(n.index, d, tip, s.coins, H, p.key, |tip.txs|);
    }
    assert n'.index.deltas == d;
    if DisconnectIsClean(n) {
      assert n'.chain == n.chain[..H - 1];
      assert n'.chain[..H - 1] == n.chain[..H - 1];
      ChainDeltasPrefix(n'.chain, stuck, n.chain, stuck, p.key, Address(0, 0), H - 1);
    } else {
      ChainDeltasPrefix(n.chain, stuck + {H}, n.chain, stuck, p.key, Address(0, 0), H - 1);
      LastOfChain(n.chain, stuck + {H}, p.key, Address(0, 0));
    }
  }

  lemma {:induction false} RunKeepsDeltas(steps: seq<Step>, k: nat, p: Params)
    requires k <= |steps| && p.maxMoney >= 0 && p.maturity >= 1
    ensures DeltasAre(RunOf(EMPTY_NODE, steps, k, p), Stuck(EMPTY_NODE, steps, k, p), p.key)
  {
    hide GoodCoins, Accepts, Disconnected, Connected, HasUndo, DisconnectIsClean, CoinTrail, DeltasAre, OnDisk, TipStakesMarked;
    if k == 0 {
      NoDeltasYet(p.key);
    } else {
      RunKeepsDeltas(steps, k - 1, p);
      var below := RunLeavesCoinTrail(steps, k - 1, p);
      var n, step, stuck := RunOf(EMPTY_NODE, steps, k - 1, p), steps[k - 1], Stuck(EMPTY_NODE, steps, k - 1, p);
      if step.Connect? {
        if Accepts(n, step.txs, p) {
          EveryRunKeepsCoins(steps, k - 1, p);
          DeltasAfterConnect(n, step.txs, stuck, p);
        }
      } else if step.Flush? {
        SameDeltas(n, n.(coins := OnDisk(n.coins)), stuck, p.key);
      } else if HasUndo(n) {
        DeltasAfterDisconnect(n, below, stuck, p);
      }
    }
  }

  lemma NoDeltasYet(key: Indexer)
    ensures DeltasAre(EMPTY_NODE, {}, key)
  {
  }

  lemma SameDeltas(n: Node, n': Node, stuck: set<nat>, key: Indexer)
    requires DeltasAre(n, stuck, key) && n'.chain == n.chain && n'.index == n.index
    ensures DeltasAre(n', stuck, key)
  {
    hide ChainDeltas;
  }

  /** After every run, for every address: the stored deltas add up to the balance less what the
      blocks with a failed disconnect had moved. */
  lemma EveryRunDeltas(steps: seq<Step>, k: nat, p: Params, a: Address)
    requires k <= |steps| && p.maxMoney >= 0 && p.maturity >= 1 && IndexesSpendable(p.key)
    ensures var n, stuck := RunOf(EMPTY_NODE, steps, k, p), Stuck(EMPTY_NODE, steps, k, p);
            && ChainHasUndo(n.chain)
            && SumDeltas(n.index.deltas, a) + StuckCredits(n.chain, stuck, p.key, a, |n.chain|)
                 == SumOf(n.coins, PaidTo(p.key, a))
  {
    hide GoodCoins, CoinTrail, RunOf, Stuck, SumDeltas, SumOf, PaidTo, IndexesSpendable, ChainDeltas, StuckCredits, StuckUnmarked;
    var below := RunLeavesCoinTrail(steps, k, p);
    RunKeepsDeltas(steps, k, p);
    TrailBalance(RunOf(EMPTY_NODE, steps, k, p), below, Stuck(EMPTY_NODE, steps, k, p), a, p);
  }
}
