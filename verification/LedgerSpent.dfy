/** What the spent index names after every run in which no transaction takes an id that was spent from
    before on its chain (src/main.cpp:2269-2286, 2337-2371, 2523-2593; src/txdb.cpp:237-273). A
    failed disconnect has erased the entries of its block for good, and only those. */
module LedgerSpent {
  import opened Options
  import opened Coins
  import opened CoinsCache
  import opened BlockCoins
  import opened Undo
  import opened CoinSums
  import opened AddressIndex
  import opened IndexBlocks
  import opened Ledger
  import opened LedgerSteps
  import opened LedgerDeltas
  import opened LedgerRuns
  import opened LedgerUnspent

  /** The index names exactly the outputs spent by blocks that are not stuck, each with its spender. */
  ghost predicate SpentBut(spent: map<OutPoint, SpentValue>, chain: seq<Tip>, stuck: set<nat>, key: Indexer)
    requires ChainHasUndo(chain)
  {
    AllNamed(spent, chain, stuck, key) && OnlyNamed(spent, chain, stuck)
  }

  ghost predicate AllNamed(spent: map<OutPoint, SpentValue>, chain: seq<Tip>, stuck: set<nat>, key: Indexer)
    requires ChainHasUndo(chain)
  {
    forall h: nat, i: nat, j: nat, out | Spends(chain, h, i, j, out) && h !in stuck ::
      out in spent && spent[out] == SpentEntry(chain[h - 1].txs, chain[h - 1].undos, h, key, i, j)
  }

  ghost predicate OnlyNamed(spent: map<OutPoint, SpentValue>, chain: seq<Tip>, stuck: set<nat>) {
    forall out | out in spent :: exists h: nat, i: nat, j: nat :: Spends(chain, h, i, j, out) && h !in stuck
  }

  // ----- ids that are new on their chain -----

  /** No id of the block is the id of a transaction spent from on the chain. */
  ghost predicate ChainNew(chain: seq<Tip>, txs: seq<Tx>) {
    forall h: nat, i: nat, j: nat, out | Spends(chain, h, i, j, out) :: NoneHas(txs, out.hash)
  }

  predicate NoneHas(txs: seq<Tx>, t: Hash) { forall x | 0 <= x < |txs| :: txs[x].id != t }

  /** That holds of every block on the chain. */
  ghost predicate IdsNew(chain: seq<Tip>) { forall g | 0 <= g < |chain| :: ChainNew(chain[..g], chain[g].txs) }

  /** ... and of every block that is connected in the run. */
  ghost predicate NewOnChain(steps: seq<Step>, k: nat, p: Params)
    requires k <= |steps|
  {
    k == 0 ||
    (NewOnChain(steps, k - 1, p) &&
     var n := RunOf(EMPTY_NODE, steps, k - 1, p);
     (steps[k - 1].Connect? && Accepts(n, steps[k - 1].txs, p) ==> ChainNew(n.chain, steps[k - 1].txs)))
  }

  lemma IdsNewPrefix(a: seq<Tip>, b: seq<Tip>)
    requires IdsNew(b) && a <= b
    ensures IdsNew(a)
  {
    hide ChainNew;
    forall g | 0 <= g < |a|
      ensures ChainNew(a[..g], a[g].txs)
    {
      assert a[..g] == b[..g] && a[g] == b[g];
    }
  }

  lemma IdsNewGrow(chain: seq<Tip>, tip: Tip)
    requires IdsNew(chain) && ChainNew(chain, tip.txs)
    ensures IdsNew(chain + [tip])
  {
    hide ChainNew;
    var c := chain + [tip];
    forall g | 0 <= g < |c|
      ensures ChainNew(c[..g], c[g].txs)
    {
      assert c[..g] == chain[..g];
      assert chain[..|chain|] == chain;
    }
  }

  lemma {:induction false} RunIdsNew(steps: seq<Step>, k: nat, p: Params)
    requires k <= |steps| && NewOnChain(steps, k, p)
    ensures IdsNew(RunOf(EMPTY_NODE, steps, k, p).chain)
  {
    hide Accepts, DisconnectIsClean, ChainNew, IdsNew, UndosFit, ApplyBlock, BlockUndo, ConnectIndex, Minted, DisconnectIndex,
         DisconnectBlock, OnDisk;
    if k == 0 {
      NoIdsYet();
    } else {
      RunIdsNew(steps, k - 1, p);
      var n, step := RunOf(EMPTY_NODE, steps, k - 1, p), steps[k - 1];
      if step.Connect? {
        if Accepts(n, step.txs, p) {
          var tip := Connected(n, step.txs, p).chain[|n.chain|];
          IdsNewGrow(n.chain, tip);
        }
      } else if step.Disconnect? && HasUndo(n) {
        IdsNewPrefix(n.chain[..|n.chain| - 1], n.chain);
      }
    }
  }

  lemma NoIdsYet()
    ensures IdsNew([])
  {
  }

  // ----- what is spent on the chain is not live, and is spent once -----

  ghost predicate SpentGone(chain: seq<Tip>, m: Utxo) {
    forall h: nat, i: nat, j: nat, out | Spends(chain, h, i, j, out) :: !HaveInput(m, out)
  }

  lemma {:induction false} InputIsSpent(txs: seq<Tx>, i: nat, j: nat, out: OutPoint, k: nat)
    requires IsInput(txs, i, j, out) && i < k <= |txs|
    ensures out in SpentBy(txs, k)
  {
    if i < k - 1 {
      InputIsSpent(txs, i, j, out, k - 1);
    }
  }

  lemma {:induction false} SpentIsInput(txs: seq<Tx>, k: nat, out: OutPoint) returns (i: nat, j: nat)
    requires k <= |txs| && out in SpentBy(txs, k)
    ensures i < k && IsInput(txs, i, j, out)
  {
    if out in TxSpends(txs[k - 1]) {
      i := k - 1;
      j :| 0 <= j < |Inputs(txs[i])| && Inputs(txs[i])[j] == out;
    } else {
      i, j := SpentIsInput(txs, k - 1, out);
    }
  }

  /** A block spends nothing that was spent before on its chain, and leaves none of it live. */
  lemma BlockSpendsNew(chain: seq<Tip>, m: Utxo, txs: seq<Tx>, H: nat, h: nat, i: nat, j: nat, out: OutPoint)
    requires BlockFits(m, txs, H) && SpentGone(chain, m) && ChainNew(chain, txs) && Spends(chain, h, i, j, out)
    ensures out !in SpentBy(txs, |txs|) && !HaveInput(ApplyFirst(m, txs, H, |txs|), out)
  {
    hide HaveInput, ApplyFirst, BlockFits, SpentBy, MadeBy, Spends;
    BlockMoves(m, txs, H, |txs|, out);
    assert NoneHas(txs, out.hash);
  }

  /** The spends of a chain are those of its blocks. */
  lemma SpendsBelow(chain: seq<Tip>, rest: seq<Tip>, h: nat, i: nat, j: nat, out: OutPoint)
    requires rest <= chain && h <= |rest|
    ensures Spends(chain, h, i, j, out) <==> Spends(rest, h, i, j, out)
  {
    assert 1 <= h ==> chain[h - 1] == rest[h - 1];
  }

  lemma {:induction false} TrailSpentGone(n: Node, below: seq<Node>, p: Params)
    requires CoinTrail(n, below, p) && IdsNew(n.chain)
    ensures SpentGone(n.chain, n.coins)
    decreases |below|
  {
    hide GoodCoins, CoinLink, LiveOf, HaveInput, ApplyFirst, BlockFits, BlockUndo, UndosFit, HasUndo, DisconnectIsClean, Disconnected, IdsNew,
         ChainNew, Spends, IsInput;
    TrailLength(n, below, p);
    if below == [] {
      NothingSpends(n.chain, n.coins);
    } else {
      var s, H := below[|below| - 1], |n.chain|;
      var txs := n.chain[H - 1].txs;
      TrailLive(n, below, p);
      IdsNewPrefix(s.chain, n.chain);
      TrailSpentGone(s, below[..|below| - 1], p);
      TipIsNew(n.chain);
      forall h: nat, i: nat, j: nat, out | Spends(n.chain, h, i, j, out)
        ensures !HaveInput(n.coins, out)
      {
        LiveOfHas(n.coins, out);
        LiveOfHas(ApplyFirst(s.coins, txs, H, |txs|), out);
        if h < H {
          SpendsBelow(n.chain, s.chain, h, i, j, out);
          BlockSpendsNew(s.chain, s.coins, txs, H, h, i, j, out);
        } else {
          TipSpends(n.chain, h, i, j, out);
          InputIsSpent(txs, i, j, out, |txs|);
          BlockMoves(s.coins, txs, H, |txs|, out);
        }
      }
    }
  }

  lemma NothingSpends(chain: seq<Tip>, m: Utxo)
    requires chain == []
    ensures SpentGone(chain, m)
  {
  }

  lemma TipIsNew(chain: seq<Tip>)
    requires chain != [] && IdsNew(chain)
    ensures ChainNew(chain[..|chain| - 1], chain[|chain| - 1].txs)
  {
    hide ChainNew;
  }

  lemma TipSpends(chain: seq<Tip>, h: nat, i: nat, j: nat, out: OutPoint)
    requires Spends(chain, h, i, j, out) && h >= |chain|
    ensures h == |chain| && IsInput(chain[h - 1].txs, i, j, out) && i < |chain[h - 1].txs|
  {
  }

  /** No output is spent by two blocks of the chain. */
  lemma {:induction false} TrailSpendsOnce(n: Node, below: seq<Node>, p: Params, g: nat, h: nat, i: nat, j: nat, x: nat, y: nat, out: OutPoint)
    requires CoinTrail(n, below, p) && IdsNew(n.chain) && g < h && Spends(n.chain, g, i, j, out)
    ensures !Spends(n.chain, h, x, y, out)
    decreases |below|
  {
    hide GoodCoins, CoinLink, LiveOf, HaveInput, ApplyFirst, BlockFits, BlockUndo, UndosFit, HasUndo, DisconnectIsClean, Disconnected, IdsNew,
         ChainNew, Spends, IsInput;
    TrailLength(n, below, p);
    SpendsInside(n.chain, g, i, j, out);
    if below != [] {
      var s, H := below[|below| - 1], |n.chain|;
      TrailLive(n, below, p);
      IdsNewPrefix(s.chain, n.chain);
      if h < H {
        SpendsBelow(n.chain, s.chain, g, i, j, out);
        SpendsBelow(n.chain, s.chain, h, x, y, out);
        TrailSpendsOnce(s, below[..|below| - 1], p, g, h, i, j, x, y, out);
      } else if Spends(n.chain, h, x, y, out) {
        TipSpends(n.chain, h, x, y, out);
        SpendsBelow(n.chain, s.chain, g, i, j, out);
        TrailSpentGone(s, below[..|below| - 1], p);
        TipIsNew(n.chain);
        BlockSpendsNew(s.chain, s.coins, n.chain[H - 1].txs, H, g, i, j, out);
        InputIsSpent(n.chain[H - 1].txs, x, y, out, |n.chain[H - 1].txs|);
      }
    }
  }

  lemma SpendsInside(chain: seq<Tip>, h: nat, i: nat, j: nat, out: OutPoint)
    requires Spends(chain, h, i, j, out)
    ensures 1 <= h <= |chain| && i < |chain[h - 1].txs| && j < |Inputs(chain[h - 1].txs[i])|
  {
  }

  // ----- connecting -----

  /** The entries that agree with the coins `m`; the heights do not matter. */
  ghost function KeysOf(m: Utxo, key: Indexer): set<UnspentKey> {
    set t, i | t in m && 0 <= i < |m[t].vout| && !m[t].vout[i].IsNull() && key(m[t].vout[i].script).Some? ::
      UnspentKey(key(m[t].vout[i].script).value, OutPoint(t, i))
  }

  ghost function ListOf(m: Utxo, key: Indexer): map<UnspentKey, UnspentValue> {
    map k | k in KeysOf(m, key) :: UnspentValue(Prevout(m, k.out).value, Prevout(m, k.out).script, 0)
  }

  lemma ListAgrees(m: Utxo, key: Indexer)
    ensures Agrees(ListOf(m, key), key, LiveOf(m))
  {
    forall k: UnspentKey
      ensures k in KeysOf(m, key) <==> k.out in LiveOf(m) && key(LiveOf(m)[k.out].script) == Some(k.addr)
    {
      if k.out in LiveOf(m) && key(LiveOf(m)[k.out].script) == Some(k.addr) {
        var t, i := k.out.hash, k.out.n;
        assert k == UnspentKey(key(m[t].vout[i].script).value, OutPoint(t, i));
      }
    }
  }

  lemma {:induction false} ReplaySpentOnly(a: Index, b: Index, es: seq<Event>, k: nat)
    requires k <= |es| && a.spent == b.spent
    ensures Replay(a, es, k).spent == Replay(b, es, k).spent
  {
    if k > 0 {
      ReplaySpentOnly(a, b, es, k - 1);
    }
  }

  lemma {:induction false} ConnectSpentOnly(a: Index, b: Index, m: Utxo, txs: seq<Tx>, h: nat, key: Indexer, k: nat)
    requires k <= |txs| && a.spent == b.spent
    ensures ConnectIndex(a, m, txs, h, key, k).spent == ConnectIndex(b, m, txs, h, key, k).spent
  {
    hide ApplyFirst, Replay, Events, Prevouts, ConnectIndex;
    ConnectIndexUnfold(a, m, txs, h, key, k);
    ConnectIndexUnfold(b, m, txs, h, key, k);
    if k > 0 {
      ConnectSpentOnly(a, b, m, txs, h, key, k - 1);
      var m1 := ApplyFirst(m, txs, h, k - 1);
      PrevoutCount(m1, txs[k - 1]);
      var es := Events(txs[k - 1], Prevouts(m1, txs[k - 1]), k - 1, h, key);
      ReplaySpentOnly(ConnectIndex(a, m, txs, h, key, k - 1), ConnectIndex(b, m, txs, h, key, k - 1), es, |es|);
    }
  }

  /** The entries are new, so that connecting adds those of the block and changes no other. */
  lemma ConnectAddsSpent(n: Node, txs: seq<Tx>, stuck: set<nat>, p: Params)
    requires GoodCoins(n, p) && Accepts(n, txs, p) && IndexesSpendable(p.key) && ChainHasUndo(n.chain)
    requires SpentBut(n.index.spent, n.chain, stuck, p.key) && SpentGone(n.chain, n.coins) && ChainNew(n.chain, txs)
    ensures UndosFit(txs, BlockUndo(n.coins, txs, NextHeight(n)))
    ensures SpentAdded(n.index.spent, Connected(n, txs, p).index.spent, txs, BlockUndo(n.coins, txs, NextHeight(n)), NextHeight(n), p.key, |txs|)
  {
    hide GoodCoins, Accepts, BlockFits, BlockUndo, ApplyFirst, UndosFit, Agrees, ConnectIndex, SpentAdded, HaveInput, LiveOf, Spends,
         IndexesSpendable, ListOf, IndexReady, Minted, ApplyBlock;
    var H, spent := NextHeight(n), n.index.spent;
    var ix := Index(map[], ListOf(n.coins, p.key), spent);
    AcceptedFits(n, txs, p);
    BlockUndoFits(n.coins, txs, H);
    ListAgrees(n.coins, p.key);
    forall out | out in spent
      ensures out !in LiveOf(n.coins) && NoneHas(txs, out.hash)
    {
      var h: nat, i: nat, j: nat :| Spends(n.chain, h, i, j, out) && h !in stuck;
      LiveOfHas(n.coins, out);
    }
    assert IndexReady(ix, n.coins, txs, H, p.key) by { NowReady(ix, n.coins, txs, H, p.key); }
    ConnectSpent(ix, n.coins, txs, H, p.key, |txs|);
    ConnectSpentOnly(ix, n.index, n.coins, txs, H, p.key, |txs|);
  }

  lemma NowReady(ix: Index, m: Utxo, txs: seq<Tx>, h: nat, key: Indexer)
    requires Agrees(ix.unspent, key, LiveOf(m)) && ix.deltas == map[]
    requires forall out | out in ix.spent :: out !in LiveOf(m) && NoneHas(txs, out.hash)
    ensures IndexReady(ix, m, txs, h, key)
  {
    hide Agrees, LiveOf;
  }

  lemma SpentAfterConnect(n: Node, txs: seq<Tx>, stuck: set<nat>, p: Params)
    requires GoodCoins(n, p) && Accepts(n, txs, p) && IndexesSpendable(p.key) && ChainHasUndo(n.chain) && forall h | h in stuck :: h <= |n.chain|
    requires SpentBut(n.index.spent, n.chain, stuck, p.key) && SpentGone(n.chain, n.coins) && ChainNew(n.chain, txs)
    ensures var n' := Connected(n, txs, p); ChainHasUndo(n'.chain) && SpentBut(n'.index.spent, n'.chain, stuck, p.key)
  {
    hide GoodCoins, Accepts, BlockUndo, ApplyBlock, UndosFit, ConnectIndex, Minted, IndexesSpendable, SpentGone, ChainNew;
    var n', H := Connected(n, txs, p), NextHeight(n);
    var tip := n'.chain[H - 1];
    ConnectAddsSpent(n, txs, stuck, p);
    var s, s' := n.index.spent, n'.index.spent;
    forall h: nat, i: nat, j: nat, out | Spends(n'.chain, h, i, j, out) && h !in stuck
      ensures out in s' && s'[out] == SpentEntry(n'.chain[h - 1].txs, n'.chain[h - 1].undos, h, p.key, i, j)
    {
      if h < H {
        SpendsBelow(n'.chain, n.chain, h, i, j, out);
      } else {
        assert IsInput(txs, i, j, out);
      }
    }
    forall out | out in s'
      ensures exists h: nat, i: nat, j: nat :: Spends(n'.chain, h, i, j, out) && h !in stuck
    {
      if out in s {
        var h: nat, i: nat, j: nat :| Spends(n.chain, h, i, j, out) && h !in stuck;
        SpendsBelow(n'.chain, n.chain, h, i, j, out);
      } else {
        var i: nat, j: nat :| i < |txs| && IsInput(txs, i, j, out);
        assert Spends(n'.chain, H, i, j, out) && H !in stuck;
      }
    }
  }

  // ----- disconnecting -----

  function SpentIn(es: seq<Event>, k: nat): set<OutPoint>
    requires k <= |es|
  {
    if k == 0 then {} else SpentIn(es, k - 1) + if es[k - 1].spending then {es[k - 1].out} else {}
  }

  lemma {:induction false} TakeBackSpent(ix: Index, es: seq<Event>, hs: seq<nat>, k: nat)
    requires k <= |es| == |hs|
    ensures TakeBack(ix, es, hs, k).spent == ix.spent - SpentIn(es, k)
    decreases k
  {
    if k > 0 {
      var ix1 := Backward(ix, es[k - 1], hs[k - 1]);
      TakeBackSpent(ix1, es, hs, k - 1);
      assert ix1.spent - SpentIn(es, k - 1) == ix.spent - SpentIn(es, k);
    }
  }

  lemma {:induction false} SpentInIs(tx: Tx, prevouts: seq<TxOut>, i: nat, h: nat, key: Indexer, k: nat)
    requires |prevouts| == |Inputs(tx)| && k <= |prevouts| + |tx.vout|
    ensures SpentIn(Events(tx, prevouts, i, h, key), k) == set j | 0 <= j < k && j < |prevouts| :: Inputs(tx)[j]
  {
    if k > 0 {
      SpentInIs(tx, prevouts, i, h, key, k - 1);
      if k <= |prevouts| {
        assert (set j | 0 <= j < k && j < |prevouts| :: Inputs(tx)[j])
            == (set j | 0 <= j < k - 1 && j < |prevouts| :: Inputs(tx)[j]) + {Inputs(tx)[k - 1]};
      }
    }
  }

  lemma TxSpentIn(tx: Tx, prevouts: seq<TxOut>, i: nat, h: nat, key: Indexer)
    requires |prevouts| == |Inputs(tx)|
    ensures var es := Events(tx, prevouts, i, h, key); SpentIn(es, |es|) == TxSpends(tx)
  {
    EventCount(tx, prevouts, i, h, key);
    SpentInIs(tx, prevouts, i, h, key, |prevouts| + |tx.vout|);
  }

  /** Clean or not, a disconnect erases the entries of its block. */
  lemma {:induction false} DisconnectSpent(ix: Index, tip: Tip, h: nat, key: Indexer, k: nat)
    requires UndosFit(tip.txs, tip.undos) && k <= |tip.txs|
    ensures DisconnectIndex(ix, tip.txs, tip.undos, h, key, k).spent == ix.spent - SpentBy(tip.txs, k)
    decreases k
  {
    hide Events, TxEvents, TakeBack, UndoHeights, DisconnectIndex, UndoFits, TxSpends, UndoneOutputs, SpentIn;
    if k == 0 {
      DisconnectNothing(ix, tip.txs, tip.undos, h, key);
    } else {
      var tx := tip.txs[k - 1];
      var es, hs := TxEvents(tip, h, key, k - 1), UndoHeights(tx, tip.undos[k - 1]);
      DisconnectIndexStep(ix, tip.txs, tip.undos, h, key, k);
      TxEventsUnfold(tip, h, key, k - 1);
      UndoneCount(tx, tip.undos[k - 1]);
      TxSpentIn(tx, UndoneOutputs(tx, tip.undos[k - 1]), k - 1, h, key);
      TakeBackSpent(ix, es, hs, |es|);
      DisconnectSpent(TakeBack(ix, es, hs, |es|), tip, h, key, k - 1);
      assert ix.spent - TxSpends(tx) - SpentBy(tip.txs, k - 1) == ix.spent - SpentBy(tip.txs, k);
    }
  }

  lemma UndoneCount(tx: Tx, undos: seq<TxInUndo>)
    requires UndoFits(tx, undos)
    ensures |UndoneOutputs(tx, undos)| == |Inputs(tx)|
  {
  }

  /** What is left of the chain after the tip's entries are erased, and which of it is stuck. */
  ghost predicate Erased(n: Node, chain': seq<Tip>, stuck: set<nat>, stuck': set<nat>) {
    && |n.chain| > 0
    && if chain' == n.chain then stuck' == stuck + {|n.chain|} else chain' == n.chain[..|n.chain| - 1] && stuck' == stuck
  }

  /** The entries of the other blocks stay, */
  lemma EraseKeepsOthers(n: Node, below: seq<Node>, stuck: set<nat>, p: Params, chain': seq<Tip>, stuck': set<nat>)
    requires CoinTrail(n, below, p) && IdsNew(n.chain) && ChainHasUndo(n.chain) && ChainHasUndo(chain')
    requires AllNamed(n.index.spent, n.chain, stuck, p.key) && Erased(n, chain', stuck, stuck')
    ensures AllNamed(n.index.spent - SpentBy(n.chain[|n.chain| - 1].txs, |n.chain[|n.chain| - 1].txs|), chain', stuck', p.key)
  {
    hide CoinTrail, IdsNew, UndosFit, SpentBy, IsInput;
    var H, txs := |n.chain|, n.chain[|n.chain| - 1].txs;
    var s' := n.index.spent - SpentBy(txs, |txs|);
    forall h: nat, i: nat, j: nat, out | Spends(chain', h, i, j, out) && h !in stuck'
      ensures 1 <= h <= |chain'| && i < |chain'[h - 1].txs| && j < |Inputs(chain'[h - 1].txs[i])|
      ensures out in s' && s'[out] == SpentEntry(chain'[h - 1].txs, chain'[h - 1].undos, h, p.key, i, j)
    {
      SpendsBelow(n.chain, chain', h, i, j, out);
      SpendsInside(chain', h, i, j, out);
      assert h < H && chain'[h - 1] == n.chain[h - 1];
      if out in SpentBy(txs, |txs|) {
        var x, y := SpentIsInput(txs, |txs|, out);
        TrailSpendsOnce(n, below, p, h, H, i, j, x, y, out);
      }
    }
  }

  /** and no others are left. */
  lemma EraseLeavesOnly(n: Node, stuck: set<nat>, chain': seq<Tip>, stuck': set<nat>)
    requires OnlyNamed(n.index.spent, n.chain, stuck) && Erased(n, chain', stuck, stuck')
    ensures OnlyNamed(n.index.spent - SpentBy(n.chain[|n.chain| - 1].txs, |n.chain[|n.chain| - 1].txs|), chain', stuck')
  {
    hide SpentBy, Spends;
    var H, txs := |n.chain|, n.chain[|n.chain| - 1].txs;
    forall out | out in n.index.spent - SpentBy(txs, |txs|)
      ensures exists h: nat, i: nat, j: nat :: Spends(chain', h, i, j, out) && h !in stuck'
    {
      var h: nat, i: nat, j: nat :| Spends(n.chain, h, i, j, out) && h !in stuck;
      SpendsInside(n.chain, h, i, j, out);
      if h == H {
        TipSpends(n.chain, h, i, j, out);
        InputIsSpent(txs, i, j, out, |txs|);
      } else {
        SpendsBelow(n.chain, chain', h, i, j, out);
      }
    }
  }

  lemma SpentAfterErase(n: Node, below: seq<Node>, stuck: set<nat>, p: Params, chain': seq<Tip>, stuck': set<nat>)
    requires CoinTrail(n, below, p) && IdsNew(n.chain) && ChainHasUndo(n.chain)
    requires SpentBut(n.index.spent, n.chain, stuck, p.key) && Erased(n, chain', stuck, stuck')
    ensures ChainHasUndo(chain')
    ensures SpentBut(n.index.spent - SpentBy(n.chain[|n.chain| - 1].txs, |n.chain[|n.chain| - 1].txs|), chain', stuck', p.key)
  {
    hide CoinTrail, IdsNew, UndosFit, SpentBy, AllNamed, OnlyNamed;
    EraseKeepsOthers(n, below, stuck, p, chain', stuck');
    EraseLeavesOnly(n, stuck, chain', stuck');
  }

  // ----- every run -----

  lemma NothingNamed(key: Indexer)
    ensures SpentBut(map[], [], {}, key)
  {
  }

  lemma {:induction false} RunSpent(steps: seq<Step>, k: nat, p: Params)
    requires k <= |steps| && p.maxMoney >= 0 && p.maturity >= 1 && IndexesSpendable(p.key) && NewOnChain(steps, k, p)
    ensures var n := RunOf(EMPTY_NODE, steps, k, p);
            ChainHasUndo(n.chain) && SpentBut(n.index.spent, n.chain, Stuck(EMPTY_NODE, steps, k, p), p.key)
  {
    hide GoodCoins, Accepts, DisconnectIsClean, CoinTrail, SpentBut, OnDisk, IndexesSpendable, BlockFits, SpentGone, ChainNew, IdsNew,
         ConnectIndex, ApplyBlock, BlockUndo, Minted, DisconnectBlock, DisconnectIndex, UndosFit, TipStakesMarked;
    if k == 0 {
      NothingNamed(p.key);
    } else {
      RunSpent(steps, k - 1, p);
      var n, step, stuck := RunOf(EMPTY_NODE, steps, k - 1, p), steps[k - 1], Stuck(EMPTY_NODE, steps, k - 1, p);
      var below := RunLeavesCoinTrail(steps, k - 1, p);
      RunIdsNew(steps, k - 1, p);
      if step.Connect? {
        if Accepts(n, step.txs, p) {
          EveryRunKeepsCoins(steps, k - 1, p);
          TrailSpentGone(n, below, p);
          SpentAfterConnect(n, step.txs, stuck, p);
        }
      } else if step.Disconnect? && HasUndo(n) {
        var tip := n.chain[|n.chain| - 1];
        DisconnectSpent(n.index, tip, |n.chain|, p.key, |tip.txs|);
        if DisconnectIsClean(n) {
          SpentAfterErase(n, below, stuck, p, n.chain[..|n.chain| - 1], stuck);
        } else {
          SpentAfterErase(n, below, stuck, p, n.chain, stuck + {|n.chain|});
        }
      }
    }
  }

  /** After every run with ids new on their chain: the spent index names exactly what the blocks without a
      failed disconnect spent. So it names everything spent on the chain exactly when the blocks
      with one spend nothing. */
  lemma EveryRunSpent(steps: seq<Step>, k: nat, p: Params)
    requires k <= |steps| && p.maxMoney >= 0 && p.maturity >= 1 && IndexesSpendable(p.key) && NewOnChain(steps, k, p)
    ensures var n, stuck := RunOf(EMPTY_NODE, steps, k, p), Stuck(EMPTY_NODE, steps, k, p);
            && ChainHasUndo(n.chain) && SpentBut(n.index.spent, n.chain, stuck, p.key)
            && (SpentNames(n.index.spent, n.chain, p.key) <==>
                forall h | h in stuck :: 1 <= h <= |n.chain| && SpendsNothing(n.chain[h - 1].txs))
  {
    hide GoodCoins, CoinTrail, RunOf, Stuck, SpentBut, SpentNames, NewOnChain, IdsNew, TipStakesMarked, UndosFit, IndexesSpendable;
    var n, stuck := RunOf(EMPTY_NODE, steps, k, p), Stuck(EMPTY_NODE, steps, k, p);
    RunSpent(steps, k, p);
    var below := RunLeavesCoinTrail(steps, k, p);
    RunIdsNew(steps, k, p);
    NamesAllIff(n, below, stuck, p);
  }

  /** A stuck block that spends something is not named. */
  lemma StuckIsMissing(n: Node, below: seq<Node>, stuck: set<nat>, p: Params, h: nat)
    requires CoinTrail(n, below, p) && IdsNew(n.chain) && OnlyNamed(n.index.spent, n.chain, stuck)
    requires h in stuck && 1 <= h <= |n.chain| && !SpendsNothing(n.chain[h - 1].txs)
    ensures exists i: nat, out :: Spends(n.chain, h, i, 0, out) && out !in n.index.spent
  {
    hide CoinTrail, IdsNew;
    var txs := n.chain[h - 1].txs;
    var i :| 0 <= i < |txs| && Inputs(txs[i]) != [];
    var out := txs[i].vin[0];
    assert Spends(n.chain, h, i, 0, out);
    hide Spends;
    if out in n.index.spent {
      var g: nat, x: nat, y: nat :| Spends(n.chain, g, x, y, out) && g !in stuck;
      if g < h {
        TrailSpendsOnce(n, below, p, g, h, x, y, i, 0, out);
      } else {
        TrailSpendsOnce(n, below, p, h, g, i, 0, x, y, out);
      }
    }
  }

  lemma StuckSpendNothing(n: Node, stuck: set<nat>, p: Params)
    requires ChainHasUndo(n.chain) && SpentBut(n.index.spent, n.chain, stuck, p.key)
    requires forall h | h in stuck :: 1 <= h <= |n.chain| && SpendsNothing(n.chain[h - 1].txs)
    ensures SpentNames(n.index.spent, n.chain, p.key)
  {
    hide UndosFit;
    forall h: nat, i: nat, j: nat, out | Spends(n.chain, h, i, j, out)
      ensures h !in stuck
    {
    }
  }

  lemma NamesAllIff(n: Node, below: seq<Node>, stuck: set<nat>, p: Params)
    requires CoinTrail(n, below, p) && IdsNew(n.chain) && ChainHasUndo(n.chain) && SpentBut(n.index.spent, n.chain, stuck, p.key)
    requires forall h | h in stuck :: 1 <= h <= |n.chain|
    ensures SpentNames(n.index.spent, n.chain, p.key) <==> forall h | h in stuck :: SpendsNothing(n.chain[h - 1].txs)
  {
    hide CoinTrail, IdsNew, UndosFit, Spends, SpendsNothing, AllNamed, OnlyNamed;
    if forall h | h in stuck :: SpendsNothing(n.chain[h - 1].txs) {
      StuckSpendNothing(n, stuck, p);
    } else {
      var h :| h in stuck && !SpendsNothing(n.chain[h - 1].txs);
      StuckIsMissing(n, below, stuck, p, h);
    }
  }
}
