/** Runs in which every disconnect is clean and every transaction id new: coins, all three indexes and
    supply stay in step, and every disconnect goes back to where the node was. And what each
    index says after a disconnect that is not clean. */
module LedgerRuns {
  import opened Options
  import opened Coins
  import opened CoinsCache
  import opened BlockCoins
  import opened Undo
  import opened Rollback
  import opened CoinSums
  import opened AddressIndex
  import opened IndexBlocks
  import opened Ledger
  import opened LedgerSteps

  // ----- being back at an earlier node -----

  /** `n` is `s` again, up to lost coinstake flags, cut versions and the heights in the unspent
      index. */
  ghost predicate BackAt(n: Node, s: Node) {
    CoinsBackAt(n, s) && n.index.deltas == s.index.deltas && n.index.spent == s.index.spent
  }

  lemma BackAtTwice(n: Node, s: Node, r: Node)
    requires BackAt(n, s) && BackAt(s, r)
    ensures BackAt(n, r)
  {
    hide CoinsBackAt;
    CoinsBackAtTwice(n, s, r);
  }

  lemma BackIsGood(n: Node, s: Node, p: Params)
    requires Good(s, p) && BackAt(n, s) && Agrees(n.index.unspent, p.key, LiveOf(n.coins))
    ensures Good(n, p)
  {
    hide LiveOf, Agrees, SpentNames, SumOf, SumDeltas, SpentIsGone, ChainHasUndo, PaidTo, CoinsBackAt, GoodCoins;
    BackIsGoodCoins(n, s, p);
    BackKeepsChain(n, s);
    GoodChainHasUndo(s, p);
    GoodChainHasUndo(n, p);
    forall a
      ensures SumDeltas(n.index.deltas, a) == SumOf(n.coins, PaidTo(p.key, a))
    {
      assert SumOf(n.coins, PaidTo(p.key, a)) == SumOf(s.coins, PaidTo(p.key, a));
    }
  }

  // ----- one disconnect -----

  /** `s` accepted `txs`, and `n` is where that led. */
  ghost predicate Link(s: Node, n: Node, txs: seq<Tx>, p: Params) {
    && Good(s, p) && Accepts(s, txs, p) && NewIds(s, txs)
    && BackAt(n, Connected(s, txs, p))
  }

  lemma LinkOfCoins(s: Node, n: Node, txs: seq<Tx>, p: Params)
    requires Link(s, n, txs, p)
    ensures CoinLink(s, n, txs, p)
  {
    hide GoodCoins, Accepts, CoinsBackAt, Connected;
  }

  /** The index writes of the disconnect, clean or not. */
  lemma DisconnectWrites(s: Node, n: Node, txs: seq<Tx>, p: Params)
    requires Link(s, n, txs, p) && IndexesSpendable(p.key) && HasUndo(n)
    requires Agrees(n.index.unspent, p.key, LiveOf(n.coins))
    ensures InStep(Disconnected(n, p).index, s.index, s.coins, p.key)
  {
    hide ApplyBlock, BlockUndo, ConnectIndex, DisconnectIndex, Minted, BlockOk, DisconnectBlock, WellFormed, CoinsBackAt,
         GoodCoins, NewIds, Agrees, LiveOf, SpentNames, BlockFits, IndexReady, IndexesSpendable, UndosFit, DisconnectIsClean;
    var m', H := ApplyBlock(s.coins, txs, NextHeight(s)), NextHeight(s);
    LinkOfCoins(s, n, txs, p);
    LinkTip(s, n, txs, p);
    AcceptedFits(s, txs, p);
    ReadyForNext(s, txs, p);
    ConnectKeepsGoodCoins(s, txs, p);
    BackIsGoodCoins(n, Connected(s, txs, p), p);
    ApplyBlockIsApplyFirst(s.coins, txs, H);
    DisconnectIndexUndoes(s.index, n.index, s.coins, txs, H, p.key, |txs|);
  }

  /** A clean disconnect brings the node back to where it was before the block. */
  lemma DisconnectComesBack(s: Node, n: Node, txs: seq<Tx>, p: Params)
    requires Link(s, n, txs, p) && IndexesSpendable(p.key) && Good(n, p)
    requires HasUndo(n) && DisconnectIsClean(n)
    ensures BackAt(Disconnected(n, p), s) && Good(Disconnected(n, p), p)
  {
    hide Connected, Accepts, CoinsBackAt, GoodCoins, NewIds, Agrees, LiveOf, SpentNames, BalancesMatch, Written,
         IndexesSpendable, HasUndo, DisconnectIsClean, Disconnected, CoinLink;
    LinkOfCoins(s, n, txs, p);
    DisconnectWrites(s, n, txs, p);
    DisconnectBringsCoins(s, n, txs, p);
    BackIsGoodCoins(Disconnected(n, p), s, p);
    BackIsGood(Disconnected(n, p), s, p);
  }

  // ----- fair runs -----

  /** Transaction ids are new, and disconnects are clean. */
  ghost predicate Fair(n: Node, step: Step) {
    match step
    case Connect(txs) => NewIds(n, txs)
    case Disconnect => HasUndo(n) ==> DisconnectIsClean(n)
    case Flush => true
  }

  ghost predicate AllFair(n: Node, steps: seq<Step>, k: nat, p: Params)
    requires k <= |steps|
  {
    k == 0 || (AllFair(n, steps, k - 1, p) && Fair(RunOf(n, steps, k - 1, p), steps[k - 1]))
  }

  /** `below` holds, for every block of the chain, a good node that accepted it; each leads to the
      next, and the last to `n`. */
  ghost predicate Trail(n: Node, below: seq<Node>, p: Params)
    decreases |below|
  {
    && Good(n, p)
    && if below == [] then n.chain == []
       else
         var last := |below| - 1;
         && |n.chain| > 0 && Link(below[last], n, n.chain[|n.chain| - 1].txs, p)
         && Trail(below[last], below[..last], p)
  }

  lemma EmptyIsGood(p: Params)
    requires p.maxMoney >= 0
    ensures Good(EMPTY_NODE, p)
  {
    forall a
      ensures SumDeltas(map[], a) == SumOf(map[], PaidTo(p.key, a))
    {
    }
    assert forall out :: out !in LiveOf(map[]);
  }

  lemma EmptyTrail(p: Params)
    requires Good(EMPTY_NODE, p)
    ensures Trail(EMPTY_NODE, [], p)
  {
    hide Good;
  }

  /** A good node that is back at another takes its trail. */
  lemma TrailOfBack(n: Node, n': Node, below: seq<Node>, p: Params)
    requires Trail(n, below, p) && BackAt(n', n) && Good(n', p)
    ensures Trail(n', below, p)
  {
    hide Good, Accepts, NewIds, Connected, CoinsBackAt;
    BackKeepsChain(n', n);
    if below != [] {
      BackAtTwice(n', n, Connected(below[|below| - 1], n.chain[|n.chain| - 1].txs, p));
    }
  }

  lemma TrailAfterConnect(n: Node, below: seq<Node>, txs: seq<Tx>, p: Params)
    requires Trail(n, below, p) && Accepts(n, txs, p) && NewIds(n, txs) && IndexesSpendable(p.key)
    ensures Trail(Connected(n, txs, p), below + [n], p)
  {
    hide Good, Accepts, NewIds, IndexesSpendable, ApplyBlock, ConnectIndex, BlockUndo, Minted, CoinsBackAt;
    var n', below' := Connected(n, txs, p), below + [n];
    ConnectKeepsGood(n, txs, p);
    CoinsBackAtSelf(n', n');
    assert below'[..|below|] == below && below'[|below|] == n;
    assert n'.chain[|n'.chain| - 1].txs == txs;
  }

  lemma TrailAfterDisconnect(n: Node, below: seq<Node>, p: Params)
    requires Trail(n, below, p) && HasUndo(n) && DisconnectIsClean(n) && IndexesSpendable(p.key)
    ensures below != [] && Trail(Disconnected(n, p), below[..|below| - 1], p)
  {
    hide Good, Accepts, NewIds, IndexesSpendable, Disconnected, Connected, HasUndo, DisconnectIsClean, BackAt;
    assert |n.chain| > 0 by { UndoMeansChain(n); }
    var s := below[|below| - 1];
    DisconnectComesBack(s, n, n.chain[|n.chain| - 1].txs, p);
    TrailOfBack(s, Disconnected(n, p), below[..|below| - 1], p);
  }

  lemma TrailAfterFlush(n: Node, below: seq<Node>, p: Params)
    requires Trail(n, below, p)
    ensures Trail(n.(coins := OnDisk(n.coins)), below, p)
  {
    hide GoodCoins, Agrees, LiveOf, SpentNames, BalancesMatch, Written, CoinsBackAt, OnDisk, Link;
    var n' := n.(coins := OnDisk(n.coins));
    FlushIsWear(n);
    BackIsGoodCoins(n', n, p);
    BackIsGood(n', n, p);
    TrailOfBack(n, n', below, p);
  }

  lemma {:induction false} RunLeavesTrail(steps: seq<Step>, k: nat, p: Params) returns (below: seq<Node>)
    requires k <= |steps| && AllFair(EMPTY_NODE, steps, k, p) && IndexesSpendable(p.key) && p.maxMoney >= 0
    ensures Trail(RunOf(EMPTY_NODE, steps, k, p), below, p)
  {
    hide Good, Accepts, NewIds, IndexesSpendable, Disconnected, Connected, HasUndo, DisconnectIsClean, Trail, OnDisk;
    if k == 0 {
      below := [];
      EmptyIsGood(p);
      EmptyTrail(p);
    } else {
      var before := RunLeavesTrail(steps, k - 1, p);
      var n, step := RunOf(EMPTY_NODE, steps, k - 1, p), steps[k - 1];
      below := before;
      if step.Connect? {
        if Accepts(n, step.txs, p) {
          TrailAfterConnect(n, before, step.txs, p);
          below := before + [n];
        }
      } else if step.Flush? {
        TrailAfterFlush(n, before, p);
      } else if HasUndo(n) {
        TrailAfterDisconnect(n, before, p);
        below := before[..|before| - 1];
      }
    }
  }

  /** Over every run of connects, clean disconnects and flushes, with new ids: the address-unspent
      index lists exactly the indexable live outputs, each address's deltas sum to its balance,
      the spent index names exactly the outputs spent on the active chain, and the recorded
      money supply is what is unspent plus what was burned, within the limit. */
  lemma RunKeepsLedger(steps: seq<Step>, p: Params)
    requires AllFair(EMPTY_NODE, steps, |steps|, p) && IndexesSpendable(p.key) && p.maxMoney >= 0
    ensures Good(RunOf(EMPTY_NODE, steps, |steps|, p), p)
  {
    hide Good, AllFair, RunOf, IndexesSpendable;
    var below := RunLeavesTrail(steps, |steps|, p);
  }

  // ----- the disconnect that is not clean -----

  /** The live outputs of two states that some address is indexed for are the same. */
  ghost predicate SameIndexed(key: Indexer, a: imap<OutPoint, TxOut>, b: imap<OutPoint, TxOut>) {
    forall k: UnspentKey ::
      && (k.out in a && key(a[k.out].script) == Some(k.addr) <==> k.out in b && key(b[k.out].script) == Some(k.addr))
      && (k.out in a && key(a[k.out].script) == Some(k.addr) && k.out in b ==>
            a[k.out].value == b[k.out].value && a[k.out].script == b[k.out].script)
  }

  lemma AgreesIff(unspent: map<UnspentKey, UnspentValue>, key: Indexer, a: imap<OutPoint, TxOut>, b: imap<OutPoint, TxOut>)
    requires Agrees(unspent, key, a)
    ensures Agrees(unspent, key, b) <==> SameIndexed(key, a, b)
  {
    if Agrees(unspent, key, b) {
      forall k: UnspentKey
        ensures k.out in a && key(a[k.out].script) == Some(k.addr) <==> k.out in b && key(b[k.out].script) == Some(k.addr)
        ensures k.out in a && key(a[k.out].script) == Some(k.addr) && k.out in b ==>
                  a[k.out].value == b[k.out].value && a[k.out].script == b[k.out].script
      {
        assert k in unspent <==> k.out in a && key(a[k.out].script) == Some(k.addr);
        assert k in unspent <==> k.out in b && key(b[k.out].script) == Some(k.addr);
      }
    }
    if SameIndexed(key, a, b) {
      forall k: UnspentKey
        ensures k in unspent <==> k.out in b && key(b[k.out].script) == Some(k.addr)
        ensures k in unspent ==> unspent[k].amount == b[k.out].value && unspent[k].script == b[k.out].script
      {
        assert k in unspent <==> k.out in a && key(a[k.out].script) == Some(k.addr);
      }
    }
  }

  /** No transaction of the block has an input. */
  predicate SpendsNothing(txs: seq<Tx>) { forall i | 0 <= i < |txs| :: Inputs(txs[i]) == [] }

  /** The spent index of `s` names the outputs spent up to the next block exactly when that block
      spends none. */
  lemma SpentNamesIff(s: Node, chain: seq<Tip>, p: Params)
    requires ChainHasUndo(s.chain) && ChainHasUndo(chain) && SpentNames(s.index.spent, s.chain, p.key)
    requires |chain| == |s.chain| + 1 && chain[..|s.chain|] == s.chain
    requires forall h: nat, i: nat, j: nat, out | Spends(chain, h, i, j, out) && h == |chain| :: out !in s.index.spent
    ensures SpentNames(s.index.spent, chain, p.key) <==> SpendsNothing(chain[|chain| - 1].txs)
  {
    hide UndosFit;
    var H, txs := |chain|, chain[|chain| - 1].txs;
    forall x | 0 <= x < |s.chain|
      ensures chain[x] == s.chain[x]
    {
      assert chain[..|s.chain|][x] == chain[x];
    }
    forall h: nat, i: nat, j: nat, out | h < H
      ensures Spends(chain, h, i, j, out) <==> Spends(s.chain, h, i, j, out)
    {
    }
    if SpendsNothing(txs) {
      forall h: nat, i: nat, j: nat, out | Spends(chain, h, i, j, out)
        ensures h < H
      {
      }
      forall out | out in s.index.spent
        ensures exists h: nat, i: nat, j: nat :: Spends(chain, h, i, j, out)
      {
        var h: nat, i: nat, j: nat :| Spends(s.chain, h, i, j, out);
        assert Spends(chain, h, i, j, out);
      }
    } else {
      var i :| 0 <= i < |txs| && Inputs(txs[i]) != [];
      assert Spends(chain, H, i, 0, txs[i].vin[0]);
    }
  }

  lemma {:induction false} FreshAt(ix: Index, es: seq<Event>, j: nat, k: nat)
    requires j < k <= |es| && FreshAll(ix, es, k)
    ensures Fresh(Replay(ix, es, j), es[j]) && FreshAll(ix, es, j)
  {
    hide Fresh, Forward;
    if j < k - 1 {
      FreshAt(ix, es, j, k - 1);
    }
  }

  /** What a block spends was not spent before. */
  lemma InputIsNew(s: Node, txs: seq<Tx>, p: Params, i: nat, j: nat, out: OutPoint)
    requires Good(s, p) && Accepts(s, txs, p) && NewIds(s, txs) && IndexesSpendable(p.key) && IsInput(txs, i, j, out)
    ensures out !in s.index.spent
  {
    hide Good, Accepts, NewIds, IndexesSpendable, BlockFits, IndexReady, IndexMidway, ConnectIndex, ApplyFirst, FreshAll, Prevouts,
         UndosFit, BlockUndo, Replay;
    var H := NextHeight(s);
    GoodHasGoodCoins(s, p);
    AcceptedFits(s, txs, p);
    ReadyForNext(s, txs, p);
    BlockUndoFits(s.coins, txs, H);
    ConnectSpent(s.index, s.coins, txs, H, p.key, i);
    ConnectIndexKeeps(s.index, s.coins, txs, H, p.key, i + 1);
    var m1, ix1 := ApplyFirst(s.coins, txs, H, i), ConnectIndex(s.index, s.coins, txs, H, p.key, i);
    PrevoutCount(m1, txs[i]);
    var es := Events(txs[i], Prevouts(m1, txs[i]), i, H, p.key);
    assert es[j].spending && es[j].out == out;
    FreshAt(ix1, es, j, |es|);
    ReplaySpent(ix1, es, j);
  }

  lemma GoodHasGoodCoins(n: Node, p: Params)
    requires Good(n, p)
    ensures GoodCoins(n, p) && ChainHasUndo(n.chain) && SpentNames(n.index.spent, n.chain, p.key)
  {
    hide SpentNames, LiveOf, Agrees;
  }

  /** A disconnect that is not clean keeps coins and chain but has already taken the block out of the
      indexes. The deltas of an address then match its balance exactly when the block did not
      change that balance; the unspent index lists the indexable live outputs exactly when the
      block changed none of those; and the spent index names the outputs spent on the chain
      exactly when the block spends none. */
  lemma UncleanDisconnectDiverges(s: Node, n: Node, txs: seq<Tx>, p: Params, a: Address)
    requires Link(s, n, txs, p) && IndexesSpendable(p.key) && Good(n, p) && HasUndo(n) && !DisconnectIsClean(n)
    ensures var n' := Disconnected(n, p);
            && n'.coins == n.coins && n'.chain == n.chain && ChainHasUndo(n'.chain)
            && (SumDeltas(n'.index.deltas, a) == SumOf(n'.coins, PaidTo(p.key, a)) <==>
                SumOf(n.coins, PaidTo(p.key, a)) == SumOf(s.coins, PaidTo(p.key, a)))
            && (Agrees(n'.index.unspent, p.key, LiveOf(n'.coins)) <==> SameIndexed(p.key, LiveOf(s.coins), LiveOf(n.coins)))
            && (SpentNames(n'.index.spent, n'.chain, p.key) <==> SpendsNothing(txs))
  {
    hide Connected, Accepts, DisconnectIndex, DisconnectBlock, CoinsBackAt, GoodCoins, NewIds, Agrees, LiveOf, SpentNames,
         Written, SumOf, SumDeltas, PaidTo, IndexesSpendable, UndosFit, CoinLink, SameIndexed, SpendsNothing;
    var n' := Disconnected(n, p);
    DisconnectWrites(s, n, txs, p);
    LinkOfCoins(s, n, txs, p);
    LinkTip(s, n, txs, p);
    GoodHasGoodCoins(s, p);
    GoodHasGoodCoins(n, p);
    AgreesIff(n'.index.unspent, p.key, LiveOf(s.coins), LiveOf(n.coins));
    forall h: nat, i: nat, j: nat, out | Spends(n.chain, h, i, j, out) && h == |n.chain|
      ensures out !in s.index.spent
    {
      InputIsNew(s, txs, p, i, j, out);
    }
    SpentNamesIff(s, n.chain, p);
    SpentNamesSame(n'.index.spent, s.index.spent, n.chain, p.key);
  }

  lemma SpentNamesSame(a: map<OutPoint, SpentValue>, b: map<OutPoint, SpentValue>, chain: seq<Tip>, key: Indexer)
    requires a == b && ChainHasUndo(chain)
    ensures SpentNames(a, chain, key) <==> SpentNames(b, chain, key)
  {
  }
}
