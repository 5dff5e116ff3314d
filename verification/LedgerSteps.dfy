/** Every run of the ledger, with nothing assumed about it: connects, disconnects that fail, flushes
    to disk, repeated transaction ids. Coins, undo data and supply stay in order throughout,
    a disconnect is clean exactly when the coinstakes of the tip still carry their flag, and a
    block whose disconnect has once failed stays on the chain for good. */
module LedgerSteps {
  import opened Coins
  import opened CoinsCache
  import opened BlockCoins
  import opened Undo
  import opened Rollback
  import opened CoinSums
  import opened AddressIndex
  import opened IndexBlocks
  import opened Ledger

  // ----- wear does not move any output -----

  lemma WornKeepsLive(m: Utxo, gone: set<Hash>, cut: set<Hash>)
    ensures LiveOf(Worn(m, gone, cut)) == LiveOf(m)
    ensures WellFormed(m) ==> WellFormed(Worn(m, gone, cut))
  {
    var f := Worn(m, gone, cut);
    forall out: OutPoint
      ensures HaveInput(f, out) <==> HaveInput(m, out)
      ensures HaveInput(m, out) ==> f[out.hash].vout == m[out.hash].vout
    {
    }
  }

  lemma {:induction false} WornKeepsSum(m: Utxo, gone: set<Hash>, cut: set<Hash>, w: Weight)
    ensures SumOf(Worn(m, gone, cut), w) == SumOf(m, w)
    decreases |m|
  {
    hide RecordSum, CutVersion;
    var f := Worn(m, gone, cut);
    if m == map[] {
      assert f == map[];
    } else {
      var t :| t in m && SumOf(m, w) == RecordSum(m[t], w) + SumOf(m - {t}, w);
      SumTakesOut(f, w, t);
      SameView(f - {t}, Worn(m - {t}, gone, cut));
      WornKeepsSum(m - {t}, gone, cut, w);
      SameOutputsSum(f[t], m[t], w);
    }
  }

  lemma SameOutputsSum(c: Coins, d: Coins, w: Weight)
    requires c.vout == d.vout
    ensures RecordSum(c, w) == RecordSum(d, w)
  {
  }

  lemma WornTwice(m: Utxo, a: set<Hash>, b: set<Hash>, c: set<Hash>, d: set<Hash>)
    ensures Worn(Worn(m, a, c), b, d) == Worn(m, a + b, c + d)
  {
    SameView(Worn(Worn(m, a, c), b, d), Worn(m, a + b, c + d));
  }

  lemma FlushedIsWorn(m: Utxo)
    ensures OnDisk(m) == Worn(m, {}, m.Keys)
  {
    SameView(OnDisk(m), Worn(m, {}, m.Keys));
  }

  // ----- being back at an earlier node -----

  ghost predicate CoinsMatch(n: Node, s: Node, gone: set<Hash>, cut: set<Hash>) {
    n.coins == Worn(s.coins, gone, cut) && n.chain == s.chain
  }

  /** `n` has the chain of `s`, and its coins up to lost flags and cut versions. */
  ghost predicate CoinsBackAt(n: Node, s: Node) { exists gone, cut :: CoinsMatch(n, s, gone, cut) }

  lemma CoinsBackAtSelf(n: Node, s: Node)
    requires n.coins == s.coins && n.chain == s.chain
    ensures CoinsBackAt(n, s)
  {
    WornNothing(n.coins);
    assert CoinsMatch(n, s, {}, {});
  }

  lemma CoinsBackAtTwice(n: Node, s: Node, r: Node)
    requires CoinsBackAt(n, s) && CoinsBackAt(s, r)
    ensures CoinsBackAt(n, r)
  {
    hide Worn;
    var b, d :| CoinsMatch(n, s, b, d);
    var a, c :| CoinsMatch(s, r, a, c);
    WornTwice(r.coins, a, b, c, d);
    assert CoinsMatch(n, r, a + b, c + d);
  }

  lemma BackIsGoodCoins(n: Node, s: Node, p: Params)
    requires GoodCoins(s, p) && CoinsBackAt(n, s)
    ensures GoodCoins(n, p) && LiveOf(n.coins) == LiveOf(s.coins)
    ensures forall w: Weight :: SumOf(n.coins, w) == SumOf(s.coins, w)
  {
    hide Worn, LiveOf, WellFormed, SumOf, NoDebt, ChainHasUndo;
    var gone, cut :| CoinsMatch(n, s, gone, cut);
    WornKeepsLive(s.coins, gone, cut);
    forall w: Weight
      ensures SumOf(n.coins, w) == SumOf(s.coins, w)
    {
      WornKeepsSum(s.coins, gone, cut, w);
    }
  }

  lemma GoodChainHasUndo(n: Node, p: Params)
    requires GoodCoins(n, p)
    ensures ChainHasUndo(n.chain)
  {
  }

  // ----- one disconnect -----

  /** `s` accepted `txs`, and the coins and chain of `n` are where that led. */
  ghost predicate CoinLink(s: Node, n: Node, txs: seq<Tx>, p: Params) {
    GoodCoins(s, p) && Accepts(s, txs, p) && CoinsBackAt(n, Connected(s, txs, p))
  }

  lemma LinkTip(s: Node, n: Node, txs: seq<Tx>, p: Params)
    requires CoinLink(s, n, txs, p)
    ensures HasUndo(n) && |n.chain| == NextHeight(s) && n.chain[..|n.chain| - 1] == s.chain
    ensures n.chain[|n.chain| - 1].txs == txs
    ensures n.chain[|n.chain| - 1].undos == BlockUndo(s.coins, txs, NextHeight(s))
  {
    hide Worn, ApplyBlock, BlockUndo, ConnectIndex, Minted, GoodCoins, Accepts;
    BlockUndoFits(s.coins, txs, NextHeight(s));
  }

  /** The tip's coinstakes as the disconnect finds them. */
  lemma DisconnectCoins(s: Node, n: Node, txs: seq<Tx>, p: Params, gone: set<Hash>, cut: set<Hash>)
    requires CoinLink(s, n, txs, p) && CoinsMatch(n, Connected(s, txs, p), gone, cut) && HasUndo(n)
    ensures var m' := ApplyBlock(s.coins, txs, NextHeight(s));
            var tip := n.chain[|n.chain| - 1];
            DisconnectBlock(n.coins, tip.txs, tip.undos, |n.chain|)
              == (Worn(s.coins, gone + Gone(s.coins, m'), cut), StakesIntact(txs, |txs|, m', gone))
  {
    hide Worn, ApplyBlock, BlockUndo, ConnectIndex, Minted, StakesIntact, BlockOk, DisconnectBlock, WellFormed,
         LiveOf, Gone, CoinsBackAt, NoDebt, SupplyMatches;
    LinkTip(s, n, txs, p);
    DisconnectBlockFrom(s.coins, txs, NextHeight(s), p.maturity, n.coins, gone, cut);
  }

  /** A clean disconnect brings coins and chain back to where they were before the block; any
      other leaves them as they are. */
  lemma DisconnectBringsCoins(s: Node, n: Node, txs: seq<Tx>, p: Params)
    requires CoinLink(s, n, txs, p) && HasUndo(n)
    ensures var n' := Disconnected(n, p);
            if DisconnectIsClean(n) then CoinsBackAt(n', s) else n'.coins == n.coins && n'.chain == n.chain
  {
    hide Worn, ApplyBlock, BlockUndo, ConnectIndex, DisconnectIndex, Minted, DisconnectBlock, GoodCoins, Accepts,
         StakesIntact, Gone, UndosFit, CoinLink;
    if DisconnectIsClean(n) {
      LinkIsBack(s, n, txs, p);
      LinkTip(s, n, txs, p);
      var gone, cut :| CoinsMatch(n, Connected(s, txs, p), gone, cut);
      DisconnectCoins(s, n, txs, p, gone, cut);
      assert CoinsMatch(Disconnected(n, p), s, gone + Gone(s.coins, ApplyBlock(s.coins, txs, NextHeight(s))), cut);
    }
  }

  lemma LinkIsBack(s: Node, n: Node, txs: seq<Tx>, p: Params)
    ensures CoinLink(s, n, txs, p) ==> CoinsBackAt(n, Connected(s, txs, p))
  {
  }

  /** The coinstakes of the tip block are still live and marked as such. */
  predicate TipStakesMarked(n: Node)
    requires |n.chain| > 0
  {
    var txs := n.chain[|n.chain| - 1].txs;
    forall i | 0 <= i < |txs| && txs[i].IsCoinStake() :: txs[i].id in n.coins && n.coins[txs[i].id].coinStake
  }

  lemma CleanIffMarked(s: Node, n: Node, txs: seq<Tx>, p: Params)
    requires CoinLink(s, n, txs, p) && p.maturity >= 1
    ensures HasUndo(n) && (DisconnectIsClean(n) <==> TipStakesMarked(n))
  {
    hide ApplyBlock, BlockUndo, ConnectIndex, Minted, DisconnectBlock, WellFormed, LiveOf, Gone, CutVersion;
    var m', H := ApplyBlock(s.coins, txs, NextHeight(s)), NextHeight(s);
    LinkTip(s, n, txs, p);
    var gone, cut :| CoinsMatch(n, Connected(s, txs, p), gone, cut);
    DisconnectCoins(s, n, txs, p, gone, cut);
    StakesSurviveTheirBlock(s.coins, txs, H, p.maturity, |txs|);
    ApplyBlockIsApplyFirst(s.coins, txs, H);
    assert StakesFresh(txs, |txs|, m', H);
  }

  /** Wear never marks a coinstake again. */
  lemma MarksFade(n: Node, s: Node)
    requires CoinsBackAt(n, s) && |s.chain| > 0 && !TipStakesMarked(s)
    ensures |n.chain| > 0 && !TipStakesMarked(n)
  {
    hide CutVersion;
    var gone, cut :| CoinsMatch(n, s, gone, cut);
  }

  // ----- runs -----

  /** FlushStateToDisk writes the coins out and empties the cache (src/main.cpp:2709-2765). */
  datatype Step = Connect(txs: seq<Tx>) | Disconnect | Flush

  function Next(n: Node, step: Step, p: Params): Node {
    match step
    case Connect(txs) => if Accepts(n, txs, p) then Connected(n, txs, p) else n
    case Disconnect => if HasUndo(n) then Disconnected(n, p) else n
    case Flush => n.(coins := OnDisk(n.coins))
  }

  function RunOf(n: Node, steps: seq<Step>, k: nat, p: Params): Node
    requires k <= |steps|
  {
    if k == 0 then n else Next(RunOf(n, steps, k - 1, p), steps[k - 1], p)
  }

  /** The heights of blocks whose disconnect has failed. */
  function Stuck(n: Node, steps: seq<Step>, k: nat, p: Params): set<nat>
    requires k <= |steps|
  {
    if k == 0 then {}
    else
      var before, m := Stuck(n, steps, k - 1, p), RunOf(n, steps, k - 1, p);
      if steps[k - 1].Disconnect? && HasUndo(m) && !DisconnectIsClean(m) then before + {|m.chain|} else before
  }

  /** `below` holds, for every block of the chain, the node that accepted it; each leads to the next,
      and the last to `n`. */
  ghost predicate CoinTrail(n: Node, below: seq<Node>, p: Params)
    decreases |below|
  {
    && GoodCoins(n, p)
    && if below == [] then n.chain == [] && n.coins == map[]
       else
         var last := |below| - 1;
         && |n.chain| > 0 && CoinLink(below[last], n, n.chain[|n.chain| - 1].txs, p)
         && CoinTrail(below[last], below[..last], p)
  }

  lemma {:induction false} TrailLength(n: Node, below: seq<Node>, p: Params)
    requires CoinTrail(n, below, p)
    ensures |n.chain| == |below|
    decreases |below|
  {
    hide GoodCoins, CoinLink;
    if below != [] {
      var last := |below| - 1;
      LinkTip(below[last], n, n.chain[|n.chain| - 1].txs, p);
      TrailLength(below[last], below[..last], p);
    }
  }

  lemma EmptyCoinTrail(p: Params)
    requires p.maxMoney >= 0
    ensures CoinTrail(EMPTY_NODE, [], p)
  {
    assert forall out :: out !in LiveOf(map[]);
  }

  /** A node with the same chain, and the coins up to wear, takes the same trail. */
  lemma TrailOfWorn(n: Node, n': Node, below: seq<Node>, p: Params)
    requires CoinTrail(n, below, p) && CoinsBackAt(n', n)
    ensures CoinTrail(n', below, p)
  {
    hide GoodCoins, Accepts, ApplyBlock, ConnectIndex, BlockUndo, Minted, Worn, Connected, CoinLink, CoinsBackAt;
    BackIsGoodCoins(n', n, p);
    assert n'.chain == n.chain by {
      BackKeepsChain(n', n);
    }
    if below != [] {
      LinkOfWorn(below[|below| - 1], n, n', n.chain[|n.chain| - 1].txs, p);
    } else {
      WornEmpty(n', n);
    }
  }

  lemma WornEmpty(n: Node, s: Node)
    requires CoinsBackAt(n, s) && s.coins == map[]
    ensures n.coins == map[]
  {
    var gone, cut :| CoinsMatch(n, s, gone, cut);
  }

  lemma BackKeepsChain(n: Node, s: Node)
    requires CoinsBackAt(n, s)
    ensures n.chain == s.chain
  {
  }

  lemma LinkOfWorn(s: Node, n: Node, n': Node, txs: seq<Tx>, p: Params)
    requires CoinLink(s, n, txs, p) && CoinsBackAt(n', n)
    ensures CoinLink(s, n', txs, p)
  {
    hide GoodCoins, Accepts, Connected, CoinsBackAt;
    CoinsBackAtTwice(n', n, Connected(s, txs, p));
  }

  lemma TrailAfterConnect(n: Node, below: seq<Node>, txs: seq<Tx>, p: Params)
    requires CoinTrail(n, below, p) && Accepts(n, txs, p)
    ensures CoinTrail(Connected(n, txs, p), below + [n], p)
  {
    hide GoodCoins, Accepts, ApplyBlock, ConnectIndex, BlockUndo, Minted, CoinsBackAt;
    var n', below' := Connected(n, txs, p), below + [n];
    ConnectKeepsGoodCoins(n, txs, p);
    CoinsBackAtSelf(n', n');
    assert below'[..|below|] == below && below'[|below|] == n;
    assert n'.chain[|n'.chain| - 1].txs == txs;
  }

  lemma TrailAfterDisconnect(n: Node, below: seq<Node>, p: Params)
    requires CoinTrail(n, below, p) && HasUndo(n)
    ensures var n' := Disconnected(n, p);
            if DisconnectIsClean(n)
            then below != [] && CoinTrail(n', below[..|below| - 1], p) && CoinsBackAt(n', below[|below| - 1])
            else CoinTrail(n', below, p) && CoinsBackAt(n', n)
  {
    hide GoodCoins, Accepts, Disconnected, Connected, HasUndo, DisconnectIsClean, CoinsBackAt, CoinLink;
    var n' := Disconnected(n, p);
    assert |n.chain| > 0 by { UndoMeansChain(n); }
    var s, rest := below[|below| - 1], below[..|below| - 1];
    DisconnectBringsCoins(s, n, n.chain[|n.chain| - 1].txs, p);
    if DisconnectIsClean(n) {
      TrailOfWorn(s, n', rest, p);
    } else {
      CoinsBackAtSelf(n', n);
      TrailOfWorn(n, n', below, p);
    }
  }

  lemma UndoMeansChain(n: Node)
    requires HasUndo(n)
    ensures |n.chain| > 0
  {
  }

  lemma FlushIsWear(n: Node)
    ensures CoinsBackAt(n.(coins := OnDisk(n.coins)), n)
  {
    FlushedIsWorn(n.coins);
    assert CoinsMatch(n.(coins := OnDisk(n.coins)), n, {}, n.coins.Keys);
  }

  // ----- stuck blocks -----

  /** The node at height `h` of the trail. */
  function NodeAt(n: Node, below: seq<Node>, h: nat): Node
    requires h <= |below|
  {
    if h == |below| then n else below[h]
  }

  /** Stuck blocks have lost a mark. */
  ghost predicate StuckUnmarked(n: Node, below: seq<Node>, stuck: set<nat>) {
    forall h | h in stuck ::
      1 <= h <= |below| && |NodeAt(n, below, h).chain| > 0 && !TipStakesMarked(NodeAt(n, below, h))
  }

  lemma StuckAfterConnect(n: Node, n': Node, below: seq<Node>, stuck: set<nat>)
    requires StuckUnmarked(n, below, stuck)
    ensures StuckUnmarked(n', below + [n], stuck)
  {
    hide TipStakesMarked;
    forall h | h in stuck
      ensures NodeAt(n', below + [n], h) == NodeAt(n, below, h)
    {
    }
  }

  lemma StuckOfWorn(n: Node, n': Node, below: seq<Node>, stuck: set<nat>)
    requires StuckUnmarked(n, below, stuck) && CoinsBackAt(n', n)
    ensures StuckUnmarked(n', below, stuck)
  {
    hide TipStakesMarked, CoinsBackAt;
    if |below| in stuck {
      MarksFade(n', n);
    }
  }

  lemma TrailCleanIff(n: Node, below: seq<Node>, p: Params)
    requires CoinTrail(n, below, p) && HasUndo(n) && p.maturity >= 1
    ensures below != [] && |n.chain| > 0 && (DisconnectIsClean(n) <==> TipStakesMarked(n))
  {
    hide GoodCoins, Accepts, Connected, HasUndo, DisconnectIsClean, CoinsBackAt, CoinLink, TipStakesMarked;
    assert |n.chain| > 0 by { UndoMeansChain(n); }
    CleanIffMarked(below[|below| - 1], n, n.chain[|n.chain| - 1].txs, p);
  }

  /** A stuck tip is unmarked, and an unmarked tip may be added to the stuck ones. */
  lemma StuckTip(n: Node, below: seq<Node>, stuck: set<nat>)
    requires StuckUnmarked(n, below, stuck) && below != [] && |n.chain| > 0
    ensures TipStakesMarked(n) ==> |below| !in stuck
    ensures !TipStakesMarked(n) ==> StuckUnmarked(n, below, stuck + {|below|})
  {
    hide TipStakesMarked;
    assert NodeAt(n, below, |below|) == n;
  }

  /** Below the tip, the trail is the trail of the node that accepted the tip. */
  lemma StuckBelow(n: Node, below: seq<Node>, stuck: set<nat>)
    requires below != [] && StuckUnmarked(n, below, stuck) && |below| !in stuck
    ensures StuckUnmarked(below[|below| - 1], below[..|below| - 1], stuck)
  {
    hide TipStakesMarked;
    var s, rest := below[|below| - 1], below[..|below| - 1];
    forall h | h in stuck
      ensures h <= |rest| && NodeAt(n, below, h) == NodeAt(s, rest, h)
    {
    }
  }

  lemma {:induction false} RunLeavesCoinTrail(steps: seq<Step>, k: nat, p: Params) returns (below: seq<Node>)
    requires k <= |steps| && p.maxMoney >= 0 && p.maturity >= 1
    ensures CoinTrail(RunOf(EMPTY_NODE, steps, k, p), below, p)
    ensures StuckUnmarked(RunOf(EMPTY_NODE, steps, k, p), below, Stuck(EMPTY_NODE, steps, k, p))
    ensures |below| == |RunOf(EMPTY_NODE, steps, k, p).chain|
  {
    hide GoodCoins, Accepts, Disconnected, Connected, HasUndo, DisconnectIsClean, CoinTrail, StuckUnmarked, CoinsBackAt, OnDisk;
    if k == 0 {
      below := [];
      EmptyCoinTrail(p);
      NothingStuck(EMPTY_NODE, []);
    } else {
      var before := RunLeavesCoinTrail(steps, k - 1, p);
      TrailLength(RunOf(EMPTY_NODE, steps, k - 1, p), before, p);
      var n, step, stuck := RunOf(EMPTY_NODE, steps, k - 1, p), steps[k - 1], Stuck(EMPTY_NODE, steps, k - 1, p);
      below := before;
      if step.Connect? {
        if Accepts(n, step.txs, p) {
          TrailAfterConnect(n, before, step.txs, p);
          StuckAfterConnect(n, Connected(n, step.txs, p), before, stuck);
          below := before + [n];
        }
      } else if step.Flush? {
        FlushIsWear(n);
        TrailOfWorn(n, n.(coins := OnDisk(n.coins)), before, p);
        StuckOfWorn(n, n.(coins := OnDisk(n.coins)), before, stuck);
      } else if HasUndo(n) {
        TrailAfterDisconnect(n, before, p);
        TrailCleanIff(n, before, p);
        StuckTip(n, before, stuck);
        if DisconnectIsClean(n) {
          below := before[..|before| - 1];
          StuckBelow(n, before, stuck);
          StuckOfWorn(before[|before| - 1], Disconnected(n, p), below, stuck);
        } else {
          StuckOfWorn(n, Disconnected(n, p), before, stuck + {|before|});
        }
      }
      TrailLength(RunOf(EMPTY_NODE, steps, k, p), below, p);
    }
  }

  lemma NothingStuck(n: Node, below: seq<Node>)
    ensures StuckUnmarked(n, below, {})
  {
  }

  /** After every run: the coins are well formed, every block of the chain has its undo data, the
      recorded money supply is what is unspent plus what was burned, within the limit, and
      disconnecting the tip is clean exactly when its coinstakes are live and marked. */
  lemma EveryRunKeepsCoins(steps: seq<Step>, k: nat, p: Params)
    requires k <= |steps| && p.maxMoney >= 0 && p.maturity >= 1
    ensures var n := RunOf(EMPTY_NODE, steps, k, p);
            && GoodCoins(n, p)
            && (|n.chain| > 0 ==> HasUndo(n) && (DisconnectIsClean(n) <==> TipStakesMarked(n)))
  {
    hide GoodCoins, RunOf, TipStakesMarked, DisconnectIsClean, HasUndo, CoinLink, StuckUnmarked;
    var n := RunOf(EMPTY_NODE, steps, k, p);
    var below := RunLeavesCoinTrail(steps, k, p);
    if |n.chain| > 0 {
      CleanIffMarked(below[|below| - 1], n, n.chain[|n.chain| - 1].txs, p);
    }
  }

  lemma {:induction false} StuckGrows(n: Node, steps: seq<Step>, j: nat, k: nat, p: Params)
    requires j <= k <= |steps|
    ensures Stuck(n, steps, j, p) <= Stuck(n, steps, k, p)
  {
    hide RunOf, DisconnectIsClean, HasUndo;
    if j < k {
      StuckGrows(n, steps, j, k - 1, p);
    }
  }

  /** Once the disconnect of a block has failed, the node never gets below that block again,
      whatever comes: the block at its height, and its disconnect, stay where they are. */
  lemma FailedDisconnectIsForEver(steps: seq<Step>, j: nat, k: nat, p: Params)
    requires j < k <= |steps| && p.maxMoney >= 0 && p.maturity >= 1
    requires var n := RunOf(EMPTY_NODE, steps, j, p); steps[j].Disconnect? && HasUndo(n) && !DisconnectIsClean(n)
    ensures var n, m := RunOf(EMPTY_NODE, steps, j, p), RunOf(EMPTY_NODE, steps, k, p);
            && |n.chain| <= |m.chain| && m.chain[|n.chain| - 1] == n.chain[|n.chain| - 1]
            && (|m.chain| == |n.chain| ==> HasUndo(m) && !DisconnectIsClean(m))
  {
    hide GoodCoins, DisconnectIsClean, HasUndo, CoinTrail, Next, Disconnected;
    var n := RunOf(EMPTY_NODE, steps, j, p);
    UndoMeansChain(n);
    StuckStays(steps, j, k, p);
  }

  lemma {:induction false} StuckStays(steps: seq<Step>, j: nat, k: nat, p: Params)
    requires j < k <= |steps| && p.maxMoney >= 0 && p.maturity >= 1
    requires var n := RunOf(EMPTY_NODE, steps, j, p); steps[j].Disconnect? && HasUndo(n) && !DisconnectIsClean(n) && |n.chain| > 0
    ensures var n, m := RunOf(EMPTY_NODE, steps, j, p), RunOf(EMPTY_NODE, steps, k, p);
            && |n.chain| in Stuck(EMPTY_NODE, steps, k, p)
            && |n.chain| <= |m.chain| && m.chain[|n.chain| - 1] == n.chain[|n.chain| - 1]
            && (|m.chain| == |n.chain| ==> HasUndo(m) && !DisconnectIsClean(m))
    decreases k
  {
    hide GoodCoins, DisconnectIsClean, HasUndo, CoinTrail, TipStakesMarked, CoinLink, Next;
    var n, m := RunOf(EMPTY_NODE, steps, j, p), RunOf(EMPTY_NODE, steps, k, p);
    StuckGrows(EMPTY_NODE, steps, j + 1, k, p);
    assert |n.chain| in Stuck(EMPTY_NODE, steps, j + 1, p);
    var below := RunLeavesCoinTrail(steps, k, p);
    assert |n.chain| <= |below|;
    assert |m.chain| == |n.chain| ==> NodeAt(m, below, |n.chain|) == m;
    EveryRunKeepsCoins(steps, k, p);
    var before := RunOf(EMPTY_NODE, steps, k - 1, p);
    if k > j + 1 {
      StuckStays(steps, j, k - 1, p);
    }
    assert m == Next(before, steps[k - 1], p);
    StepKeepsBlocks(before, steps[k - 1], |n.chain|, p);
  }

  /** One step leaves the block at a height alone unless it goes below it. */
  lemma StepKeepsBlocks(n: Node, step: Step, h: nat, p: Params)
    requires 1 <= h <= |n.chain| && h <= |Next(n, step, p).chain|
    ensures Next(n, step, p).chain[h - 1] == n.chain[h - 1]
  {
    hide DisconnectIsClean, Accepts, ApplyBlock, ConnectIndex, BlockUndo, DisconnectIndex, DisconnectBlock, OnDisk, Minted;
  }
}
