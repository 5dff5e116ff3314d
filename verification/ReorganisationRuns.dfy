/** Which reorganisations go through at the end of any run of the ledger: connects, disconnects that fail,
    flushes, blocks that only a lost flag made acceptable. The verdict on each block is that of
    DisconnectBlock on the coins and undo data the node has then. */
module ReorganisationRuns {
  import opened BlockIndex
  import opened ChainState
  import opened BestChain
  import opened Coins
  import opened CoinsCache
  import opened BlockCoins
  import opened Undo
  import opened Rollback
  import opened LostFlags
  import opened AddressIndex
  import opened Ledger
  import opened LedgerSteps
  import opened UndoFile
  import opened Reorganisation

  // ----- taking off one more block -----

  lemma {:induction false} RollBackLowest(v: Utxo, blocks: seq<seq<Tx>>, undos: seq<seq<seq<TxInUndo>>>, h: nat, k: nat)
    requires 0 < k <= |blocks| && ChainUndoFits(blocks, undos)
    ensures ChainUndoFits(blocks[1..], undos[1..])
    ensures var (v1, ok1) := RollBack(v, blocks[1..], undos[1..], h + 1, k - 1);
            var (v2, ok2) := DisconnectBlock(v1, blocks[0], undos[0], h + 1);
            RollBack(v, blocks, undos, h, k) == (v2, ok1 && ok2)
    decreases k
  {
    hide DisconnectBlock, UndosFit;
    if k > 1 {
      var v1 := DisconnectBlock(v, blocks[k - 1], undos[k - 1], h + k).0;
      RollBackLowest(v1, blocks, undos, h, k - 1);
      assert blocks[1..][k - 2] == blocks[k - 1] && undos[1..][k - 2] == undos[k - 1];
    }
  }

  lemma {:induction false} StateShift(m: Utxo, blocks: seq<seq<Tx>>, h: nat, j: nat)
    requires 0 < |blocks| && j < |blocks|
    ensures StateAt(ApplyBlock(m, blocks[0], h + 1), blocks[1..], h + 1, j) == StateAt(m, blocks, h, j + 1)
  {
    hide ApplyBlock;
    if j > 0 {
      StateShift(m, blocks, h, j - 1);
      assert blocks[1..][j - 1] == blocks[j];
    } else {
      assert StateAt(m, blocks, h, 0) == m;
    }
  }

  lemma UndoShift(m: Utxo, blocks: seq<seq<Tx>>, h: nat)
    requires 0 < |blocks|
    ensures ChainUndo(m, blocks, h)[1..] == ChainUndo(ApplyBlock(m, blocks[0], h + 1), blocks[1..], h + 1)
    ensures ChainUndo(m, blocks, h)[0] == BlockUndo(m, blocks[0], h + 1)
  {
    hide ApplyBlock, StateAt, BlockUndo;
    var m1 := ApplyBlock(m, blocks[0], h + 1);
    forall j | 0 <= j < |blocks| - 1
      ensures ChainUndo(m, blocks, h)[1..][j] == ChainUndo(m1, blocks[1..], h + 1)[j]
    {
      StateShift(m, blocks, h, j);
      ChainUndoAt(m, blocks, h, j + 1);
      ChainUndoAt(m1, blocks[1..], h + 1, j);
    }
    ChainUndoAt(m, blocks, h, 0);
    assert StateAt(m, blocks, h, 0) == m by { NoBlocksYet(m, blocks, h); }
  }

  lemma NoBlocksYet(m: Utxo, blocks: seq<seq<Tx>>, h: nat)
    ensures StateAt(m, blocks, h, 0) == m
  {
  }

  /** The block at height `f` + 1 comes off after those above it. */
  lemma TakenOffStep(v: Utxo, blocks: seq<seq<Tx>>, f: nat)
    requires f < |blocks|
    ensures var m := StateAt(map[], blocks, 0, f);
            UndosFit(blocks[f], BlockUndo(m, blocks[f], f + 1)) &&
            var (v1, ok1) := TakenOff(v, blocks, f + 1);
            var (v2, ok2) := DisconnectBlock(v1, blocks[f], BlockUndo(m, blocks[f], f + 1), f + 1);
            TakenOff(v, blocks, f) == (v2, ok1 && ok2)
  {
    hide ApplyBlock, BlockUndo, DisconnectBlock, RollBack, ChainUndo, UndosFit;
    var m, rest := StateAt(map[], blocks, 0, f), blocks[f..];
    BlockUndoFits(m, blocks[f], f + 1);
    ChainUndosFit(m, rest, f);
    RollBackLowest(v, rest, ChainUndo(m, rest, f), f, |rest|);
    UndoShift(m, rest, f);
    assert rest[1..] == blocks[f + 1..] && rest[0] == blocks[f];
    assert StateAt(map[], blocks, 0, f + 1) == ApplyBlock(m, blocks[f], f + 1);
  }

  lemma NothingTakenOff(v: Utxo, blocks: seq<seq<Tx>>)
    ensures TakenOff(v, blocks, |blocks|) == (v, true)
  {
    hide StateAt;
    assert blocks[|blocks|..] == [];
  }

  // ----- chains of runs -----

  /** No record is from above height `h`. */
  ghost predicate NotAbove(m: Utxo, h: nat) { forall t | t in m :: m[t].height <= h }

  lemma {:induction false} BlockNotAbove(m: Utxo, txs: seq<Tx>, h: nat, k: nat)
    requires k <= |txs| && NotAbove(m, h)
    ensures NotAbove(ApplyFirst(m, txs, h, k), h)
  {
    hide SpendFirst;
    if k > 0 {
      BlockNotAbove(m, txs, h, k - 1);
      var m1, tx := ApplyFirst(m, txs, h, k - 1), txs[k - 1];
      if !tx.IsCoinBase() {
        SpendNotAbove(m1, tx.vin, |tx.vin|, h);
      }
    }
  }

  lemma {:induction false} SpendNotAbove(m: Utxo, vin: seq<OutPoint>, k: nat, h: nat)
    requires k <= |vin| && NotAbove(m, h)
    ensures NotAbove(SpendFirst(m, vin, k), h)
  {
    if k > 0 {
      SpendNotAbove(m, vin, k - 1, h);
    }
  }

  lemma {:induction false} StateNotAbove(blocks: seq<seq<Tx>>, k: nat)
    requires k <= |blocks|
    ensures NotAbove(StateAt(map[], blocks, 0, k), k)
  {
    hide ApplyFirst;
    if k > 0 {
      StateNotAbove(blocks, k - 1);
      BlockNotAbove(StateAt(map[], blocks, 0, k - 1), blocks[k - 1], k, |blocks[k - 1]|);
    }
  }

  /** Without the test of maturity, worn coins admit no more than the true ones. */
  lemma WornAdmitsNoMore(m: Utxo, txs: seq<Tx>, h: nat, maturity: nat, gone: set<Hash>, cut: set<Hash>)
    requires BlockOk(Worn(m, gone, cut), txs, h, maturity) && NotAbove(m, h)
    ensures BlockOk(m, txs, h, 0)
  {
    hide ApplyFirst, TxsOk, Worn, SpendsLostEarly;
    TxsOkSooner(Worn(m, gone, cut), txs, h, maturity, |txs|);
    BlockAdmittedIff(m, txs, h, 0, gone, cut);
    forall i | 0 <= i < |txs|
      ensures NoneEarly(ApplyFirst(m, txs, h, i), txs[i], h, 0, gone * m.Keys)
    {
      BlockNotAbove(m, txs, h, i);
      NoneTooEarly(ApplyFirst(m, txs, h, i), txs[i], h, gone * m.Keys);
    }
  }

  lemma NoneTooEarly(m: Utxo, tx: Tx, h: nat, gone: set<Hash>)
    requires NotAbove(m, h)
    ensures NoneEarly(m, tx, h, 0, gone)
  {
  }

  lemma {:induction false} TxsOkSooner(m: Utxo, txs: seq<Tx>, h: nat, maturity: nat, k: nat)
    requires k <= |txs| && TxsOk(m, txs, h, maturity, k)
    ensures TxsOk(m, txs, h, 0, k)
  {
    hide ApplyFirst, HaveInputs, DistinctInputs, OutputsOk;
    if k > 0 {
      TxsOkSooner(m, txs, h, maturity, k - 1);
    }
  }

  lemma {:induction false} ChainOkSame(a: seq<seq<Tx>>, b: seq<seq<Tx>>, k: nat)
    requires k <= |a| && k <= |b| && a[..k] == b[..k] && ChainOk(map[], a, 0, 0, k)
    ensures ChainOk(map[], b, 0, 0, k)
  {
    hide StateAt, BlockOk;
    if k > 0 {
      assert a[..k - 1] == a[..k][..k - 1] && b[..k - 1] == b[..k][..k - 1];
      assert a[k - 1] == a[..k][k - 1] && b[k - 1] == b[..k][k - 1];
      ChainOkSame(a, b, k - 1);
      StatePrefix(map[], a, b, 0, k - 1);
    }
  }

  lemma LinkOk(s: Node, n: Node, txs: seq<Tx>, p: Params)
    requires CoinLink(s, n, txs, p) && CoinsOfChain(s) && ChainOk(map[], Blocks(s.chain), 0, 0, |s.chain|)
    ensures Blocks(n.chain) == Blocks(s.chain) + [txs] && ChainOk(map[], Blocks(n.chain), 0, 0, |n.chain|)
    ensures SameUndo(n.chain[|n.chain| - 1].undos, BlockUndo(CoinsAfter(Blocks(s.chain)), txs, |n.chain|))
  {
    hide Worn, ApplyBlock, BlockUndo, ConnectIndex, Minted, GoodCoins, BlockOk, StateAt, SameUndo, ChainOk;
    LinkTip(s, n, txs, p);
    var a, c :| WornFrom(s, a, c);
    var was, blocks := Blocks(s.chain), Blocks(n.chain);
    var m := CoinsAfter(was);
    assert blocks == was + [txs];
    assert was[..|was|] == was && blocks[..|was|] == was;
    StateNotAbove(was, |was|);
    WornAdmitsNoMore(m, txs, |n.chain|, p.maturity, a, c);
    ChainOkSame(was, blocks, |was|);
    StatePrefix(map[], was, blocks, 0, |was|);
    assert ChainOk(map[], blocks, 0, 0, |blocks|) by { OneMoreOk(blocks); }
    OkIsNew(m, txs, |n.chain|);
    BlockUndoWorn(m, txs, |n.chain|, a, c);
  }

  lemma OneMoreOk(blocks: seq<seq<Tx>>)
    requires blocks != [] && ChainOk(map[], blocks, 0, 0, |blocks| - 1)
    requires BlockOk(StateAt(map[], blocks, 0, |blocks| - 1), blocks[|blocks| - 1], |blocks|, 0)
    ensures ChainOk(map[], blocks, 0, 0, |blocks|)
  {
    hide BlockOk, StateAt;
  }

  lemma OkIsNew(m: Utxo, txs: seq<Tx>, h: nat)
    requires BlockOk(m, txs, h, 0)
    ensures forall i | 0 <= i < |txs| :: txs[i].id !in m
  {
    hide TxsOk;
  }

  /** The undo data on the chain read like those of its blocks on the true coins. */
  ghost predicate UndoReads(chain: seq<Tip>) {
    forall k | 0 <= k < |chain| ::
      SameUndo(chain[k].undos, BlockUndo(StateAt(map[], Blocks(chain), 0, k), chain[k].txs, k + 1))
  }

  /** Without the test of maturity, every chain of a run is acceptable on the true coins, and its undo data
      read as if written on them. */
  lemma {:induction false} TrailChainOk(n: Node, below: seq<Node>, p: Params)
    requires CoinTrail(n, below, p)
    ensures ChainOk(map[], Blocks(n.chain), 0, 0, |n.chain|) && UndoReads(n.chain)
    decreases |below|
  {
    hide GoodCoins, CoinLink, CoinsOfChain, BlockOk, BlockUndo, StateAt, SameUndo;
    if below != [] {
      var s, txs, H := below[|below| - 1], n.chain[|n.chain| - 1].txs, |n.chain|;
      TrailChainOk(s, below[..|below| - 1], p);
      TrailCoins(s, below[..|below| - 1], p);
      LinkOk(s, n, txs, p);
      LinkTip(s, n, txs, p);
      var was, blocks := Blocks(s.chain), Blocks(n.chain);
      forall k | 0 <= k < H
        ensures SameUndo(n.chain[k].undos, BlockUndo(StateAt(map[], blocks, 0, k), n.chain[k].txs, k + 1))
      {
        assert was[..k] == blocks[..k];
        StatePrefix(map[], was, blocks, 0, k);
        if k < H - 1 {
          assert n.chain[k] == n.chain[..H - 1][k];
        }
      }
    }
  }

  // ----- disconnecting from the tip of a node -----

  /** After up to `d` calls of DisconnectTip, and whether all were clean. */
  function Down(n: Node, d: nat, p: Params): (Node, bool) {
    if d == 0 then (n, true)
    else
      var (m, ok) := Down(n, d - 1, p);
      if ok && HasUndo(m) && DisconnectIsClean(m) then (Disconnected(m, p), true) else (m, false)
  }

  lemma CleanMeans(n: Node, p: Params, u: seq<seq<TxInUndo>>)
    requires n.chain != [] && SameUndo(n.chain[|n.chain| - 1].undos, u) && UndosFit(n.chain[|n.chain| - 1].txs, u)
    ensures HasUndo(n)
    ensures var r := DisconnectBlock(n.coins, n.chain[|n.chain| - 1].txs, u, |n.chain|);
            && (DisconnectIsClean(n) <==> r.1)
            && (r.1 ==> Disconnected(n, p).coins == r.0 && Disconnected(n, p).chain == n.chain[..|n.chain| - 1])
  {
    hide DisconnectBlock, DisconnectIndex, UndosFit, SameUndo;
    var tip := n.chain[|n.chain| - 1];
    SameUndoFlips(tip.undos, u);
    DisconnectReads(n.coins, n.index, tip.txs, u, tip.undos, |n.chain|, p.key);
  }

  /** The node goes down as the coins of its chain do. */
  lemma {:induction false} DownTakesOff(n: Node, d: nat, p: Params)
    requires d <= |n.chain| && UndoReads(n.chain)
    ensures var (m, ok) := Down(n, d, p);
            var (v, ok') := TakenOff(n.coins, Blocks(n.chain), |n.chain| - d);
            ok == ok' && (ok ==> m.coins == v && m.chain == n.chain[..|n.chain| - d])
  {
    hide DisconnectBlock, DisconnectIndex, UndosFit, SameUndo, TakenOff, StateAt, BlockUndo, HasUndo, DisconnectIsClean, Disconnected;
    var blocks, f := Blocks(n.chain), |n.chain| - d;
    if d == 0 {
      NothingTakenOff(n.coins, blocks);
      assert n.chain[..|n.chain|] == n.chain;
    } else {
      DownTakesOff(n, d - 1, p);
      TakenOffStep(n.coins, blocks, f);
      var m, ok := Down(n, d - 1, p).0, Down(n, d - 1, p).1;
      if ok {
        assert m.chain[f] == n.chain[f] && |m.chain| == f + 1;
        CleanMeans(m, p, BlockUndo(StateAt(map[], blocks, 0, f), blocks[f], f + 1));
        assert m.chain[..f] == n.chain[..f];
      }
    }
  }

  /** As long as the blocks above have come off, DisconnectTip goes through on an active block just when
      the ledger's disconnect is clean. */
  ghost predicate FollowsLedger(disconnects: UndoVerdict, active: seq<CBlockIndex?>, moves: nat, n: Node, p: Params) {
    && |active| == |n.chain| + 1
    && forall h | 1 <= h <= |n.chain| && Down(n, |n.chain| - h, p).1 ::
         active[h] != null && (disconnects(active[h], moves + |n.chain| - h) <==> Down(n, |n.chain| - h + 1, p).1)
  }

  /** At the end of any run, with any candidate: every block above the fork lets itself be disconnected
      exactly when each of their coinstakes has stayed live on the chain and has its flag. */
  lemma EveryRunReorganises(steps: seq<Step>, k: nat, p: Params, active: seq<CBlockIndex?>, mostWork: CBlockIndex, f: nat, moves: nat,
                            disconnects: UndoVerdict, gone: set<Hash>, cut: set<Hash>)
    requires k <= |steps| && p.maxMoney >= 0 && p.maturity >= 1
    requires var n := RunOf(EMPTY_NODE, steps, k, p);
             FollowsLedger(disconnects, active, moves, n, p) && WornFrom(n, gone, cut)
    requires mostWork.Linked() && ForksAt(active, mostWork, f)
    ensures var blocks := Blocks(RunOf(EMPTY_NODE, steps, k, p).chain);
            f <= |blocks| && (AllYield(active, mostWork, moves, disconnects) <==> Removable(blocks, f, gone))
  {
    hide RunOf, CoinTrail, ChainOk, StateAt, Worn, TakenOff, Removable, UndoReads, ForksAt, AllYield, StuckUnmarked, CBlockIndex.Linked, Down;
    var n := RunOf(EMPTY_NODE, steps, k, p);
    var blocks := Blocks(n.chain);
    var below := RunLeavesCoinTrail(steps, k, p);
    TrailChainOk(n, below, p);
    forall h | 1 <= h <= |blocks| && TakenOff(n.coins, blocks, h).1
      ensures active[h] != null && (disconnects(active[h], moves + |blocks| - h) <==> TakenOff(n.coins, blocks, h - 1).1)
    {
      DownTakesOff(n, |blocks| - h, p);
      DownTakesOff(n, |blocks| - h + 1, p);
    }
    ReorganisationIff(active, mostWork, f, moves, disconnects, n.coins, blocks, 0, gone, cut);
  }
}
