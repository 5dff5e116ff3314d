/** The undo file over whole runs. ConnectBlock writes the undo data of a block only while the block has
    none (src/main.cpp:2638-2655), so a block that is connected a second time, perhaps on coins
    worn by a rollback, is later disconnected with the data of its first connect. The coins are a
    function of the chain up to wear, and wear does not reach any part of an undo record that
    DisconnectBlock reads, so a run that keeps the first data goes just like one that writes them
    afresh each time. */
module UndoFile {
  import opened Coins
  import opened CoinsCache
  import opened BlockCoins
  import opened Undo
  import opened Rollback
  import opened LostFlags
  import opened AddressIndex
  import opened Ledger
  import opened LedgerSteps

  // ----- what a disconnect reads -----

  /** An undo record read back from disk, without the flag that DisconnectBlock never looks at. */
  function AsRead(u: TxInUndo): TxInUndo { StoredUndo(u).(coinStake := false) }

  predicate SameTxUndo(a: seq<TxInUndo>, b: seq<TxInUndo>) {
    |a| == |b| && forall j | 0 <= j < |a| :: AsRead(a[j]) == AsRead(b[j])
  }

  predicate SameUndo(a: seq<seq<TxInUndo>>, b: seq<seq<TxInUndo>>) {
    |a| == |b| && forall i | 0 <= i < |a| :: SameTxUndo(a[i], b[i])
  }

  lemma {:induction false} RestoreReads(v: Utxo, vin: seq<OutPoint>, a: seq<TxInUndo>, b: seq<TxInUndo>, k: nat)
    requires k <= |vin| == |a| == |b| && SameTxUndo(a, b)
    ensures RestoreFirst(v, vin, ReadTx(a), k) == RestoreFirst(v, vin, ReadTx(b), k)
    decreases k
  {
    hide PutOutput, CleanedUp;
    if k > 0 {
      var out := vin[k - 1];
      assert AsRead(a[k - 1]) == AsRead(b[k - 1]);
      assert RestoreInput(v, out, ReadTx(a)[k - 1]) == RestoreInput(v, out, ReadTx(b)[k - 1]);
      RestoreReads(RestoreInput(v, out, ReadTx(a)[k - 1]).0, vin, a, b, k - 1);
    }
  }

  lemma DisconnectTxReads(v: Utxo, tx: Tx, a: seq<TxInUndo>, b: seq<TxInUndo>, h: nat)
    requires SameTxUndo(a, b) && UndoFits(tx, a)
    ensures UndoFits(tx, b) && DisconnectTx(v, tx, ReadTx(a), h) == DisconnectTx(v, tx, ReadTx(b), h)
  {
    hide RestoreFirst, RemoveTx;
    if !tx.IsCoinBase() {
      RestoreReads(RemoveTx(v, tx, h).0, tx.vin, a, b, |tx.vin|);
    }
  }

  lemma {:induction false} DisconnectFirstReads(v: Utxo, txs: seq<Tx>, a: seq<seq<TxInUndo>>, b: seq<seq<TxInUndo>>, h: nat, k: nat)
    requires SameUndo(a, b) && UndosFit(txs, ReadBack(a)) && UndosFit(txs, ReadBack(b)) && k <= |txs|
    ensures DisconnectFirst(v, txs, ReadBack(a), h, k) == DisconnectFirst(v, txs, ReadBack(b), h, k)
    decreases k
  {
    hide DisconnectTx, SameTxUndo, ReadTx;
    if k > 0 {
      assert ReadBack(a)[k - 1] == ReadTx(a[k - 1]) && ReadBack(b)[k - 1] == ReadTx(b[k - 1]);
      ReadFits(txs[k - 1], a[k - 1]);
      DisconnectTxReads(v, txs[k - 1], a[k - 1], b[k - 1], h);
      DisconnectFirstReads(DisconnectTx(v, txs[k - 1], ReadTx(a[k - 1]), h).0, txs, a, b, h, k - 1);
    }
  }

  lemma ReadFits(tx: Tx, a: seq<TxInUndo>)
    ensures UndoFits(tx, ReadTx(a)) <==> UndoFits(tx, a)
  {
  }

  lemma AllFit(txs: seq<Tx>, a: seq<seq<TxInUndo>>, b: seq<seq<TxInUndo>>)
    requires SameUndo(a, b)
    ensures UndosFit(txs, a) <==> UndosFit(txs, b)
    ensures UndosFit(txs, ReadBack(a)) <==> UndosFit(txs, a)
  {
    if |txs| == |a| {
      forall i | 0 <= i < |txs|
        ensures UndoFits(txs[i], a[i]) <==> UndoFits(txs[i], b[i])
        ensures UndoFits(txs[i], ReadBack(a)[i]) <==> UndoFits(txs[i], a[i])
      {
        assert SameTxUndo(a[i], b[i]);
        ReadFits(txs[i], a[i]);
      }
    }
  }

  lemma {:induction false} DisconnectIndexReads(ix: Index, txs: seq<Tx>, a: seq<seq<TxInUndo>>, b: seq<seq<TxInUndo>>, h: nat,
                                               key: Indexer, k: nat)
    requires SameUndo(a, b) && UndosFit(txs, a) && UndosFit(txs, b) && k <= |txs|
    ensures DisconnectIndex(ix, txs, a, h, key, k) == DisconnectIndex(ix, txs, b, h, key, k)
    decreases k
  {
    hide Events, TakeBack;
    if k > 0 {
      var tx, ua, ub := txs[k - 1], a[k - 1], b[k - 1];
      EventsRead(tx, ua, ub);
      var es := Events(tx, UndoneOutputs(tx, ua), k - 1, h, key);
      assert |UndoHeights(tx, ua)| == |es| by {
        EventCount(tx, UndoneOutputs(tx, ua), k - 1, h, key);
      }
      DisconnectIndexReads(TakeBack(ix, es, UndoHeights(tx, ua), |es|), txs, a, b, h, key, k - 1);
    }
  }

  lemma EventsRead(tx: Tx, a: seq<TxInUndo>, b: seq<TxInUndo>)
    requires SameTxUndo(a, b) && UndoFits(tx, a) && UndoFits(tx, b)
    ensures UndoneOutputs(tx, a) == UndoneOutputs(tx, b) && UndoHeights(tx, a) == UndoHeights(tx, b)
  {
    forall j | 0 <= j < |a|
      ensures a[j].txout == b[j].txout && a[j].height == b[j].height
    {
      assert AsRead(a[j]) == AsRead(b[j]);
    }
  }

  /** The coins, the verdict and the index writes of a disconnect depend on no more than that. */
  lemma DisconnectReads(v: Utxo, ix: Index, txs: seq<Tx>, a: seq<seq<TxInUndo>>, b: seq<seq<TxInUndo>>, h: nat, key: Indexer)
    requires SameUndo(a, b) && UndosFit(txs, a)
    ensures UndosFit(txs, b)
    ensures DisconnectBlock(v, txs, a, h) == DisconnectBlock(v, txs, b, h)
    ensures DisconnectIndex(ix, txs, a, h, key, |txs|) == DisconnectIndex(ix, txs, b, h, key, |txs|)
  {
    hide DisconnectFirst, DisconnectIndex, SameUndo, UndosFit, ReadBack;
    SameUndoFlips(a, b);
    AllFit(txs, a, b);
    AllFit(txs, b, a);
    DisconnectFirstReads(v, txs, a, b, h, |txs|);
    DisconnectIndexReads(ix, txs, a, b, h, key, |txs|);
  }

  lemma SameUndoFlips(a: seq<seq<TxInUndo>>, b: seq<seq<TxInUndo>>)
    requires SameUndo(a, b)
    ensures SameUndo(b, a)
  {
    forall i | 0 <= i < |b|
      ensures SameTxUndo(b[i], a[i])
    {
      assert SameTxUndo(a[i], b[i]);
    }
  }

  lemma SameUndoTwice(a: seq<seq<TxInUndo>>, b: seq<seq<TxInUndo>>, c: seq<seq<TxInUndo>>)
    requires SameUndo(a, b) && SameUndo(b, c)
    ensures SameUndo(a, c)
  {
    forall i | 0 <= i < |a|
      ensures SameTxUndo(a[i], c[i])
    {
      assert SameTxUndo(a[i], b[i]) && SameTxUndo(b[i], c[i]);
    }
  }

  // ----- undo data of a block on worn coins -----

  lemma InputUndoWorn(m: Utxo, out: OutPoint, gone: set<Hash>, cut: set<Hash>)
    ensures AsRead(InputUndo(Worn(m, gone, cut), out)) == AsRead(InputUndo(m, out))
  {
    hide Trim;
  }

  lemma TxUndoWorn(m: Utxo, tx: Tx, gone: set<Hash>, cut: set<Hash>)
    ensures SameTxUndo(TxUndo(Worn(m, gone, cut), tx), TxUndo(m, tx))
  {
    hide SpendFirst, InputUndo, Worn, AsRead;
    if !tx.IsCoinBase() {
      forall j | 0 <= j < |tx.vin|
        ensures AsRead(TxUndo(Worn(m, gone, cut), tx)[j]) == AsRead(TxUndo(m, tx)[j])
      {
        SpendFirstWorn(m, tx.vin, j, gone, cut);
        InputUndoWorn(SpendFirst(m, tx.vin, j), tx.vin[j], gone, cut);
      }
    }
  }

  /** The undo data a block gives on worn coins reads like the undo data it gives on the true ones. */
  lemma BlockUndoWorn(m: Utxo, txs: seq<Tx>, h: nat, gone: set<Hash>, cut: set<Hash>)
    requires forall i | 0 <= i < |txs| :: txs[i].id !in m
    ensures SameUndo(BlockUndo(Worn(m, gone, cut), txs, h), BlockUndo(m, txs, h))
  {
    hide ApplyFirst, TxUndo, Worn, SameTxUndo;
    var g, c := gone * m.Keys, cut * m.Keys;
    WornInside(m, gone, cut);
    forall i | 0 <= i < |txs|
      ensures SameTxUndo(BlockUndo(Worn(m, gone, cut), txs, h)[i], BlockUndo(m, txs, h)[i])
    {
      ApplyFirstWorn(m, txs, h, i, g, c);
      TxUndoWorn(ApplyFirst(m, txs, h, i), txs[i], g, c);
    }
  }

  // ----- the coins are a function of the chain, up to wear -----

  function Blocks(chain: seq<Tip>): seq<seq<Tx>> { seq(|chain|, k requires 0 <= k < |chain| => chain[k].txs) }

  /** The coins after connecting `blocks` from genesis on, never disconnecting any. */
  function CoinsAfter(blocks: seq<seq<Tx>>): Utxo { StateAt(map[], blocks, 0, |blocks|) }

  lemma {:induction false} StatePrefix(m: Utxo, a: seq<seq<Tx>>, b: seq<seq<Tx>>, h: nat, k: nat)
    requires k <= |a| && k <= |b| && a[..k] == b[..k]
    ensures StateAt(m, a, h, k) == StateAt(m, b, h, k)
  {
    hide ApplyBlock;
    if k > 0 {
      assert a[..k - 1] == a[..k][..k - 1] && b[..k - 1] == b[..k][..k - 1];
      assert a[k - 1] == a[..k][k - 1] && b[k - 1] == b[..k][k - 1];
      StatePrefix(m, a, b, h, k - 1);
    }
  }

  lemma CoinsAfterOneMore(blocks: seq<seq<Tx>>, txs: seq<Tx>)
    ensures CoinsAfter(blocks + [txs]) == ApplyBlock(CoinsAfter(blocks), txs, |blocks| + 1)
  {
    hide ApplyBlock;
    var more := blocks + [txs];
    assert more[..|blocks|] == blocks[..|blocks|];
    StatePrefix(map[], more, blocks, 0, |blocks|);
    assert more[|blocks|] == txs;
  }

  ghost predicate WornFrom(n: Node, gone: set<Hash>, cut: set<Hash>) {
    n.coins == Worn(CoinsAfter(Blocks(n.chain)), gone, cut)
  }

  /** The coins of `n` are those of its chain, worn. */
  ghost predicate CoinsOfChain(n: Node) { exists gone, cut :: WornFrom(n, gone, cut) }

  lemma ConnectOnWorn(m: Utxo, txs: seq<Tx>, h: nat, gone: set<Hash>, cut: set<Hash>)
    requires forall i | 0 <= i < |txs| :: txs[i].id !in m
    ensures ApplyBlock(Worn(m, gone, cut), txs, h) == Worn(ApplyBlock(m, txs, h), gone * m.Keys, cut * m.Keys)
  {
    hide ApplyFirst, Worn;
    WornInside(m, gone, cut);
    ApplyFirstWorn(m, txs, h, |txs|, gone * m.Keys, cut * m.Keys);
  }

  lemma CoinsOfNextChain(s: Node, n: Node, txs: seq<Tx>, p: Params)
    requires CoinsOfChain(s) && CoinLink(s, n, txs, p)
    ensures CoinsOfChain(n)
  {
    hide Worn, ApplyBlock, BlockUndo, ConnectIndex, Minted, GoodCoins, CoinsAfter, TxsOk, WellShaped;
    LinkIsBack(s, n, txs, p);
    LinkTip(s, n, txs, p);
    var a, c :| WornFrom(s, a, c);
    var b, d :| CoinsMatch(n, Connected(s, txs, p), b, d);
    var m := CoinsAfter(Blocks(s.chain));
    WornKeys(m, a, c);
    ConnectOnWorn(m, txs, NextHeight(s), a, c);
    CoinsAfterOneMore(Blocks(s.chain), txs);
    WornTwice(CoinsAfter(Blocks(s.chain) + [txs]), a * m.Keys, b, c * m.Keys, d);
    assert Blocks(n.chain) == Blocks(s.chain) + [txs];
    assert WornFrom(n, a * m.Keys + b, c * m.Keys + d);
  }

  lemma {:induction false} TrailCoins(n: Node, below: seq<Node>, p: Params)
    requires CoinTrail(n, below, p)
    ensures CoinsOfChain(n)
    decreases |below|
  {
    hide GoodCoins, CoinLink, CoinsOfChain;
    if below == [] {
      NoCoinsYet(n);
    } else {
      TrailCoins(below[|below| - 1], below[..|below| - 1], p);
      CoinsOfNextChain(below[|below| - 1], n, n.chain[|n.chain| - 1].txs, p);
    }
  }

  lemma NoCoinsYet(n: Node)
    requires n.chain == [] && n.coins == map[]
    ensures CoinsOfChain(n)
  {
    assert WornFrom(n, {}, {});
  }

  /** After every run, whatever was rolled back on the way: the coins are those that connecting the blocks
      of the chain from genesis on gives, up to lost coinstake flags and cut versions. */
  lemma EveryRunCoins(steps: seq<Step>, k: nat, p: Params)
    requires k <= |steps| && p.maxMoney >= 0 && p.maturity >= 1
    ensures CoinsOfChain(RunOf(EMPTY_NODE, steps, k, p))
  {
    hide RunOf, CoinTrail, CoinsOfChain, StuckUnmarked;
    var below := RunLeavesCoinTrail(steps, k, p);
    TrailCoins(RunOf(EMPTY_NODE, steps, k, p), below, p);
  }

  // ----- runs that keep undo data -----

  /** The undo data on disk, by the blocks up to and with the one they belong to. */
  type File = map<seq<seq<Tx>>, seq<seq<TxInUndo>>>

  datatype Kept = Kept(node: Node, file: File)

  /** The undo data with which the next block is connected: those on disk, if there are any. */
  function UndoToUse(s: Kept, txs: seq<Tx>): seq<seq<TxInUndo>> {
    var path := Blocks(s.node.chain) + [txs];
    if path in s.file then s.file[path] else BlockUndo(s.node.coins, txs, NextHeight(s.node))
  }

  function ConnectedKeeping(s: Kept, txs: seq<Tx>, p: Params): Kept {
    var undos, n := UndoToUse(s, txs), Connected(s.node, txs, p);
    Kept(n.(chain := s.node.chain + [Tip(txs, undos, NextSupply(s.node, txs))]),
         s.file[Blocks(s.node.chain) + [txs] := undos])
  }

  function NextKeeping(s: Kept, step: Step, p: Params): Kept {
    if step.Connect? && Accepts(s.node, step.txs, p) then ConnectedKeeping(s, step.txs, p)
    else s.(node := if step.Connect? then s.node else Next(s.node, step, p))
  }

  function RunKeeping(steps: seq<Step>, k: nat, p: Params): Kept
    requires k <= |steps|
  {
    if k == 0 then Kept(EMPTY_NODE, map[]) else NextKeeping(RunKeeping(steps, k - 1, p), steps[k - 1], p)
  }

  /** What is on disk reads like the undo data of the block on the true coins. */
  ghost predicate FileReads(file: File) {
    forall path | path in file ::
      |path| > 0 && SameUndo(file[path], BlockUndo(CoinsAfter(path[..|path| - 1]), path[|path| - 1], |path|))
  }

  predicate SameTip(a: Tip, b: Tip) { a.txs == b.txs && a.supply == b.supply && SameUndo(a.undos, b.undos) }

  /** The same coins, indexes, blocks and supply, and undo data that read the same. */
  ghost predicate SameNode(a: Node, b: Node) {
    && a.coins == b.coins && a.index == b.index && |a.chain| == |b.chain|
    && forall k | 0 <= k < |a.chain| :: SameTip(a.chain[k], b.chain[k])
  }

  lemma SameBlocks(a: Node, b: Node)
    requires SameNode(a, b)
    ensures Blocks(a.chain) == Blocks(b.chain) && Supply(a.chain) == Supply(b.chain)
  {
    hide SameUndo;
    forall k | 0 <= k < |a.chain|
      ensures a.chain[k].txs == b.chain[k].txs
    {
      assert SameTip(a.chain[k], b.chain[k]);
    }
    assert a.chain != [] ==> SameTip(a.chain[|a.chain| - 1], b.chain[|b.chain| - 1]);
  }

  lemma SameVerdict(a: Node, b: Node, p: Params)
    requires SameNode(a, b)
    ensures HasUndo(a) <==> HasUndo(b)
    ensures HasUndo(a) ==> (DisconnectIsClean(a) <==> DisconnectIsClean(b)) && SameNode(Disconnected(a, p), Disconnected(b, p))
  {
    hide SameUndo, UndosFit, DisconnectBlock, DisconnectIndex;
    if |a.chain| > 0 {
      var s, t := a.chain[|a.chain| - 1], b.chain[|b.chain| - 1];
      assert SameTip(s, t);
      SameUndoFlips(s.undos, t.undos);
      if HasUndo(b) {
        DisconnectReads(b.coins, b.index, t.txs, t.undos, s.undos, |b.chain|, p.key);
      }
      if HasUndo(a) {
        DisconnectReads(a.coins, a.index, s.txs, s.undos, t.undos, |a.chain|, p.key);
      }
    }
  }

  /** The undo data in use reads like those the node would write now. */
  lemma UndoInUse(s: Kept, n: Node, txs: seq<Tx>, p: Params)
    requires SameNode(s.node, n) && FileReads(s.file) && CoinsOfChain(n) && Accepts(n, txs, p)
    ensures SameUndo(UndoToUse(s, txs), BlockUndo(n.coins, txs, NextHeight(n)))
    ensures FileReads(s.file[Blocks(n.chain) + [txs] := UndoToUse(s, txs)])
  {
    hide Worn, BlockUndo, GoodCoins, CoinsAfter, TxsOk, WellShaped, SameUndo;
    SameBlocks(s.node, n);
    var path := Blocks(n.chain) + [txs];
    assert path[..|path| - 1] == Blocks(n.chain);
    var a, c :| WornFrom(n, a, c);
    var m := CoinsAfter(Blocks(n.chain));
    WornKeys(m, a, c);
    var now, clear := BlockUndo(n.coins, txs, |path|), BlockUndo(m, txs, |path|);
    BlockUndoWorn(m, txs, |path|, a, c);
    SameUndoFlips(now, clear);
    if path in s.file {
      SameUndoTwice(s.file[path], clear, now);
    } else {
      SameUndoTwice(now, clear, now);
    }
  }

  lemma SameAfterConnect(s: Kept, n: Node, txs: seq<Tx>, p: Params)
    requires SameNode(s.node, n) && FileReads(s.file) && CoinsOfChain(n)
    ensures Accepts(s.node, txs, p) <==> Accepts(n, txs, p)
    ensures Accepts(n, txs, p) ==>
              SameNode(ConnectedKeeping(s, txs, p).node, Connected(n, txs, p)) && FileReads(ConnectedKeeping(s, txs, p).file)
  {
    hide BlockUndo, ApplyBlock, ConnectIndex, Minted, BlockOk, SameUndo, CoinsOfChain, FileReads;
    SameBlocks(s.node, n);
    if Accepts(n, txs, p) {
      UndoInUse(s, n, txs, p);
      var a, b := ConnectedKeeping(s, txs, p).node, Connected(n, txs, p);
      forall k | 0 <= k < |a.chain|
        ensures SameTip(a.chain[k], b.chain[k])
      {
        assert k < |n.chain| ==> SameTip(s.node.chain[k], n.chain[k]);
      }
    }
  }

  lemma {:induction false} KeepingRunsAlong(steps: seq<Step>, k: nat, p: Params)
    requires k <= |steps| && p.maxMoney >= 0 && p.maturity >= 1
    ensures SameNode(RunKeeping(steps, k, p).node, RunOf(EMPTY_NODE, steps, k, p)) && FileReads(RunKeeping(steps, k, p).file)
  {
    hide Accepts, Disconnected, Connected, ConnectedKeeping, HasUndo, DisconnectIsClean, FileReads, OnDisk, CoinsOfChain, SameTip;
    if k == 0 {
      NothingOnDisk();
    } else {
      KeepingRunsAlong(steps, k - 1, p);
      EveryRunCoins(steps, k - 1, p);
      var s, n := RunKeeping(steps, k - 1, p), RunOf(EMPTY_NODE, steps, k - 1, p);
      if steps[k - 1].Connect? {
        SameAfterConnect(s, n, steps[k - 1].txs, p);
      } else {
        SameVerdict(s.node, n, p);
      }
    }
  }

  lemma NothingOnDisk()
    ensures FileReads(map[])
  {
  }

  /** A run that never rewrites undo data and one that writes them at every connect stay together: the
      same blocks are accepted, the same disconnects are clean, and coins, indexes and supply
      are the same throughout. So what holds of every run of the one holds of the other. */
  lemma KeptUndoIsAsGood(steps: seq<Step>, k: nat, p: Params)
    requires k <= |steps| && p.maxMoney >= 0 && p.maturity >= 1
    ensures var a, b := RunKeeping(steps, k, p).node, RunOf(EMPTY_NODE, steps, k, p);
            && a.coins == b.coins && a.index == b.index
            && Blocks(a.chain) == Blocks(b.chain) && Supply(a.chain) == Supply(b.chain)
            && (HasUndo(a) <==> HasUndo(b)) && (HasUndo(a) ==> (DisconnectIsClean(a) <==> DisconnectIsClean(b)))
  {
    hide RunKeeping, RunOf, SameTip, HasUndo, DisconnectIsClean, FileReads;
    KeepingRunsAlong(steps, k, p);
    SameBlocks(RunKeeping(steps, k, p).node, RunOf(EMPTY_NODE, steps, k, p));
    SameVerdict(RunKeeping(steps, k, p).node, RunOf(EMPTY_NODE, steps, k, p), p);
  }
}
