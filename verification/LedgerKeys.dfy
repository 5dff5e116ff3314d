/** Which address deltas and which unspent entries the node stores, key by key
    (src/main.cpp:2269-2286, 2337-2358, 2523-2593). A delta is filed under the address, the height, the
    place of the transaction in its block, the id of that transaction, and the number of the input
    or output. */
module LedgerKeys {
  import opened Options
  import opened Coins
  import opened CoinsCache
  import opened BlockCoins
  import opened Undo
  import opened CoinSums
  import opened AddressIndex
  import opened IndexBlocks
  import opened Ledger
  import opened LedgerSteps
  import opened LedgerDeltas

  // ----- the deltas of one transaction -----

  /** Transaction `i` of the block at height `h` takes what its input `d.n` spends from the address, or
      gives it its output `d.n`. `spent` are the outputs behind the inputs. */
  ghost predicate TxDelta(tx: Tx, spent: seq<TxOut>, i: nat, h: nat, key: Indexer, d: DeltaKey, v: int) {
    && d.height == h && d.txIndex == i && d.txid == tx.id
    && if d.spending then d.n < |spent| && key(spent[d.n].script) == Some(d.addr) && v == -spent[d.n].value
       else d.n < |tx.vout| && key(tx.vout[d.n].script) == Some(d.addr) && v == tx.vout[d.n].value
  }

  /** The events up to number `p` are the first inputs, then the first outputs. */
  ghost predicate Reached(spent: seq<TxOut>, d: DeltaKey, p: nat) { if d.spending then d.n < p else |spent| + d.n < p }

  lemma {:induction false} TxDeltasAre(d0: Deltas, tx: Tx, spent: seq<TxOut>, i: nat, h: nat, key: Indexer, p: nat, d: DeltaKey, v: int)
    requires |spent| == |Inputs(tx)| && p <= |spent| + |tx.vout| && (d in d0 ==> d.height != h || d.txIndex != i)
    ensures var es := Events(tx, spent, i, h, key);
            var r := Replay(Only(d0), es, p).deltas;
            d in r && r[d] == v <==> (d in d0 && d0[d] == v) || (TxDelta(tx, spent, i, h, key, d, v) && Reached(spent, d, p))
  {
    if p > 0 {
      TxDeltasAre(d0, tx, spent, i, h, key, p - 1, d, v);
      TxDeltasAre(d0, tx, spent, i, h, key, p - 1, d, if d.spending && d.n < |spent| then -spent[d.n].value else 0);
    }
  }

  lemma TxDeltasAll(d0: Deltas, tx: Tx, spent: seq<TxOut>, i: nat, h: nat, key: Indexer, d: DeltaKey, v: int)
    requires |spent| == |Inputs(tx)| && (d in d0 ==> d.height != h || d.txIndex != i)
    ensures var es := Events(tx, spent, i, h, key);
            var r := Replay(Only(d0), es, |es|).deltas;
            d in r && r[d] == v <==> (d in d0 && d0[d] == v) || TxDelta(tx, spent, i, h, key, d, v)
  {
    hide Replay;
    EventCount(tx, spent, i, h, key);
    TxDeltasAre(d0, tx, spent, i, h, key, |spent| + |tx.vout|, d, v);
  }

  // ----- blocks and chains -----

  /** The delta filed under `d` is the value `v` that the block has: of an output that input `d.n` of
      transaction `d.txIndex` spends, with a minus, or of its output `d.n`. */
  ghost predicate BlockHas(tip: Tip, key: Indexer, d: DeltaKey, v: int)
    requires UndosFit(tip.txs, tip.undos)
  {
    && d.txIndex < |tip.txs|
    && var tx := tip.txs[d.txIndex];
       && d.txid == tx.id
       && if d.spending then
            && !tx.IsCoinBase() && d.n < |tx.vin|
            && var o := tip.undos[d.txIndex][d.n].txout; key(o.script) == Some(d.addr) && v == -o.value
          else
            && d.n < |tx.vout|
            && var o := tx.vout[d.n]; key(o.script) == Some(d.addr) && v == o.value
  }

  lemma HasIsTxDelta(tip: Tip, h: nat, key: Indexer, i: nat, d: DeltaKey, v: int)
    requires UndosFit(tip.txs, tip.undos) && i < |tip.txs|
    ensures TxDelta(tip.txs[i], UndoneOutputs(tip.txs[i], tip.undos[i]), i, h, key, d, v)
            <==> d.height == h && d.txIndex == i && BlockHas(tip, key, d, v)
  {
  }

  lemma {:induction false} BlockDeltasAre(d0: Deltas, tip: Tip, h: nat, key: Indexer, k: nat, d: DeltaKey, v: int)
    requires UndosFit(tip.txs, tip.undos) && k <= |tip.txs| && BelowHeight(d0, h)
    ensures var r := BlockDeltas(d0, tip, h, key, k);
            d in r && r[d] == v <==> (d in d0 && d0[d] == v) || (d.height == h && d.txIndex < k && BlockHas(tip, key, d, v))
  {
    hide Replay, Events, UndosFit, TxDelta, BlockHas;
    if k > 0 {
      var d1, tx := BlockDeltas(d0, tip, h, key, k - 1), tip.txs[k - 1];
      BlockDeltasAre(d0, tip, h, key, k - 1, d, v);
      if d in d1 {
        BlockDeltasAre(d0, tip, h, key, k - 1, d, d1[d]);
      }
      TxEventsUnfold(tip, h, key, k - 1);
      TipFitsAt(tip, k - 1);
      TxDeltasAll(d1, tx, UndoneOutputs(tx, tip.undos[k - 1]), k - 1, h, key, d, v);
      HasIsTxDelta(tip, h, key, k - 1, d, v);
    }
  }

  lemma TipFitsAt(tip: Tip, i: nat)
    requires UndosFit(tip.txs, tip.undos) && i < |tip.txs|
    ensures |tip.undos| == |tip.txs| && UndoFits(tip.txs[i], tip.undos[i])
    ensures |UndoneOutputs(tip.txs[i], tip.undos[i])| == |Inputs(tip.txs[i])|
  {
  }

  /** The block at the delta's height has it, and is not one whose disconnect has failed. */
  ghost predicate ChainHas(chain: seq<Tip>, stuck: set<nat>, key: Indexer, k: nat, d: DeltaKey, v: int)
    requires ChainHasUndo(chain) && k <= |chain|
  {
    1 <= d.height <= k && d.height !in stuck && BlockHas(chain[d.height - 1], key, d, v)
  }

  lemma {:induction false} ChainDeltasAre(chain: seq<Tip>, stuck: set<nat>, key: Indexer, k: nat, d: DeltaKey, v: int)
    requires ChainHasUndo(chain) && k <= |chain|
    ensures var r := ChainDeltas(chain, stuck, key, k); d in r && r[d] == v <==> ChainHas(chain, stuck, key, k, d, v)
  {
    hide BlockDeltas, BlockHas, UndosFit;
    if k > 0 {
      ChainDeltasAre(chain, stuck, key, k - 1, d, v);
      ChainDeltasBelow(chain, stuck, key, k - 1);
      if k !in stuck {
        BlockDeltasAre(ChainDeltas(chain, stuck, key, k - 1), chain[k - 1], k, key, |chain[k - 1].txs|, d, v);
        if d.height == k {
          HasIsInside(chain[k - 1], key, d, v);
        }
      }
    }
  }

  lemma HasIsInside(tip: Tip, key: Indexer, d: DeltaKey, v: int)
    requires UndosFit(tip.txs, tip.undos)
    ensures BlockHas(tip, key, d, v) ==> d.txIndex < |tip.txs|
  {
  }

  /** After every run, failed disconnects included: under each key is stored exactly what the block at its
      height, unless its disconnect has failed, has for it. */
  lemma EveryRunKeys(steps: seq<Step>, k: nat, p: Params, d: DeltaKey, v: int)
    requires k <= |steps| && p.maxMoney >= 0 && p.maturity >= 1
    ensures var n, stuck := RunOf(EMPTY_NODE, steps, k, p), Stuck(EMPTY_NODE, steps, k, p);
            && ChainHasUndo(n.chain)
            && (d in n.index.deltas && n.index.deltas[d] == v <==> ChainHas(n.chain, stuck, p.key, |n.chain|, d, v))
  {
    hide RunOf, Stuck, ChainDeltas, ChainHas, UndosFit;
    RunKeepsDeltas(steps, k, p);
    var n := RunOf(EMPTY_NODE, steps, k, p);
    ChainDeltasAre(n.chain, Stuck(EMPTY_NODE, steps, k, p), p.key, |n.chain|, d, v);
  }

  /** Connecting a block at height `h` adds, for each indexed input, a delta of minus the value of the coin it
      spends, and for each indexed output one of its value, each under the id of the transaction. */
  lemma ConnectKeys(ix: Index, m: Utxo, txs: seq<Tx>, h: nat, key: Indexer, d: DeltaKey, v: int)
    requires BlockFits(m, txs, h) && BelowHeight(ix.deltas, h)
    ensures var r, i := ConnectIndex(ix, m, txs, h, key, |txs|).deltas, d.txIndex;
            d in r && r[d] == v <==>
            || (d in ix.deltas && ix.deltas[d] == v)
            || (&& d.height == h && i < |txs| && d.txid == txs[i].id
                && if d.spending then
                     && !txs[i].IsCoinBase() && d.n < |txs[i].vin|
                     && var o := Prevout(ApplyFirst(m, txs, h, i), txs[i].vin[d.n]); key(o.script) == Some(d.addr) && v == -o.value
                   else d.n < |txs[i].vout| && key(txs[i].vout[d.n].script) == Some(d.addr) && v == txs[i].vout[d.n].value)
  {
    hide ApplyFirst, BlockFits, BlockUndo, ConnectIndex, BlockDeltas, Prevout, UndosFit;
    var tip := Tip(txs, BlockUndo(m, txs, h), 0);
    BlockUndoFits(m, txs, h);
    ConnectDeltas(ix, tip, m, h, key, |txs|);
    BlockDeltasAre(ix.deltas, tip, h, key, |txs|, d, v);
    if d.txIndex < |txs| && d.spending && !txs[d.txIndex].IsCoinBase() && d.n < |txs[d.txIndex].vin| {
      UndoIsPrevout(m, txs, h, d.txIndex, d.n);
    }
  }

  lemma UndoIsPrevout(m: Utxo, txs: seq<Tx>, h: nat, i: nat, j: nat)
    requires BlockFits(m, txs, h) && i < |txs| && !txs[i].IsCoinBase() && j < |txs[i].vin|
    ensures UndosFit(txs, BlockUndo(m, txs, h))
    ensures BlockUndo(m, txs, h)[i][j].txout == Prevout(ApplyFirst(m, txs, h, i), txs[i].vin[j])
  {
    hide ApplyFirst, WellFormed, TxReady, TxUndo, Prevout;
    BlockUndoFits(m, txs, h);
    BlockStep(m, txs, h, i + 1);
    BlockUndoAt(m, txs, h, i);
    var m1, tx := ApplyFirst(m, txs, h, i), txs[i];
    UndoRemembersPrevouts(m1, tx);
    assert UndoneOutputs(tx, TxUndo(m1, tx))[j] == Prevouts(m1, tx)[j];
  }

  // ----- unspent entries, with their heights -----

  /** The output that `u` names is output `u.out.n` of the transaction, paid to the address. */
  ghost predicate PaysTo(tx: Tx, key: Indexer, u: UnspentKey) {
    u.out.hash == tx.id && u.out.n < |tx.vout| && key(tx.vout[u.out.n].script) == Some(u.addr)
  }

  lemma {:induction false} TxUnspent(ix: Index, tx: Tx, spent: seq<TxOut>, i: nat, h: nat, key: Indexer, p: nat, u: UnspentKey)
    requires |spent| == |Inputs(tx)| && p <= |spent| + |tx.vout|
    ensures var r := Replay(ix, Events(tx, spent, i, h, key), p).unspent;
            if PaysTo(tx, key, u) && |spent| + u.out.n < p then
              u in r && r[u] == UnspentValue(tx.vout[u.out.n].value, tx.vout[u.out.n].script, h)
            else if forall j | 0 <= j < |Inputs(tx)| :: tx.vin[j] != u.out then
              (u in r <==> u in ix.unspent) && (u in r ==> r[u] == ix.unspent[u])
            else true
  {
    if p > 0 {
      TxUnspent(ix, tx, spent, i, h, key, p - 1, u);
    }
  }

  /** Connecting a block at height `h` enters each indexed output that it makes and does not spend, with its
      value, its script and that height, and leaves every entry alone whose output it neither makes nor
      spends. */
  lemma {:induction false} ConnectUnspent(ix: Index, m: Utxo, txs: seq<Tx>, h: nat, key: Indexer, k: nat, u: UnspentKey)
    requires BlockFits(m, txs, h) && k <= |txs| && forall i: nat, j: nat | i < k :: !IsInput(txs, i, j, u.out)
    ensures var r := ConnectIndex(ix, m, txs, h, key, k).unspent;
            && (forall i | 0 <= i < k && PaysTo(txs[i], key, u) ::
                  u in r && r[u] == UnspentValue(txs[i].vout[u.out.n].value, txs[i].vout[u.out.n].script, h))
            && ((forall i | 0 <= i < k :: !PaysTo(txs[i], key, u)) ==>
                  (u in r <==> u in ix.unspent) && (u in r ==> r[u] == ix.unspent[u]))
  {
    hide ApplyFirst, Replay, Events, Prevouts, ConnectIndex, WellFormed, TxsReady;
    ConnectIndexUnfold(ix, m, txs, h, key, k);
    if k > 0 {
      ConnectUnspent(ix, m, txs, h, key, k - 1, u);
      var m1, tx := ApplyFirst(m, txs, h, k - 1), txs[k - 1];
      PrevoutCount(m1, tx);
      EventCount(tx, Prevouts(m1, tx), k - 1, h, key);
      TxUnspent(ConnectIndex(ix, m, txs, h, key, k - 1), tx, Prevouts(m1, tx), k - 1, h, key, |Inputs(tx)| + |tx.vout|, u);
      forall j | 0 <= j < |Inputs(tx)|
        ensures tx.vin[j] != u.out
      {
        assert !IsInput(txs, k - 1, j, u.out);
      }
    }
  }

  lemma {:induction false} TxRestores(ix: Index, tx: Tx, undos: seq<TxInUndo>, i: nat, h: nat, key: Indexer, p: nat, u: UnspentKey, j: nat)
    requires UndoFits(tx, undos) && p <= |Inputs(tx)| + |tx.vout| && j < |Inputs(tx)| && tx.vin[j] == u.out && u.out.hash != tx.id
    requires key(undos[j].txout.script) == Some(u.addr) && forall x | 0 <= x < |Inputs(tx)| && x != j :: tx.vin[x] != u.out
    requires p <= j ==> u in ix.unspent && ix.unspent[u] == UnspentValue(undos[j].txout.value, undos[j].txout.script, undos[j].height)
    ensures |UndoHeights(tx, undos)| == |Events(tx, UndoneOutputs(tx, undos), i, h, key)|
    ensures var r := TakeBack(ix, Events(tx, UndoneOutputs(tx, undos), i, h, key), UndoHeights(tx, undos), p).unspent;
            u in r && r[u] == UnspentValue(undos[j].txout.value, undos[j].txout.script, undos[j].height)
    decreases p
  {
    if p > 0 {
      var es, hs := Events(tx, UndoneOutputs(tx, undos), i, h, key), UndoHeights(tx, undos);
      TxRestores(Backward(ix, es[p - 1], hs[p - 1]), tx, undos, i, h, key, p - 1, u, j);
    }
  }

  /** Taking a transaction back enters each indexed output it had spent again, with the value and the script
      the undo data remember, and the height they carry. */
  lemma DisconnectUnspent(ix: Index, tx: Tx, undos: seq<TxInUndo>, i: nat, h: nat, key: Indexer, j: nat, a: Address)
    requires UndoFits(tx, undos) && !tx.IsCoinBase() && DistinctInputs(tx.vin) && j < |tx.vin| && tx.vin[j].hash != tx.id
    requires key(undos[j].txout.script) == Some(a)
    ensures var es, hs, u := Events(tx, UndoneOutputs(tx, undos), i, h, key), UndoHeights(tx, undos), UnspentKey(a, tx.vin[j]);
            && |hs| == |es|
            && var r := TakeBack(ix, es, hs, |es|).unspent;
               u in r && r[u] == UnspentValue(undos[j].txout.value, undos[j].txout.script, undos[j].height)
  {
    hide TakeBack;
    EventCount(tx, UndoneOutputs(tx, undos), i, h, key);
    TxRestores(ix, tx, undos, i, h, key, |Inputs(tx)| + |tx.vout|, UnspentKey(a, tx.vin[j]), j);
  }
}
