/** What the address-unspent index lists after every run (src/main.cpp:2269-2286, 2337-2371, 2523-2593;
    src/txdb.cpp:195-215). While every disconnect is clean it lists exactly the indexable live
    outputs. A disconnect that fails puts in what the block spent and takes out what it made,
    while the coins stay; a later block that touches such an output puts it right again. */
module LedgerUnspent {
  import opened Options
  import opened Coins
  import opened CoinsCache
  import opened BlockCoins
  import opened Undo
  import opened CoinSums
  import opened AddressIndex
  import opened IndexBlocks
  import opened Ledger
  import opened LedgerSteps
  import opened LedgerDeltas

  // ----- which outputs a block moves -----

  function TxSpends(tx: Tx): set<OutPoint> { set out | out in Inputs(tx) }

  /** The outputs that can be spent. */
  function TxMakes(tx: Tx): set<OutPoint> {
    set n | 0 <= n < |tx.vout| && !tx.vout[n].IsUnspendable() :: OutPoint(tx.id, n)
  }

  function SpentBy(txs: seq<Tx>, k: nat): set<OutPoint>
    requires k <= |txs|
  {
    if k == 0 then {} else SpentBy(txs, k - 1) + TxSpends(txs[k - 1])
  }

  function MadeBy(txs: seq<Tx>, k: nat): set<OutPoint>
    requires k <= |txs|
  {
    if k == 0 then {} else MadeBy(txs, k - 1) + TxMakes(txs[k - 1])
  }

  lemma TxMoves(m: Utxo, tx: Tx, h: nat, out: OutPoint)
    requires WellFormed(m) && TxReady(m, tx)
    ensures HaveInput(ApplyTx(m, tx, h), out) <==> (HaveInput(m, out) && out !in TxSpends(tx)) || out in TxMakes(tx)
    ensures out in TxSpends(tx) ==> HaveInput(m, out)
    ensures HaveInput(m, out) ==> out.hash in m
  {
    hide SpendFirst, CoinsOf, CanSpend, TxOut.IsUnspendable;
    var m1 := if tx.IsCoinBase() then m else SpendFirst(m, tx.vin, |tx.vin|);
    if !tx.IsCoinBase() {
      SpendFirstKeepsOthers(m, tx.vin, |tx.vin|, out);
      SpendFirstKeepsWellFormed(m, tx.vin, |tx.vin|);
      CanSpendIff(m, tx.vin);
    }
    NewOutputs(tx, h);
  }

  lemma {:induction false} BlockMoves(m: Utxo, txs: seq<Tx>, h: nat, k: nat, out: OutPoint)
    requires BlockFits(m, txs, h) && k <= |txs|
    ensures HaveInput(ApplyFirst(m, txs, h, k), out) <==> (HaveInput(m, out) || out in MadeBy(txs, k)) && out !in SpentBy(txs, k)
    ensures out in SpentBy(txs, k) ==> HaveInput(m, out) || out in MadeBy(txs, k)
    ensures out in MadeBy(txs, k) ==> !HaveInput(m, out) && exists i :: 0 <= i < k && txs[i].id == out.hash
  {
    hide ApplyTx, WellFormed, TxReady, TxsReady, HaveInput, TxSpends;
    if k > 0 {
      BlockMoves(m, txs, h, k - 1, out);
      BlockStep(m, txs, h, k);
      TxMoves(ApplyFirst(m, txs, h, k - 1), txs[k - 1], h, out);
      HaveInputIsLive(m, out);
    }
  }

  // ----- clean runs: no assumption on ids -----

  lemma {:induction false} ConnectAgrees(ix: Index, m: Utxo, txs: seq<Tx>, h: nat, key: Indexer, k: nat)
    requires BlockFits(m, txs, h) && IndexesSpendable(key) && k <= |txs| && Agrees(ix.unspent, key, LiveOf(m))
    ensures Agrees(ConnectIndex(ix, m, txs, h, key, k).unspent, key, LiveOf(ApplyFirst(m, txs, h, k)))
  {
    hide ApplyFirst, ApplyTx, BlockFits, WellFormed, TxReady, LiveOf, Agrees, Replay, Events, IndexesSpendable, Prevouts, FitsAll, LiveAfter,
         ConnectIndex;
    ConnectIndexUnfold(ix, m, txs, h, key, k);
    if k == 0 {
      ApplyNothing(m, txs, h);
    } else {
      var m1, tx := ApplyFirst(m, txs, h, k - 1), txs[k - 1];
      ConnectAgrees(ix, m, txs, h, key, k - 1);
      BlockStep(m, txs, h, k);
      PrevoutCount(m1, tx);
      var es := Events(tx, Prevouts(m1, tx), k - 1, h, key);
      TxEventsFit(m1, tx, k - 1, h, key);
      ReplayAgrees(ConnectIndex(ix, m, txs, h, key, k - 1), key, LiveOf(m1), es, |es|);
    }
  }

  lemma {:induction false} DisconnectAgrees(ix: Index, tip: Tip, m: Utxo, h: nat, key: Indexer, k: nat)
    requires TipOf(tip, m, h) && IndexesSpendable(key) && k <= |tip.txs|
    requires Agrees(ix.unspent, key, LiveOf(ApplyFirst(m, tip.txs, h, k)))
    ensures Agrees(DisconnectIndex(ix, tip.txs, tip.undos, h, key, k).unspent, key, LiveOf(m))
    decreases k
  {
    hide ApplyFirst, ApplyTx, BlockFits, BlockUndo, WellFormed, TxReady, LiveOf, Agrees, TakeBack, TxEvents, Events, IndexesSpendable,
         Prevouts, FitsAll, LiveAfter, DisconnectIndex, UndoHeights, UndoFits;
    if k == 0 {
      DisconnectNothing(ix, tip.txs, tip.undos, h, key);
      ApplyNothing(m, tip.txs, h);
    } else {
      var m1, tx := ApplyFirst(m, tip.txs, h, k - 1), tip.txs[k - 1];
      var es := TxEvents(tip, h, key, k - 1);
      TipEvents(tip, m, h, key, k);
      DisconnectIndexStep(ix, tip.txs, tip.undos, h, key, k);
      TxEventsUnfold(tip, h, key, k - 1);
      TxEventsFit(m1, tx, k - 1, h, key);
      var hs := UndoHeights(tx, tip.undos[k - 1]);
      TakeBackAgrees(ix, key, LiveOf(m1), es, hs, |es|);
      DisconnectAgrees(TakeBack(ix, es, hs, |es|), tip, m, h, key, k - 1);
    }
  }

  /** The coins at the tip and below, as the disconnect finds and leaves them. */
  lemma TrailLive(n: Node, below: seq<Node>, p: Params)
    requires CoinTrail(n, below, p) && below != []
    ensures var s := below[|below| - 1];
            && |n.chain| > 0 && HasUndo(n) && n.chain[..|n.chain| - 1] == s.chain
            && TipOf(n.chain[|n.chain| - 1], s.coins, |n.chain|)
            && LiveOf(n.coins) == LiveOf(ApplyFirst(s.coins, n.chain[|n.chain| - 1].txs, |n.chain|, |n.chain[|n.chain| - 1].txs|))
            && LiveOf(Disconnected(n, p).coins) == (if DisconnectIsClean(n) then LiveOf(s.coins) else LiveOf(n.coins))
  {
    hide GoodCoins, Accepts, BlockFits, BlockUndo, ApplyFirst, UndosFit, CoinsBackAt, ConnectIndex, Minted, TipOf, LiveOf,
         DisconnectIsClean, Disconnected;
    var s, txs := below[|below| - 1], n.chain[|n.chain| - 1].txs;
    TrailTip(n, below, p);
    LinkTip(s, n, txs, p);
    ConnectKeepsGoodCoins(s, txs, p);
    BackIsGoodCoins(n, Connected(s, txs, p), p);
    DisconnectBringsCoins(s, n, txs, p);
    if DisconnectIsClean(n) {
      BackIsGoodCoins(Disconnected(n, p), s, p);
    }
  }

  lemma FlushKeepsLive(n: Node)
    ensures LiveOf(OnDisk(n.coins)) == LiveOf(n.coins)
  {
    hide LiveOf, Worn, OnDisk;
    FlushedIsWorn(n.coins);
    WornKeepsLive(n.coins, {}, n.coins.Keys);
  }

  /** As long as no disconnect has failed, the index lists exactly the indexable live outputs, whatever
      ids the transactions have. */
  lemma {:induction false} CleanRunsAgree(steps: seq<Step>, k: nat, p: Params)
    requires k <= |steps| && p.maxMoney >= 0 && p.maturity >= 1 && IndexesSpendable(p.key)
    requires Stuck(EMPTY_NODE, steps, k, p) == {}
    ensures var n := RunOf(EMPTY_NODE, steps, k, p); Agrees(n.index.unspent, p.key, LiveOf(n.coins))
  {
    hide GoodCoins, Accepts, HasUndo, DisconnectIsClean, CoinTrail, LiveOf, Agrees, OnDisk, IndexesSpendable, BlockFits, StuckUnmarked,
         ConnectIndex, ApplyBlock, BlockUndo, Minted, DisconnectBlock, DisconnectIndex, TipOf;
    if k == 0 {
      NothingListed(p.key);
    } else {
      StuckGrows(EMPTY_NODE, steps, k - 1, k, p);
      CleanRunsAgree(steps, k - 1, p);
      var n, step := RunOf(EMPTY_NODE, steps, k - 1, p), steps[k - 1];
      if step.Connect? {
        if Accepts(n, step.txs, p) {
          EveryRunKeepsCoins(steps, k - 1, p);
          AcceptedFits(n, step.txs, p);
          ConnectAgrees(n.index, n.coins, step.txs, NextHeight(n), p.key, |step.txs|);
          ApplyBlockIsApplyFirst(n.coins, step.txs, NextHeight(n));
        }
      } else if step.Flush? {
        FlushKeepsLive(n);
      } else if HasUndo(n) {
        var below := RunLeavesCoinTrail(steps, k - 1, p);
        UndoMeansChain(n);
        TrailLive(n, below, p);
        var tip := n.chain[|n.chain| - 1];
        DisconnectAgrees(n.index, tip, below[|below| - 1].coins, |n.chain|, p.key, |tip.txs|);
      }
    }
  }

  lemma NothingListed(key: Indexer)
    ensures Agrees(map[], key, LiveOf(map[]))
  {
    assert forall out :: out !in LiveOf(map[]);
  }

  // ----- every run -----

  /** What an output is, told by its id: ids are hashes of whole transactions. */
  type Content = OutPoint -> TxOut

  ghost predicate TxFollows(tx: Tx, content: Content) {
    forall n: nat | n < |tx.vout| :: content(OutPoint(tx.id, n)) == tx.vout[n]
  }

  ghost predicate TxsFollow(txs: seq<Tx>, content: Content) { forall i | 0 <= i < |txs| :: TxFollows(txs[i], content) }

  ghost predicate LiveFollows(live: imap<OutPoint, TxOut>, content: Content) { forall out | out in live :: live[out] == content(out) }

  /** The index lists the indexable live outputs, except that for those in `off` it is the other way
      round: it lists the ones that are not live. */
  ghost predicate AgreesBut(unspent: map<UnspentKey, UnspentValue>, key: Indexer, content: Content, live: imap<OutPoint, TxOut>,
                            off: set<OutPoint>) {
    forall k: UnspentKey ::
      && (k in unspent <==> (k.out in live) != (k.out in off) && key(content(k.out).script) == Some(k.addr))
      && (k in unspent ==> unspent[k].amount == content(k.out).value && unspent[k].script == content(k.out).script)
  }

  /** Without exceptions that matter this is agreement, and with one it is not. */
  lemma AgreesIffNoneOff(unspent: map<UnspentKey, UnspentValue>, key: Indexer, content: Content, live: imap<OutPoint, TxOut>,
                         off: set<OutPoint>)
    requires AgreesBut(unspent, key, content, live, off) && LiveFollows(live, content)
    ensures Agrees(unspent, key, live) <==> forall out | out in off :: key(content(out).script).None?
  {
    if forall out | out in off :: key(content(out).script).None? {
      forall k: UnspentKey
        ensures k in unspent <==> k.out in live && key(live[k.out].script) == Some(k.addr)
        ensures k in unspent ==> unspent[k].amount == live[k.out].value && unspent[k].script == live[k.out].script
      {
        assert k in unspent <==> (k.out in live) != (k.out in off) && key(content(k.out).script) == Some(k.addr);
      }
    } else {
      var out :| out in off && key(content(out).script).Some?;
      var k := UnspentKey(key(content(out).script).value, out);
      assert k in unspent <==> out !in live;
    }
  }

  /** The output that the index entry of the event is about. */
  function Moved(e: Event): set<OutPoint> { if e.spending || !e.txout.IsUnspendable() then {e.out} else {} }

  function MovedBy(es: seq<Event>, k: nat): set<OutPoint>
    requires k <= |es|
  {
    if k == 0 then {} else MovedBy(es, k - 1) + Moved(es[k - 1])
  }

  lemma ForwardBut(ix: Index, key: Indexer, content: Content, live: imap<OutPoint, TxOut>, off: set<OutPoint>, e: Event)
    requires AgreesBut(ix.unspent, key, content, live, off) && Fits(live, key, e) && content(e.out) == e.txout && IndexesSpendable(key)
    ensures AgreesBut(Forward(ix, e).unspent, key, content, LiveStep(live, e), off - Moved(e))
  {
    hide TxOut.IsUnspendable;
    var u', live', off' := Forward(ix, e).unspent, LiveStep(live, e), off - Moved(e);
    forall k: UnspentKey
      ensures k in u' <==> (k.out in live') != (k.out in off') && key(content(k.out).script) == Some(k.addr)
      ensures k in u' ==> u'[k].amount == content(k.out).value && u'[k].script == content(k.out).script
    {
      assert k in ix.unspent <==> (k.out in live) != (k.out in off) && key(content(k.out).script) == Some(k.addr);
    }
  }

  lemma BackwardBut(ix: Index, key: Indexer, content: Content, live: imap<OutPoint, TxOut>, off: set<OutPoint>, e: Event, h: nat)
    requires AgreesBut(ix.unspent, key, content, LiveStep(live, e), off) && Fits(live, key, e)
    requires content(e.out) == e.txout && IndexesSpendable(key)
    ensures AgreesBut(Backward(ix, e, h).unspent, key, content, live, off - Moved(e))
  {
    hide TxOut.IsUnspendable;
    var u', live', off' := Backward(ix, e, h).unspent, LiveStep(live, e), off - Moved(e);
    forall k: UnspentKey
      ensures k in u' <==> (k.out in live) != (k.out in off') && key(content(k.out).script) == Some(k.addr)
      ensures k in u' ==> u'[k].amount == content(k.out).value && u'[k].script == content(k.out).script
    {
      assert k in ix.unspent <==> (k.out in live') != (k.out in off) && key(content(k.out).script) == Some(k.addr);
    }
  }

  ghost predicate EventsFollow(es: seq<Event>, content: Content) { forall q | 0 <= q < |es| :: content(es[q].out) == es[q].txout }

  lemma {:induction false} ReplayBut(ix: Index, key: Indexer, content: Content, live: imap<OutPoint, TxOut>, off: set<OutPoint>,
                                    es: seq<Event>, k: nat)
    requires k <= |es| && AgreesBut(ix.unspent, key, content, live, off) && FitsAll(live, key, es, k) && EventsFollow(es, content)
    requires IndexesSpendable(key)
    ensures AgreesBut(Replay(ix, es, k).unspent, key, content, LiveAfter(live, es, k), off - MovedBy(es, k))
  {
    hide Forward, LiveStep, AgreesBut, Fits, IndexesSpendable, Moved;
    if k == 0 {
      assert off - {} == off;
    } else {
      ReplayBut(ix, key, content, live, off, es, k - 1);
      ForwardBut(Replay(ix, es, k - 1), key, content, LiveAfter(live, es, k - 1), off - MovedBy(es, k - 1), es[k - 1]);
      assert off - MovedBy(es, k - 1) - Moved(es[k - 1]) == off - MovedBy(es, k);
    }
  }

  lemma {:induction false} TakeBackBut(ix: Index, key: Indexer, content: Content, live: imap<OutPoint, TxOut>, off: set<OutPoint>,
                                      es: seq<Event>, heights: seq<nat>, k: nat)
    requires k <= |es| == |heights| && FitsAll(live, key, es, k) && EventsFollow(es, content) && IndexesSpendable(key)
    requires AgreesBut(ix.unspent, key, content, LiveAfter(live, es, k), off)
    ensures AgreesBut(TakeBack(ix, es, heights, k).unspent, key, content, live, off - MovedBy(es, k))
    decreases k
  {
    hide Backward, LiveStep, AgreesBut, Fits, IndexesSpendable, Moved;
    if k == 0 {
      assert off - {} == off;
    } else {
      BackwardBut(ix, key, content, LiveAfter(live, es, k - 1), off, es[k - 1], heights[k - 1]);
      TakeBackBut(Backward(ix, es[k - 1], heights[k - 1]), key, content, live, off - Moved(es[k - 1]), es, heights, k - 1);
      assert off - Moved(es[k - 1]) - MovedBy(es, k - 1) == off - MovedBy(es, k);
    }
  }

  // ----- transactions and blocks -----

  lemma {:induction false} InputsMoved(tx: Tx, prevouts: seq<TxOut>, i: nat, h: nat, key: Indexer, k: nat)
    requires |prevouts| == |Inputs(tx)| && k <= |prevouts|
    ensures var es := Events(tx, prevouts, i, h, key);
            MovedBy(es, k) == set j | 0 <= j < k :: Inputs(tx)[j]
  {
    if k > 0 {
      InputsMoved(tx, prevouts, i, h, key, k - 1);
      assert (set j | 0 <= j < k :: Inputs(tx)[j]) == (set j | 0 <= j < k - 1 :: Inputs(tx)[j]) + {Inputs(tx)[k - 1]};
    }
  }

  /** The spendable ones among the first `k` outputs. */
  function MadeUpTo(tx: Tx, k: nat): set<OutPoint>
    requires k <= |tx.vout|
  {
    set n | 0 <= n < k && !tx.vout[n].IsUnspendable() :: OutPoint(tx.id, n)
  }

  lemma {:induction false} OutputsMoved(tx: Tx, prevouts: seq<TxOut>, i: nat, h: nat, key: Indexer, k: nat)
    requires |prevouts| == |Inputs(tx)| && k <= |tx.vout|
    ensures var es := Events(tx, prevouts, i, h, key);
            MovedBy(es, |prevouts| + k) == TxSpends(tx) + MadeUpTo(tx, k)
  {
    hide TxOut.IsUnspendable;
    if k == 0 {
      InputsMoved(tx, prevouts, i, h, key, |prevouts|);
      assert (set j | 0 <= j < |Inputs(tx)| :: Inputs(tx)[j]) == TxSpends(tx);
    } else {
      OutputsMoved(tx, prevouts, i, h, key, k - 1);
      var e := Events(tx, prevouts, i, h, key)[|prevouts| + k - 1];
      assert MadeUpTo(tx, k) == MadeUpTo(tx, k - 1) + Moved(e);
    }
  }

  lemma TxMoved(tx: Tx, prevouts: seq<TxOut>, i: nat, h: nat, key: Indexer)
    requires |prevouts| == |Inputs(tx)|
    ensures var es := Events(tx, prevouts, i, h, key); MovedBy(es, |es|) == TxSpends(tx) + TxMakes(tx)
  {
    hide TxOut.IsUnspendable;
    OutputsMoved(tx, prevouts, i, h, key, |tx.vout|);
    EventCount(tx, prevouts, i, h, key);
    assert MadeUpTo(tx, |tx.vout|) == TxMakes(tx);
  }

  lemma EventsDoFollow(m: Utxo, tx: Tx, i: nat, h: nat, key: Indexer, content: Content)
    requires TxReady(m, tx) && LiveFollows(LiveOf(m), content) && TxFollows(tx, content)
    ensures EventsFollow(Events(tx, Prevouts(m, tx), i, h, key), content)
  {
    hide SpendFirst, CanSpend, OutputsOk, LiveOf, Prevout, HaveInput;
    var es := Events(tx, Prevouts(m, tx), i, h, key);
    forall q | 0 <= q < |Inputs(tx)|
      ensures content(es[q].out) == es[q].txout
    {
      CanSpendPrefix(m, tx.vin, q + 1, |tx.vin|);
      PrevoutWhenSpent(m, tx.vin, q);
      LiveOfHas(m, tx.vin[q]);
    }
  }

  lemma TxKeepsFollowing(m: Utxo, tx: Tx, h: nat, content: Content)
    requires WellFormed(m) && TxReady(m, tx) && LiveFollows(LiveOf(m), content) && TxFollows(tx, content)
    ensures LiveFollows(LiveOf(ApplyTx(m, tx, h)), content)
  {
    hide SpendFirst, CanSpend, CoinsOf, OutputsOk, LiveOf, LiveAfter, FitsAll;
    var key: Indexer := (s: Script) => None;
    var es := Events(tx, Prevouts(m, tx), 0, h, key);
    TxEventsFit(m, tx, 0, h, key);
    EventsDoFollow(m, tx, 0, h, key, content);
    LiveKeepsFollowing(LiveOf(m), es, |es|, content);
  }

  lemma {:induction false} LiveKeepsFollowing(live: imap<OutPoint, TxOut>, es: seq<Event>, k: nat, content: Content)
    requires k <= |es| && LiveFollows(live, content) && EventsFollow(es, content)
    ensures LiveFollows(LiveAfter(live, es, k), content)
  {
    if k > 0 {
      LiveKeepsFollowing(live, es, k - 1, content);
    }
  }

  lemma {:induction false} BlockKeepsFollowing(m: Utxo, txs: seq<Tx>, h: nat, k: nat, content: Content)
    requires BlockFits(m, txs, h) && k <= |txs| && LiveFollows(LiveOf(m), content) && TxsFollow(txs, content)
    ensures LiveFollows(LiveOf(ApplyFirst(m, txs, h, k)), content)
  {
    hide ApplyTx, BlockFits, WellFormed, TxReady, LiveOf, LiveFollows, TxFollows;
    if k > 0 {
      BlockKeepsFollowing(m, txs, h, k - 1, content);
      BlockStep(m, txs, h, k);
      TxKeepsFollowing(ApplyFirst(m, txs, h, k - 1), txs[k - 1], h, content);
    }
  }

  /** What is still off after the first `k` transactions have been written or taken back. */
  function Untouched(off: set<OutPoint>, txs: seq<Tx>, k: nat): set<OutPoint>
    requires k <= |txs|
  {
    off - (SpentBy(txs, k) + MadeBy(txs, k))
  }

  lemma UntouchedStep(off: set<OutPoint>, txs: seq<Tx>, k: nat)
    requires 0 < k <= |txs|
    ensures var t := TxSpends(txs[k - 1]) + TxMakes(txs[k - 1]);
            Untouched(off, txs, k) == Untouched(off, txs, k - 1) - t == Untouched(off - t, txs, k - 1)
    ensures Untouched(off, txs, 0) == off
  {
    hide TxSpends, TxMakes;
  }

  lemma {:induction false} ConnectBut(ix: Index, m: Utxo, txs: seq<Tx>, h: nat, key: Indexer, content: Content, off: set<OutPoint>, k: nat)
    requires BlockFits(m, txs, h) && IndexesSpendable(key) && k <= |txs| && AgreesBut(ix.unspent, key, content, LiveOf(m), off)
    requires LiveFollows(LiveOf(m), content) && TxsFollow(txs, content)
    ensures AgreesBut(ConnectIndex(ix, m, txs, h, key, k).unspent, key, content, LiveOf(ApplyFirst(m, txs, h, k)), Untouched(off, txs, k))
  {
    hide ApplyFirst, ApplyTx, BlockFits, WellFormed, TxReady, LiveOf, LiveFollows, TxFollows, AgreesBut, Replay, Events, IndexesSpendable,
         Prevouts, FitsAll, LiveAfter, ConnectIndex, Untouched, TxSpends, TxMakes, MovedBy, EventsFollow;
    ConnectIndexUnfold(ix, m, txs, h, key, k);
    if k == 0 {
      ApplyNothing(m, txs, h);
      assert Untouched(off, txs, 0) == off by { NoneTouched(off, txs); }
    } else {
      var m1, tx, off1 := ApplyFirst(m, txs, h, k - 1), txs[k - 1], Untouched(off, txs, k - 1);
      ConnectBut(ix, m, txs, h, key, content, off, k - 1);
      BlockStep(m, txs, h, k);
      PrevoutCount(m1, tx);
      var es := Events(tx, Prevouts(m1, tx), k - 1, h, key);
      TxEventsFit(m1, tx, k - 1, h, key);
      BlockKeepsFollowing(m, txs, h, k - 1, content);
      EventsDoFollow(m1, tx, k - 1, h, key, content);
      ReplayBut(ConnectIndex(ix, m, txs, h, key, k - 1), key, content, LiveOf(m1), off1, es, |es|);
      TxMoved(tx, Prevouts(m1, tx), k - 1, h, key);
      UntouchedStep(off, txs, k);
    }
  }

  lemma NoneTouched(off: set<OutPoint>, txs: seq<Tx>)
    ensures Untouched(off, txs, 0) == off
  {
  }

  lemma {:induction false} DisconnectBut(ix: Index, tip: Tip, m: Utxo, h: nat, key: Indexer, content: Content, off: set<OutPoint>, k: nat)
    requires TipOf(tip, m, h) && IndexesSpendable(key) && k <= |tip.txs|
    requires LiveFollows(LiveOf(m), content) && TxsFollow(tip.txs, content)
    requires AgreesBut(ix.unspent, key, content, LiveOf(ApplyFirst(m, tip.txs, h, k)), off)
    ensures AgreesBut(DisconnectIndex(ix, tip.txs, tip.undos, h, key, k).unspent, key, content, LiveOf(m), Untouched(off, tip.txs, k))
    decreases k
  {
    hide ApplyFirst, ApplyTx, BlockFits, BlockUndo, WellFormed, TxReady, LiveOf, LiveFollows, TxFollows, AgreesBut, TakeBack, TxEvents, Events,
         IndexesSpendable, Prevouts, FitsAll, LiveAfter, DisconnectIndex, UndoHeights, UndoFits, Untouched, TxSpends, TxMakes, MovedBy,
         EventsFollow;
    if k == 0 {
      DisconnectNothing(ix, tip.txs, tip.undos, h, key);
      ApplyNothing(m, tip.txs, h);
      NoneTouched(off, tip.txs);
    } else {
      var m1, tx := ApplyFirst(m, tip.txs, h, k - 1), tip.txs[k - 1];
      var es := TxEvents(tip, h, key, k - 1);
      TipEvents(tip, m, h, key, k);
      DisconnectIndexStep(ix, tip.txs, tip.undos, h, key, k);
      TxEventsUnfold(tip, h, key, k - 1);
      TxEventsFit(m1, tx, k - 1, h, key);
      BlockKeepsFollowing(m, tip.txs, h, k - 1, content);
      EventsDoFollow(m1, tx, k - 1, h, key, content);
      PrevoutCount(m1, tx);
      TxMoved(tx, Prevouts(m1, tx), k - 1, h, key);
      var hs := UndoHeights(tx, tip.undos[k - 1]);
      TakeBackBut(ix, key, content, LiveOf(m1), off, es, hs, |es|);
      DisconnectBut(TakeBack(ix, es, hs, |es|), tip, m, h, key, content, off - (TxSpends(tx) + TxMakes(tx)), k - 1);
      UntouchedStep(off, tip.txs, k);
    }
  }

  /** A disconnect that fails: the index is that of the coins before the block, the coins are those after
      it, and they differ in what the block spent or made, but not in what it did both to. */
  lemma FailedBut(unspent: map<UnspentKey, UnspentValue>, key: Indexer, content: Content, m: Utxo, txs: seq<Tx>, h: nat, off: set<OutPoint>)
    requires BlockFits(m, txs, h) && AgreesBut(unspent, key, content, LiveOf(m), Untouched(off, txs, |txs|))
    ensures AgreesBut(unspent, key, content, LiveOf(ApplyFirst(m, txs, h, |txs|)), WentOff(off, txs))
  {
    hide LiveOf, SpentBy, MadeBy, ApplyFirst, BlockFits, HaveInput;
    forall k: UnspentKey
      ensures (k.out in LiveOf(m)) != (k.out in Untouched(off, txs, |txs|))
              <==> (k.out in LiveOf(ApplyFirst(m, txs, h, |txs|))) != (k.out in WentOff(off, txs))
    {
      BlockMoves(m, txs, h, |txs|, k.out);
      LiveOfHas(m, k.out);
      LiveOfHas(ApplyFirst(m, txs, h, |txs|), k.out);
    }
  }

  /** The outputs for which the index is the wrong way round after a failed disconnect. */
  function WentOff(off: set<OutPoint>, txs: seq<Tx>): set<OutPoint> {
    var spent, made := SpentBy(txs, |txs|), MadeBy(txs, |txs|);
    Untouched(off, txs, |txs|) + (spent - made) + (made - spent)
  }

  // ----- runs -----

  /** ... and after the first `k` steps of a run: every block puts right what it touches, when it is
      connected and when it is taken back; a failed disconnect does the opposite. */
  function Off(steps: seq<Step>, k: nat, p: Params): set<OutPoint>
    requires k <= |steps|
  {
    if k == 0 then {}
    else
      var off, n, step := Off(steps, k - 1, p), RunOf(EMPTY_NODE, steps, k - 1, p), steps[k - 1];
      if step.Connect? && Accepts(n, step.txs, p) then Untouched(off, step.txs, |step.txs|)
      else if step.Disconnect? && HasUndo(n) then
        var txs := n.chain[|n.chain| - 1].txs;
        if DisconnectIsClean(n) then Untouched(off, txs, |txs|) else WentOff(off, txs)
      else off
  }

  ghost predicate StepsFollow(steps: seq<Step>, content: Content) {
    forall k | 0 <= k < |steps| && steps[k].Connect? :: TxsFollow(steps[k].txs, content)
  }

  ghost predicate ChainFollows(chain: seq<Tip>, content: Content) { forall k | 0 <= k < |chain| :: TxsFollow(chain[k].txs, content) }

  lemma {:induction false} RunFollows(steps: seq<Step>, k: nat, p: Params, content: Content)
    requires k <= |steps| && StepsFollow(steps, content)
    ensures ChainFollows(RunOf(EMPTY_NODE, steps, k, p).chain, content)
  {
    hide Accepts, DisconnectIsClean, TxsFollow, UndosFit, ApplyBlock, BlockUndo, ConnectIndex, Minted, DisconnectIndex, DisconnectBlock, OnDisk;
    if k > 0 {
      RunFollows(steps, k - 1, p, content);
    }
  }

  lemma {:induction false} TrailFollows(n: Node, below: seq<Node>, p: Params, content: Content)
    requires CoinTrail(n, below, p) && ChainFollows(n.chain, content)
    ensures LiveFollows(LiveOf(n.coins), content)
    decreases |below|
  {
    hide GoodCoins, CoinLink, LiveOf, TxsFollow, ApplyFirst, BlockFits, BlockUndo, UndosFit, HasUndo, DisconnectIsClean, Disconnected;
    if below == [] {
      NoneLive(content);
    } else {
      var s, H := below[|below| - 1], |n.chain|;
      TrailLive(n, below, p);
      forall k | 0 <= k < |s.chain|
        ensures s.chain[k] == n.chain[k]
      {
        assert s.chain[k] == n.chain[..H - 1][k];
      }
      TrailFollows(s, below[..|below| - 1], p, content);
      BlockKeepsFollowing(s.coins, n.chain[H - 1].txs, H, |n.chain[H - 1].txs|, content);
    }
  }

  lemma NoneLive(content: Content)
    ensures LiveFollows(LiveOf(map[]), content)
  {
    assert forall out :: out !in LiveOf(map[]);
  }

  lemma DisconnectLeavesOff(n: Node, below: seq<Node>, p: Params, content: Content, off: set<OutPoint>)
    requires CoinTrail(n, below, p) && HasUndo(n) && IndexesSpendable(p.key) && ChainFollows(n.chain, content) && below != []
    requires AgreesBut(n.index.unspent, p.key, content, LiveOf(n.coins), off)
    ensures var n', txs := Disconnected(n, p), n.chain[|n.chain| - 1].txs;
            AgreesBut(n'.index.unspent, p.key, content, LiveOf(n'.coins),
                      if DisconnectIsClean(n) then Untouched(off, txs, |txs|) else WentOff(off, txs))
  {
    hide GoodCoins, CoinLink, LiveOf, TxsFollow, ApplyFirst, BlockUndo, BlockFits, UndosFit, DisconnectIndex, DisconnectBlock, AgreesBut,
         Untouched, WentOff, IndexesSpendable, LiveFollows;
    var s, H, tip := below[|below| - 1], |n.chain|, n.chain[|n.chain| - 1];
    TrailLive(n, below, p);
    forall k | 0 <= k < |s.chain|
      ensures s.chain[k] == n.chain[k]
    {
      assert s.chain[k] == n.chain[..H - 1][k];
    }
    TrailFollows(s, below[..|below| - 1], p, content);
    DisconnectBut(n.index, tip, s.coins, H, p.key, content, off, |tip.txs|);
    if !DisconnectIsClean(n) {
      FailedBut(Disconnected(n, p).index.unspent, p.key, content, s.coins, tip.txs, H, off);
    }
  }

  /** After every run: the index lists the indexable live outputs, the other way round for those that
      failed disconnects have left off. So it agrees with the coins exactly when none of these is
      indexable. */
  lemma EveryRunUnspent(steps: seq<Step>, k: nat, p: Params, content: Content)
    requires k <= |steps| && p.maxMoney >= 0 && p.maturity >= 1 && IndexesSpendable(p.key) && StepsFollow(steps, content)
    ensures var n, off := RunOf(EMPTY_NODE, steps, k, p), Off(steps, k, p);
            && AgreesBut(n.index.unspent, p.key, content, LiveOf(n.coins), off)
            && (Agrees(n.index.unspent, p.key, LiveOf(n.coins)) <==> forall out | out in off :: p.key(content(out).script).None?)
  {
    hide GoodCoins, CoinTrail, LiveOf, AgreesBut, Agrees, IndexesSpendable, Off, RunOf, StuckUnmarked, LiveFollows, StepsFollow, ChainFollows;
    var n := RunOf(EMPTY_NODE, steps, k, p);
    RunLeavesOff(steps, k, p, content);
    var below := RunLeavesCoinTrail(steps, k, p);
    RunFollows(steps, k, p, content);
    TrailFollows(n, below, p, content);
    AgreesIffNoneOff(n.index.unspent, p.key, content, LiveOf(n.coins), Off(steps, k, p));
  }

  lemma {:induction false} RunLeavesOff(steps: seq<Step>, k: nat, p: Params, content: Content)
    requires k <= |steps| && p.maxMoney >= 0 && p.maturity >= 1 && IndexesSpendable(p.key) && StepsFollow(steps, content)
    ensures var n := RunOf(EMPTY_NODE, steps, k, p); AgreesBut(n.index.unspent, p.key, content, LiveOf(n.coins), Off(steps, k, p))
  {
    hide GoodCoins, Accepts, HasUndo, DisconnectIsClean, CoinTrail, LiveOf, AgreesBut, OnDisk, IndexesSpendable, BlockFits, StuckUnmarked,
         ConnectIndex, ApplyBlock, BlockUndo, Minted, Disconnected, TipOf, TxsFollow, LiveFollows, Untouched, WentOff, ChainFollows;
    if k == 0 {
      NothingOff(p.key, content);
    } else {
      RunLeavesOff(steps, k - 1, p, content);
      var n, step, off := RunOf(EMPTY_NODE, steps, k - 1, p), steps[k - 1], Off(steps, k - 1, p);
      var below := RunLeavesCoinTrail(steps, k - 1, p);
      RunFollows(steps, k - 1, p, content);
      if step.Connect? {
        if Accepts(n, step.txs, p) {
          EveryRunKeepsCoins(steps, k - 1, p);
          AcceptedFits(n, step.txs, p);
          TrailFollows(n, below, p, content);
          ConnectBut(n.index, n.coins, step.txs, NextHeight(n), p.key, content, off, |step.txs|);
          ApplyBlockIsApplyFirst(n.coins, step.txs, NextHeight(n));
        }
      } else if step.Flush? {
        FlushKeepsLive(n);
      } else if HasUndo(n) {
        UndoMeansChain(n);
        DisconnectLeavesOff(n, below, p, content, off);
      }
    }
  }

  lemma NothingOff(key: Indexer, content: Content)
    ensures AgreesBut(map[], key, content, LiveOf(map[]), {})
  {
    assert forall out :: out !in LiveOf(map[]);
  }
}
