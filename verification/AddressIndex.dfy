/** The address, unspent and spent indexes that ConnectBlock writes and DisconnectBlock takes
    back (src/main.cpp:2212-2239, 2269-2286, 2337-2358, 2523-2593; src/txdb.cpp:195-273).

    Which address a script pays to is left open: `key` stands for GetAddressIndexKey. A block
    is turned into the list of index events it causes, in the order the source emits them;
    connecting replays the list forwards, disconnecting backwards. */
module AddressIndex {
  import opened Options
  import opened Coins
  import opened CoinsCache
  import opened BlockCoins
  import opened Undo
  import opened CoinSums

  datatype Address = Address(kind: nat, hash: Hash)
  type Indexer = Script -> Option<Address>

  datatype DeltaKey = DeltaKey(addr: Address, height: nat, txIndex: nat, txid: Hash, n: nat, spending: bool)
  datatype UnspentKey = UnspentKey(addr: Address, out: OutPoint)
  datatype UnspentValue = UnspentValue(amount: int, script: Script, height: nat)
  datatype SpentValue = SpentValue(txid: Hash, input: nat, height: nat, amount: int, addr: Option<Address>)

  datatype Index = Index(deltas: map<DeltaKey, int>,
                         unspent: map<UnspentKey, UnspentValue>,
                         spent: map<OutPoint, SpentValue>)

  const EMPTY_INDEX := Index(map[], map[], map[])

  /** One input or output as the indexes see it. For an input, `out` is the outpoint it spends
      and `txout` the output found there; for an output, `out` is its own outpoint. */
  datatype Event = Event(spending: bool, addr: Option<Address>, height: nat, txIndex: nat, txid: Hash, n: nat,
                         out: OutPoint, txout: TxOut)

  function DeltaKeyOf(e: Event): DeltaKey
    requires e.addr.Some?
  {
    DeltaKey(e.addr.value, e.height, e.txIndex, e.txid, e.n, e.spending)
  }

  function Signed(e: Event): int { if e.spending then -e.txout.value else e.txout.value }

  /** What ConnectBlock writes for one event. */
  function Forward(ix: Index, e: Event): Index {
    Index(
      if e.addr.Some? then ix.deltas[DeltaKeyOf(e) := Signed(e)] else ix.deltas,
      if e.addr.None? then ix.unspent
      else if e.spending then ix.unspent - {UnspentKey(e.addr.value, e.out)}
      else ix.unspent[UnspentKey(e.addr.value, e.out) := UnspentValue(e.txout.value, e.txout.script, e.height)],
      if e.spending then ix.spent[e.out := SpentValue(e.txid, e.n, e.height, e.txout.value, e.addr)] else ix.spent)
  }

  /** What DisconnectBlock writes for it; `undoHeight` is the height in the undo record. */
  function Backward(ix: Index, e: Event, undoHeight: nat): Index {
    Index(
      if e.addr.Some? then ix.deltas - {DeltaKeyOf(e)} else ix.deltas,
      if e.addr.None? then ix.unspent
      else if e.spending
      then ix.unspent[UnspentKey(e.addr.value, e.out) := UnspentValue(e.txout.value, e.txout.script, undoHeight)]
      else ix.unspent - {UnspentKey(e.addr.value, e.out)},
      if e.spending then ix.spent - {e.out} else ix.spent)
  }

  /** Replay the first `k` events, and take them back last one first. */
  function Replay(ix: Index, es: seq<Event>, k: nat): Index
    requires k <= |es|
  {
    if k == 0 then ix else Forward(Replay(ix, es, k - 1), es[k - 1])
  }

  function TakeBack(ix: Index, es: seq<Event>, heights: seq<nat>, k: nat): Index
    requires k <= |es| == |heights|
    decreases k
  {
    if k == 0 then ix else TakeBack(Backward(ix, es[k - 1], heights[k - 1]), es, heights, k - 1)
  }

  // ----- what the indexes should say -----

  /** The live outputs as a (possibly infinite) table from outpoints. */
  ghost function LiveOf(m: Utxo): imap<OutPoint, TxOut> {
    imap out | HaveInput(m, out) :: m[out.hash].vout[out.n]
  }

  ghost function LiveStep(live: imap<OutPoint, TxOut>, e: Event): imap<OutPoint, TxOut> {
    if e.spending then imap out | out in live && out != e.out :: live[out]
    else if e.txout.IsUnspendable() then live
    else live[e.out := e.txout]
  }

  /** The event fits the live outputs it meets. */
  ghost predicate Fits(live: imap<OutPoint, TxOut>, key: Indexer, e: Event) {
    && e.addr == key(e.txout.script)
    && if e.spending then e.out in live && live[e.out] == e.txout
       else e.out !in live
  }

  /** The unspent index lists exactly the live outputs paid to an indexed address, with the
      right amount and script. The height it stores is not part of this. */
  ghost predicate Agrees(unspent: map<UnspentKey, UnspentValue>, key: Indexer, live: imap<OutPoint, TxOut>) {
    forall k: UnspentKey ::
      && (k in unspent <==> k.out in live && key(live[k.out].script) == Some(k.addr))
      && (k in unspent ==> unspent[k].amount == live[k.out].value && unspent[k].script == live[k.out].script)
  }

  /** Scripts that pay to an indexed address are never provably unspendable. */
  ghost predicate IndexesSpendable(key: Indexer) {
    forall o: TxOut :: key(o.script).Some? ==> !o.IsUnspendable()
  }

  lemma ForwardAgrees(ix: Index, key: Indexer, live: imap<OutPoint, TxOut>, e: Event)
    requires Agrees(ix.unspent, key, live) && Fits(live, key, e) && IndexesSpendable(key)
    ensures Agrees(Forward(ix, e).unspent, key, LiveStep(live, e))
  {
    var u', live' := Forward(ix, e).unspent, LiveStep(live, e);
    forall k: UnspentKey
      ensures k in u' <==> k.out in live' && key(live'[k.out].script) == Some(k.addr)
      ensures k in u' ==> u'[k].amount == live'[k.out].value && u'[k].script == live'[k.out].script
    {
      if k.out != e.out {
        assert k in u' <==> k in ix.unspent;
      }
    }
  }

  lemma BackwardAgrees(ix: Index, key: Indexer, live: imap<OutPoint, TxOut>, e: Event, h: nat)
    requires Agrees(ix.unspent, key, LiveStep(live, e)) && Fits(live, key, e) && IndexesSpendable(key)
    ensures Agrees(Backward(ix, e, h).unspent, key, live)
  {
    var u', live' := Backward(ix, e, h).unspent, LiveStep(live, e);
    forall k: UnspentKey
      ensures k in u' <==> k.out in live && key(live[k.out].script) == Some(k.addr)
      ensures k in u' ==> u'[k].amount == live[k.out].value && u'[k].script == live[k.out].script
    {
      if k.out != e.out {
        assert k in u' <==> k in ix.unspent;
        assert k.out in live' <==> k.out in live;
      }
    }
  }

  /** Nothing is stored yet where the event will write. */
  ghost predicate Fresh(ix: Index, e: Event) {
    && (e.addr.Some? ==> DeltaKeyOf(e) !in ix.deltas)
    && (e.spending ==> e.out !in ix.spent)
  }

  lemma BackwardUndoesForward(ix: Index, ix': Index, e: Event, h: nat)
    requires Fresh(ix, e) && ix'.deltas == Forward(ix, e).deltas && ix'.spent == Forward(ix, e).spent
    ensures Backward(ix', e, h).deltas == ix.deltas && Backward(ix', e, h).spent == ix.spent
  {
  }

  // ----- sums of deltas -----

  ghost function SumDeltas(d: map<DeltaKey, int>, a: Address): int {
    if d == map[] then 0
    else var k :| k in d; (if k.addr == a then d[k] else 0) + SumDeltas(d - {k}, a)
  }

  lemma {:induction false} SumDeltasTakesOut(d: map<DeltaKey, int>, a: Address, k: DeltaKey)
    requires k in d
    ensures SumDeltas(d, a) == (if k.addr == a then d[k] else 0) + SumDeltas(d - {k}, a)
    decreases |d|
  {
    var u :| u in d && SumDeltas(d, a) == (if u.addr == a then d[u] else 0) + SumDeltas(d - {u}, a);
    if u != k {
      SumDeltasTakesOut(d - {u}, a, k);
      SumDeltasTakesOut(d - {k}, a, u);
      assert d - {u} - {k} == d - {k} - {u};
    }
  }

  /** An event's contribution to the balance of `a`. */
  function Credit(e: Event, a: Address): int { if e.addr == Some(a) then Signed(e) else 0 }

  lemma SumAfterForward(ix: Index, e: Event, a: Address)
    requires Fresh(ix, e)
    ensures SumDeltas(Forward(ix, e).deltas, a) == SumDeltas(ix.deltas, a) + Credit(e, a)
  {
    if e.addr.Some? {
      var d' := Forward(ix, e).deltas;
      SumDeltasTakesOut(d', a, DeltaKeyOf(e));
      assert d' - {DeltaKeyOf(e)} == ix.deltas;
    }
  }

  function Credits(es: seq<Event>, a: Address, k: nat): int
    requires k <= |es|
  {
    if k == 0 then 0 else Credits(es, a, k - 1) + Credit(es[k - 1], a)
  }

  // ----- replaying a list of events -----

  ghost function LiveAfter(live: imap<OutPoint, TxOut>, es: seq<Event>, k: nat): imap<OutPoint, TxOut>
    requires k <= |es|
  {
    if k == 0 then live else LiveStep(LiveAfter(live, es, k - 1), es[k - 1])
  }

  ghost predicate FitsAll(live: imap<OutPoint, TxOut>, key: Indexer, es: seq<Event>, k: nat)
    requires k <= |es|
  {
    k == 0 || (FitsAll(live, key, es, k - 1) && Fits(LiveAfter(live, es, k - 1), key, es[k - 1]))
  }

  ghost predicate FreshAll(ix: Index, es: seq<Event>, k: nat)
    requires k <= |es|
  {
    k == 0 || (FreshAll(ix, es, k - 1) && Fresh(Replay(ix, es, k - 1), es[k - 1]))
  }

  lemma {:induction false} ReplayAgrees(ix: Index, key: Indexer, live: imap<OutPoint, TxOut>, es: seq<Event>, k: nat)
    requires k <= |es| && Agrees(ix.unspent, key, live) && FitsAll(live, key, es, k) && IndexesSpendable(key)
    ensures Agrees(Replay(ix, es, k).unspent, key, LiveAfter(live, es, k))
  {
    hide Forward, LiveStep, Agrees, Fits, IndexesSpendable;
    if k > 0 {
      ReplayAgrees(ix, key, live, es, k - 1);
      ForwardAgrees(Replay(ix, es, k - 1), key, LiveAfter(live, es, k - 1), es[k - 1]);
    }
  }

  lemma {:induction false} TakeBackAgrees(ix: Index, key: Indexer, live: imap<OutPoint, TxOut>,
                                         es: seq<Event>, heights: seq<nat>, k: nat)
    requires k <= |es| == |heights| && FitsAll(live, key, es, k) && IndexesSpendable(key)
    requires Agrees(ix.unspent, key, LiveAfter(live, es, k))
    ensures Agrees(TakeBack(ix, es, heights, k).unspent, key, live)
    decreases k
  {
    hide Backward, LiveStep, Agrees, Fits, IndexesSpendable;
    if k > 0 {
      BackwardAgrees(ix, key, LiveAfter(live, es, k - 1), es[k - 1], heights[k - 1]);
      TakeBackAgrees(Backward(ix, es[k - 1], heights[k - 1]), key, live, es, heights, k - 1);
    }
  }

  lemma {:induction false} TakeBackUndoesReplay(ix: Index, ix': Index, es: seq<Event>, heights: seq<nat>, k: nat)
    requires k <= |es| == |heights| && FreshAll(ix, es, k)
    requires ix'.deltas == Replay(ix, es, k).deltas && ix'.spent == Replay(ix, es, k).spent
    ensures TakeBack(ix', es, heights, k).deltas == ix.deltas && TakeBack(ix', es, heights, k).spent == ix.spent
    decreases k
  {
    hide Forward, Backward, Fresh;
    if k > 0 {
      BackwardUndoesForward(Replay(ix, es, k - 1), ix', es[k - 1], heights[k - 1]);
      TakeBackUndoesReplay(ix, Backward(ix', es[k - 1], heights[k - 1]), es, heights, k - 1);
    }
  }

  lemma {:induction false} SumAfterReplay(ix: Index, es: seq<Event>, a: Address, k: nat)
    requires k <= |es| && FreshAll(ix, es, k)
    ensures SumDeltas(Replay(ix, es, k).deltas, a) == SumDeltas(ix.deltas, a) + Credits(es, a, k)
  {
    hide Forward, Fresh, SumDeltas, Credit;
    if k > 0 {
      SumAfterReplay(ix, es, a, k - 1);
      SumAfterForward(Replay(ix, es, k - 1), es[k - 1], a);
    }
  }

  // ----- the events of a transaction -----

  function Inputs(tx: Tx): seq<OutPoint> { if tx.IsCoinBase() then [] else tx.vin }

  function EventAt(tx: Tx, prevouts: seq<TxOut>, i: nat, h: nat, key: Indexer, p: nat): Event
    requires |prevouts| == |Inputs(tx)| && p < |prevouts| + |tx.vout|
  {
    if p < |prevouts| then
      Event(true, key(prevouts[p].script), h, i, tx.id, p, tx.vin[p], prevouts[p])
    else
      var k := p - |prevouts|;
      Event(false, key(tx.vout[k].script), h, i, tx.id, k, OutPoint(tx.id, k), tx.vout[k])
  }

  /** Inputs first, then outputs, as ConnectBlock walks them. */
  function Events(tx: Tx, prevouts: seq<TxOut>, i: nat, h: nat, key: Indexer): seq<Event>
    requires |prevouts| == |Inputs(tx)|
  {
    seq(|prevouts| + |tx.vout|, p requires 0 <= p < |prevouts| + |tx.vout| => EventAt(tx, prevouts, i, h, key, p))
  }

  /** The outputs ConnectBlock finds behind the inputs, before any of them is spent. */
  function Prevouts(m: Utxo, tx: Tx): seq<TxOut> {
    seq(|Inputs(tx)|, j requires 0 <= j < |Inputs(tx)| => Prevout(m, tx.vin[j]))
  }

  lemma PrevoutCount(m: Utxo, tx: Tx)
    ensures |Prevouts(m, tx)| == |Inputs(tx)|
  {
  }

  lemma EventCount(tx: Tx, prevouts: seq<TxOut>, i: nat, h: nat, key: Indexer)
    requires |prevouts| == |Inputs(tx)|
    ensures |Events(tx, prevouts, i, h, key)| == |Inputs(tx)| + |tx.vout|
  {
  }

  /** The same outputs as DisconnectBlock finds them in the undo data. */
  function UndoneOutputs(tx: Tx, undos: seq<TxInUndo>): seq<TxOut>
    requires UndoFits(tx, undos)
  {
    seq(|Inputs(tx)|, j requires 0 <= j < |Inputs(tx)| => undos[j].txout)
  }

  function UndoHeights(tx: Tx, undos: seq<TxInUndo>): seq<nat>
    requires UndoFits(tx, undos)
  {
    seq(|Inputs(tx)| + |tx.vout|, p requires 0 <= p < |Inputs(tx)| + |tx.vout| =>
      if p < |Inputs(tx)| then undos[p].height else 0)
  }

  lemma UndoRemembersPrevouts(m: Utxo, tx: Tx)
    requires TxReady(m, tx)
    ensures UndoFits(tx, TxUndo(m, tx)) && UndoneOutputs(tx, TxUndo(m, tx)) == Prevouts(m, tx)
  {
    hide SpendInput, SpendFirst;
    forall j | 0 <= j < |Inputs(tx)|
      ensures TxUndo(m, tx)[j].txout == Prevout(m, tx.vin[j])
    {
      CanSpendPrefix(m, tx.vin, j + 1, |tx.vin|);
      PrevoutWhenSpent(m, tx.vin, j);
    }
  }

  /** The height put back into the unspent index is the right one exactly when the spend had
      emptied its record. */
  lemma RestoredHeightIff(m: Utxo, out: OutPoint)
    requires WellFormed(m) && HaveInput(m, out)
    ensures InputUndo(m, out).height == m[out.hash].height <==> out.hash !in SpendInput(m, out)
  {
    var c := m[out.hash];
    TrimmedPrunedIffEmpty(CleanedUp(c.(vout := c.vout[out.n := NULL_OUT])));
  }

  lemma {:induction false} CanSpendPrefix(m: Utxo, vin: seq<OutPoint>, i: nat, k: nat)
    requires i <= k <= |vin| && CanSpend(m, vin, k)
    ensures CanSpend(m, vin, i)
  {
    hide SpendFirst, HaveInput;
    if i < k {
      CanSpendPrefix(m, vin, i, k - 1);
    }
  }

  // ----- live outputs along a transaction -----

  lemma LiveOfHas(m: Utxo, out: OutPoint)
    ensures out in LiveOf(m) <==> HaveInput(m, out)
    ensures out in LiveOf(m) ==> LiveOf(m)[out] == Prevout(m, out)
  {
  }

  lemma SpendIsLiveStep(m: Utxo, e: Event)
    requires e.spending && HaveInput(m, e.out)
    ensures LiveOf(SpendInput(m, e.out)) == LiveStep(LiveOf(m), e)
  {
    hide SpendInput, HaveInput, Prevout, LiveOf;
    forall out: OutPoint
      ensures out in LiveOf(SpendInput(m, e.out)) <==> out in LiveStep(LiveOf(m), e)
      ensures out in LiveStep(LiveOf(m), e) ==> LiveOf(SpendInput(m, e.out))[out] == LiveOf(m)[out]
    {
      SpendKeepsOthers(m, e.out, out);
      SpendKeepsPrevouts(m, e.out, out);
      LiveOfHas(m, out);
      LiveOfHas(SpendInput(m, e.out), out);
    }
  }

  /** The live outputs of `m1` and the first `k` spendable outputs of `tx`. */
  ghost function LiveWith(m1: Utxo, tx: Tx, k: nat): imap<OutPoint, TxOut>
    requires k <= |tx.vout|
  {
    imap out | HaveInput(m1, out) || (out.hash == tx.id && out.n < k && !tx.vout[out.n].IsUnspendable()) ::
      if out.hash == tx.id && out.n < k && !tx.vout[out.n].IsUnspendable() then tx.vout[out.n]
      else m1[out.hash].vout[out.n]
  }

  lemma CreateIsLiveStep(m1: Utxo, tx: Tx, k: nat, e: Event)
    requires k < |tx.vout| && tx.id !in m1
    requires !e.spending && e.out == OutPoint(tx.id, k) && e.txout == tx.vout[k]
    ensures e.out !in LiveWith(m1, tx, k)
    ensures LiveWith(m1, tx, k + 1) == LiveStep(LiveWith(m1, tx, k), e)
  {
  }

  lemma LiveWithAll(m1: Utxo, tx: Tx, h: nat)
    requires tx.id !in m1 && OutputsOk(tx)
    ensures LiveWith(m1, tx, |tx.vout|) == LiveOf(SetCoins(m1, tx.id, CoinsOf(tx, h)))
    ensures LiveWith(m1, tx, 0) == LiveOf(m1)
  {
    hide Trim, NullUnspendable, TxOut.IsUnspendable;
    NewOutputs(tx, h);
    LiveSame(m1, tx, CoinsOf(tx, h));
  }

  lemma LiveSame(m1: Utxo, tx: Tx, c: Coins)
    requires tx.id !in m1
    requires forall n: nat :: c.IsAvailable(n) <==> n < |tx.vout| && !tx.vout[n].IsUnspendable()
    requires forall n: nat | c.IsAvailable(n) :: c.vout[n] == tx.vout[n]
    requires c.IsPruned() ==> forall n: nat :: !c.IsAvailable(n)
    ensures LiveWith(m1, tx, |tx.vout|) == LiveOf(SetCoins(m1, tx.id, c))
    ensures LiveWith(m1, tx, 0) == LiveOf(m1)
  {
    hide TxOut.IsUnspendable;
  }

  lemma NewOutputs(tx: Tx, h: nat)
    requires OutputsOk(tx)
    ensures var c := CoinsOf(tx, h);
            && (forall n: nat :: c.IsAvailable(n) <==> n < |tx.vout| && !tx.vout[n].IsUnspendable())
            && (forall n: nat | c.IsAvailable(n) :: c.vout[n] == tx.vout[n])
            && (c.IsPruned() ==> forall n: nat :: !c.IsAvailable(n))
  {
    var nulled := NullUnspendable(tx.vout);
    var c := CoinsOf(tx, h);
    forall n: nat
      ensures c.IsAvailable(n) <==> n < |tx.vout| && !tx.vout[n].IsUnspendable()
      ensures c.IsAvailable(n) ==> c.vout[n] == tx.vout[n]
    {
      assert n < |c.vout| ==> c.vout[n] == nulled[n];
      assert |c.vout| <= n < |tx.vout| ==> nulled[n].IsNull();
    }
    assert c.IsPruned() ==> forall n: nat :: !c.IsAvailable(n);
  }

  /** Along the events of a transaction the live outputs move from before to after it, and
      every event fits. */
  lemma {:induction false} InputEventsFit(m: Utxo, tx: Tx, i: nat, h: nat, key: Indexer, k: nat)
    requires TxReady(m, tx) && k <= |Inputs(tx)|
    ensures var es := Events(tx, Prevouts(m, tx), i, h, key);
            && FitsAll(LiveOf(m), key, es, k)
            && LiveAfter(LiveOf(m), es, k) == (if tx.IsCoinBase() then LiveOf(m) else LiveOf(SpendFirst(m, tx.vin, k)))
  {
    hide SpendInput, LiveOf, LiveStep, HaveInput, Prevout, OutputsOk;
    var es := Events(tx, Prevouts(m, tx), i, h, key);
    if k > 0 {
      InputEventsFit(m, tx, i, h, key, k - 1);
      var e := es[k - 1];
      CanSpendPrefix(m, tx.vin, k, |tx.vin|);
      PrevoutWhenSpent(m, tx.vin, k - 1);
      SpendIsLiveStep(SpendFirst(m, tx.vin, k - 1), e);
      LiveOfHas(SpendFirst(m, tx.vin, k - 1), e.out);
    }
  }

  lemma {:induction false} OutputEventsFit(m: Utxo, tx: Tx, i: nat, h: nat, key: Indexer, k: nat)
    requires TxReady(m, tx) && WellFormed(m) && k <= |tx.vout|
    ensures var es := Events(tx, Prevouts(m, tx), i, h, key);
            var m1 := if tx.IsCoinBase() then m else SpendFirst(m, tx.vin, |tx.vin|);
            && FitsAll(LiveOf(m), key, es, |Inputs(tx)| + k)
            && LiveAfter(LiveOf(m), es, |Inputs(tx)| + k) == LiveWith(m1, tx, k)
  {
    hide SpendFirst, CanSpend, LiveOf, LiveStep, LiveWith, HaveInput, Prevout, OutputsOk, CoinsOf;
    var es := Events(tx, Prevouts(m, tx), i, h, key);
    var m1 := if tx.IsCoinBase() then m else SpendFirst(m, tx.vin, |tx.vin|);
    if !tx.IsCoinBase() {
      SpendFirstKeepsWellFormed(m, tx.vin, |tx.vin|);
    }
    if k == 0 {
      InputEventsFit(m, tx, i, h, key, |Inputs(tx)|);
      LiveWithAll(m1, tx, h);
    } else {
      OutputEventsFit(m, tx, i, h, key, k - 1);
      CreateIsLiveStep(m1, tx, k - 1, es[|Inputs(tx)| + k - 1]);
    }
  }

  lemma TxEventsFit(m: Utxo, tx: Tx, i: nat, h: nat, key: Indexer)
    requires TxReady(m, tx) && WellFormed(m)
    ensures var es := Events(tx, Prevouts(m, tx), i, h, key);
            FitsAll(LiveOf(m), key, es, |es|) && LiveAfter(LiveOf(m), es, |es|) == LiveOf(ApplyTx(m, tx, h))
  {
    hide SpendFirst, CanSpend, LiveOf, LiveWith, LiveAfter, FitsAll, CoinsOf;
    OutputEventsFit(m, tx, i, h, key, |tx.vout|);
    if !tx.IsCoinBase() {
      SpendFirstKeepsWellFormed(m, tx.vin, |tx.vin|);
    }
    LiveWithAll(if tx.IsCoinBase() then m else SpendFirst(m, tx.vin, |tx.vin|), tx, h);
  }

  // ----- freshness: no two events write the same key -----

  /** Where in its transaction a delta key belongs. */
  function Position(k: DeltaKey, nIn: nat): nat { if k.spending then k.n else nIn + k.n }

  /** Every delta was written before event `p` of transaction `i` of block `h`. */
  ghost predicate DeltasBefore(d: map<DeltaKey, int>, h: nat, i: nat, nIn: nat, p: nat) {
    forall k | k in d :: k.height < h || (k.height == h && (k.txIndex < i || (k.txIndex == i && Position(k, nIn) < p)))
  }

  /** Spent outpoints are no longer live. */
  ghost predicate SpentIsGone(spent: map<OutPoint, SpentValue>, live: imap<OutPoint, TxOut>) {
    forall out | out in spent :: out !in live
  }

  /** No outpoint of transaction `t` has been spent yet. */
  ghost predicate Unspent(spent: map<OutPoint, SpentValue>, t: Hash) {
    forall out | out in spent :: out.hash != t
  }

  lemma EventIsFresh(ix: Index, tx: Tx, prevouts: seq<TxOut>, i: nat, h: nat, key: Indexer, p: nat,
                     live: imap<OutPoint, TxOut>)
    requires |prevouts| == |Inputs(tx)| && p < |prevouts| + |tx.vout|
    requires var e := EventAt(tx, prevouts, i, h, key, p); Fits(live, key, e)
    requires DeltasBefore(ix.deltas, h, i, |prevouts|, p)
    requires SpentIsGone(ix.spent, live) && Unspent(ix.spent, tx.id)
    ensures var e := EventAt(tx, prevouts, i, h, key, p);
            var ix' := Forward(ix, e);
            && Fresh(ix, e)
            && DeltasBefore(ix'.deltas, h, i, |prevouts|, p + 1)
            && SpentIsGone(ix'.spent, LiveStep(live, e))
  {
  }

  /** Through the events of one transaction. `ids` are the hashes that inputs may refer to. */
  lemma {:induction false} TxEventsFresh(ix: Index, m: Utxo, tx: Tx, i: nat, h: nat, key: Indexer, p: nat)
    requires TxReady(m, tx) && WellFormed(m)
    requires DeltasBefore(ix.deltas, h, i, |Inputs(tx)|, 0)
    requires SpentIsGone(ix.spent, LiveOf(m)) && Unspent(ix.spent, tx.id)
    requires p <= |Events(tx, Prevouts(m, tx), i, h, key)|
    ensures var es := Events(tx, Prevouts(m, tx), i, h, key);
            var ix' := Replay(ix, es, p);
            && FreshAll(ix, es, p)
            && DeltasBefore(ix'.deltas, h, i, |Inputs(tx)|, p)
            && SpentIsGone(ix'.spent, LiveAfter(LiveOf(m), es, p))
            && (forall out | out in ix'.spent :: out in ix.spent || out.hash in m)
  {
    hide Forward, Fresh, Fits, LiveOf, LiveStep, DeltasBefore, SpentIsGone, HaveInput, CanSpend, OutputsOk, WellFormed, Prevout;
    var es := Events(tx, Prevouts(m, tx), i, h, key);
    if p > 0 {
      TxEventsFresh(ix, m, tx, i, h, key, p - 1);
      TxEventsFit(m, tx, i, h, key);
      FitsPrefix(LiveOf(m), key, es, p, |es|);
      var ix1, e := Replay(ix, es, p - 1), es[p - 1];
      assert Unspent(ix1.spent, tx.id);
      EventIsFresh(ix1, tx, Prevouts(m, tx), i, h, key, p - 1, LiveAfter(LiveOf(m), es, p - 1));
      ForwardSpends(ix1, e);
      if e.spending {
        CanSpendPrefix(m, tx.vin, p, |tx.vin|);
        PrevoutWhenSpent(m, tx.vin, p - 1);
        HaveInputIsLive(m, e.out);
      }
    }
  }

  lemma HaveInputIsLive(m: Utxo, out: OutPoint)
    ensures HaveInput(m, out) ==> out.hash in m
  {
  }

  lemma ForwardSpends(ix: Index, e: Event)
    ensures forall out | out in Forward(ix, e).spent :: out in ix.spent || (e.spending && out == e.out)
  {
  }

  lemma {:induction false} FitsPrefix(live: imap<OutPoint, TxOut>, key: Indexer, es: seq<Event>, p: nat, k: nat)
    requires p <= k <= |es| && FitsAll(live, key, es, k)
    ensures FitsAll(live, key, es, p) && (p > 0 ==> Fits(LiveAfter(live, es, p - 1), key, es[p - 1]))
  {
    hide Fits, LiveStep;
    if p < k {
      FitsPrefix(live, key, es, p, k - 1);
    }
  }

  // ----- a block -----

  /** The index writes of ConnectBlock for the first `k` transactions. */
  function ConnectIndex(ix: Index, m: Utxo, txs: seq<Tx>, h: nat, key: Indexer, k: nat): Index
    requires k <= |txs|
  {
    if k == 0 then ix
    else
      var es := Events(txs[k - 1], Prevouts(ApplyFirst(m, txs, h, k - 1), txs[k - 1]), k - 1, h, key);
      Replay(ConnectIndex(ix, m, txs, h, key, k - 1), es, |es|)
  }

  /** The index writes of DisconnectBlock for the first `k` transactions, last one first. */
  function DisconnectIndex(ix: Index, txs: seq<Tx>, undos: seq<seq<TxInUndo>>, h: nat, key: Indexer, k: nat): Index
    requires k <= |txs| && UndosFit(txs, undos)
    decreases k
  {
    if k == 0 then ix
    else
      var es := Events(txs[k - 1], UndoneOutputs(txs[k - 1], undos[k - 1]), k - 1, h, key);
      DisconnectIndex(TakeBack(ix, es, UndoHeights(txs[k - 1], undos[k - 1]), |es|), txs, undos, h, key, k - 1)
  }

  /** The state of the indexes before a block at height `h`: the unspent index agrees with the
      coins, and nothing of this block or above has been written. */
  ghost predicate IndexReady(ix: Index, m: Utxo, txs: seq<Tx>, h: nat, key: Indexer) {
    && Agrees(ix.unspent, key, LiveOf(m))
    && (forall k | k in ix.deltas :: k.height < h)
    && SpentIsGone(ix.spent, LiveOf(m))
    && (forall i | 0 <= i < |txs| :: Unspent(ix.spent, txs[i].id))
  }

  ghost predicate IndexMidway(ix: Index, m: Utxo, txs: seq<Tx>, h: nat, key: Indexer, k: nat)
    requires k <= |txs|
  {
    && Agrees(ix.unspent, key, LiveOf(m))
    && (forall d | d in ix.deltas :: d.height < h || (d.height == h && d.txIndex < k))
    && SpentIsGone(ix.spent, LiveOf(m))
    && (forall i | k <= i < |txs| :: Unspent(ix.spent, txs[i].id))
  }

  lemma ConnectIndexStep(ix: Index, m: Utxo, txs: seq<Tx>, h: nat, key: Indexer, k: nat, m': Utxo)
    requires 0 < k <= |txs| && TxReady(m, txs[k - 1]) && WellFormed(m) && IndexesSpendable(key) && m' == ApplyTx(m, txs[k - 1], h)
    requires IndexMidway(ix, m, txs, h, key, k - 1)
    requires forall i | k <= i < |txs| :: txs[i].id !in m
    ensures var es := Events(txs[k - 1], Prevouts(m, txs[k - 1]), k - 1, h, key);
            FreshAll(ix, es, |es|) && IndexMidway(Replay(ix, es, |es|), m', txs, h, key, k)
  {
    hide Fresh, Fits, LiveOf, LiveStep, Agrees, HaveInput, Prevout, WellFormed, IndexesSpendable, Forward, TxReady, ApplyTx;
    var tx := txs[k - 1];
    var es := Events(tx, Prevouts(m, tx), k - 1, h, key);
    TxEventsFit(m, tx, k - 1, h, key);
    TxEventsFresh(ix, m, tx, k - 1, h, key, |es|);
    ReplayAgrees(ix, key, LiveOf(m), es, |es|);
    var ix' := Replay(ix, es, |es|);
    forall d | d in ix'.deltas
      ensures d.height < h || (d.height == h && d.txIndex < k)
    {
      assert DeltasBefore(ix'.deltas, h, k - 1, |Inputs(tx)|, |es|);
    }
  }
}
