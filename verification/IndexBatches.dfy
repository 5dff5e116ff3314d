/** How the index writes reach the database: ConnectBlock and DisconnectBlock collect them in
    three vectors, transaction by transaction, and hand each vector over as one batch
    (src/txdb.cpp:190-254). */
module IndexBatches {
  import opened Options
  import opened Coins
  import opened CoinsCache
  import opened BlockCoins
  import opened CoinSums
  import opened AddressIndex

  /** One entry of a batch; no value means the key is erased. */
  type Put<K, V> = (K, Option<V>)

  function PutOne<K, V>(m: map<K, V>, w: Put<K, V>): map<K, V> {
    if w.1.Some? then m[w.0 := w.1.value] else m - {w.0}
  }

  /** The first `k` entries of a batch, in order. */
  function PutFirst<K, V>(m: map<K, V>, ws: seq<Put<K, V>>, k: nat): map<K, V>
    requires k <= |ws|
  {
    if k == 0 then m else PutOne(PutFirst(m, ws, k - 1), ws[k - 1])
  }

  lemma {:induction false} PutFirstPrefix<K, V>(m: map<K, V>, ws: seq<Put<K, V>>, w: Put<K, V>, k: nat)
    requires k <= |ws|
    ensures PutFirst(m, ws + [w], k) == PutFirst(m, ws, k)
  {
    if k > 0 {
      PutFirstPrefix(m, ws, w, k - 1);
      assert (ws + [w])[k - 1] == ws[k - 1];
    }
  }

  lemma PutLast<K, V>(m: map<K, V>, ws: seq<Put<K, V>>, w: Put<K, V>)
    ensures PutFirst(m, ws + [w], |ws| + 1) == PutOne(PutFirst(m, ws, |ws|), w)
  {
    PutFirstPrefix(m, ws, w, |ws|);
    assert (ws + [w])[|ws|] == w;
  }

  datatype Batch = Batch(deltas: seq<Put<DeltaKey, int>>,
                         unspent: seq<Put<UnspentKey, UnspentValue>>,
                         spent: seq<Put<OutPoint, SpentValue>>)

  const NO_WRITES := Batch([], [], [])

  /** The indexes after all three batches. */
  function After(ix: Index, b: Batch): Index {
    Index(PutFirst(ix.deltas, b.deltas, |b.deltas|),
          PutFirst(ix.unspent, b.unspent, |b.unspent|),
          PutFirst(ix.spent, b.spent, |b.spent|))
  }

  function PushSpent(b: Batch, w: Put<OutPoint, SpentValue>): Batch { b.(spent := b.spent + [w]) }

  function PushAddress(b: Batch, d: Put<DeltaKey, int>, u: Put<UnspentKey, UnspentValue>): Batch {
    b.(deltas := b.deltas + [d], unspent := b.unspent + [u])
  }

  lemma AfterPush(ix: Index, b: Batch, d: Put<DeltaKey, int>, u: Put<UnspentKey, UnspentValue>, s: Put<OutPoint, SpentValue>)
    ensures After(ix, PushSpent(b, s)) == After(ix, b).(spent := PutOne(After(ix, b).spent, s))
    ensures After(ix, PushAddress(b, d, u))
              == After(ix, b).(deltas := PutOne(After(ix, b).deltas, d), unspent := PutOne(After(ix, b).unspent, u))
  {
    PutLast(ix.deltas, b.deltas, d);
    PutLast(ix.unspent, b.unspent, u);
    PutLast(ix.spent, b.spent, s);
  }

  // ----- one input or output -----

  method NoteSpending(b: Batch, tx: Tx, i: nat, h: nat, j: nat, prevout: TxOut, key: Indexer, ghost ix: Index)
    returns (b': Batch)
    requires j < |tx.vin|
    ensures After(ix, b')
              == Forward(After(ix, b), Event(true, key(prevout.script), h, i, tx.id, j, tx.vin[j], prevout))
  {
    hide After;
    var addr, out := key(prevout.script), tx.vin[j];
    b' := b;
    if addr.Some? {
      var d := (DeltaKey(addr.value, h, i, tx.id, j, true), Some(-prevout.value));
      var u := (UnspentKey(addr.value, out), None);
      AfterPush(ix, b', d, u, (out, None));
      b' := PushAddress(b', d, u);
    }
    var s := (out, Some(SpentValue(tx.id, j, h, prevout.value, addr)));
    AfterPush(ix, b', (DeltaKey(Address(0, 0), 0, 0, 0, 0, true), None), (UnspentKey(Address(0, 0), out), None), s);
    b' := PushSpent(b', s);
  }

  method NoteReceiving(b: Batch, tx: Tx, i: nat, h: nat, k: nat, key: Indexer, ghost ix: Index) returns (b': Batch)
    requires k < |tx.vout|
    ensures After(ix, b') == Forward(After(ix, b),
      Event(false, key(tx.vout[k].script), h, i, tx.id, k, OutPoint(tx.id, k), tx.vout[k]))
  {
    hide After;
    var o := tx.vout[k];
    var addr, out := key(o.script), OutPoint(tx.id, k);
    b' := b;
    if addr.Some? {
      var d := (DeltaKey(addr.value, h, i, tx.id, k, false), Some(o.value));
      var u := (UnspentKey(addr.value, out), Some(UnspentValue(o.value, o.script, h)));
      AfterPush(ix, b', d, u, (out, None));
      b' := PushAddress(b', d, u);
    }
  }

  method UnnoteSpending(b: Batch, tx: Tx, i: nat, h: nat, j: nat, undo: TxInUndo, key: Indexer, ghost ix: Index)
    returns (b': Batch)
    requires j < |tx.vin|
    ensures After(ix, b') == Backward(After(ix, b),
      Event(true, key(undo.txout.script), h, i, tx.id, j, tx.vin[j], undo.txout), undo.height)
  {
    hide After;
    var addr, out := key(undo.txout.script), tx.vin[j];
    b' := b;
    if addr.Some? {
      var d := (DeltaKey(addr.value, h, i, tx.id, j, true), None);
      var u := (UnspentKey(addr.value, out), Some(UnspentValue(undo.txout.value, undo.txout.script, undo.height)));
      AfterPush(ix, b', d, u, (out, None));
      b' := PushAddress(b', d, u);
    }
    AfterPush(ix, b', (DeltaKey(Address(0, 0), 0, 0, 0, 0, true), None), (UnspentKey(Address(0, 0), out), None), (out, None));
    b' := PushSpent(b', (out, None));
  }

  method UnnoteReceiving(b: Batch, tx: Tx, i: nat, h: nat, k: nat, key: Indexer, ghost ix: Index) returns (b': Batch)
    requires k < |tx.vout|
    ensures After(ix, b') == Backward(After(ix, b),
      Event(false, key(tx.vout[k].script), h, i, tx.id, k, OutPoint(tx.id, k), tx.vout[k]), 0)
  {
    hide After;
    var addr, out := key(tx.vout[k].script), OutPoint(tx.id, k);
    b' := b;
    if addr.Some? {
      var d := (DeltaKey(addr.value, h, i, tx.id, k, false), None);
      var u := (UnspentKey(addr.value, out), None);
      AfterPush(ix, b', d, u, (out, None));
      b' := PushAddress(b', d, u);
    }
  }

  // ----- one transaction -----

  lemma EventsAt(tx: Tx, prevouts: seq<TxOut>, i: nat, h: nat, key: Indexer, p: nat)
    requires |prevouts| == |Inputs(tx)| && p < |prevouts| + |tx.vout|
    ensures |Events(tx, prevouts, i, h, key)| == |prevouts| + |tx.vout|
    ensures Events(tx, prevouts, i, h, key)[p] == EventAt(tx, prevouts, i, h, key, p)
  {
  }

  /** view.AccessCoins, and the output behind one input. */
  method ReadPrevout(view: CoinsViewCache, out: OutPoint) returns (o: TxOut)
    requires view.Valid() && !view.hasModifier && HaveInput(view.View(), out)
    modifies view.Repr
    ensures view.Valid() && !view.hasModifier
    ensures view.BaseViews() == old(view.BaseViews()) && view.View() == old(view.View())
    ensures o == Prevout(view.View(), out)
  {
    var found, c := view.GetCoins(out.hash);
    o := c.vout[out.n];
  }

  /** The spending side (src/main.cpp:2508-2551), read off the view before UpdateCoins. */
  method NoteInputs(view: CoinsViewCache, b: Batch, tx: Tx, i: nat, h: nat, key: Indexer, ghost ix: Index)
    returns (b': Batch)
    requires view.Valid() && !view.hasModifier && !tx.IsCoinBase() && HaveInputs(view.View(), tx.vin)
    modifies view.Repr
    ensures view.Valid() && !view.hasModifier
    ensures view.BaseViews() == old(view.BaseViews()) && view.View() == old(view.View())
    ensures var es := Events(tx, Prevouts(view.View(), tx), i, h, key);
            |tx.vin| <= |es| && After(ix, b') == Replay(After(ix, b), es, |tx.vin|)
  {
    hide After, Forward, Events, Prevout, Overlay, CacheOk, CoinsViewCache.Linked, CoinsViewCache.View, CoinsViewCache.BaseViews;
    b' := b;
    ghost var m := view.View();
    ghost var es := Events(tx, Prevouts(m, tx), i, h, key);
    assert |es| >= |tx.vin| by { EventCount(tx, Prevouts(m, tx), i, h, key); }
    for j := 0 to |tx.vin|
      invariant view.Valid() && !view.hasModifier
      invariant view.BaseViews() == old(view.BaseViews()) && view.View() == m
      invariant |tx.vin| <= |es| && After(ix, b') == Replay(After(ix, b), es, j)
    {
      var prevout := ReadPrevout(view, tx.vin[j]);
      EventsAt(tx, Prevouts(m, tx), i, h, key, j);
      b' := NoteSpending(b', tx, i, h, j, prevout, key, ix);
    }
  }

  /** The receiving side (src/main.cpp:2573-2593). */
  method NoteOutputs(b: Batch, tx: Tx, ghost prevouts: seq<TxOut>, i: nat, h: nat, key: Indexer, ghost ix: Index, ghost ix1: Index)
    returns (b': Batch)
    requires |prevouts| == |Inputs(tx)|
    requires |Events(tx, prevouts, i, h, key)| >= |prevouts|
    requires After(ix, b) == Replay(ix1, Events(tx, prevouts, i, h, key), |prevouts|)
    ensures var es := Events(tx, prevouts, i, h, key);
            After(ix, b') == Replay(ix1, es, |es|)
  {
    hide After, Forward, Events;
    b' := b;
    ghost var es := Events(tx, prevouts, i, h, key);
    EventCount(tx, prevouts, i, h, key);
    for k := 0 to |tx.vout|
      invariant |es| == |prevouts| + |tx.vout|
      invariant After(ix, b') == Replay(ix1, es, |prevouts| + k)
    {
      EventsAt(tx, prevouts, i, h, key, |prevouts| + k);
      b' := NoteReceiving(b', tx, i, h, k, key, ix);
    }
  }

  lemma UndoHeightsAt(tx: Tx, undos: seq<TxInUndo>, p: nat)
    requires UndoFits(tx, undos) && p < |Inputs(tx)| + |tx.vout|
    ensures |UndoHeights(tx, undos)| == |Inputs(tx)| + |tx.vout|
    ensures UndoHeights(tx, undos)[p] == if p < |Inputs(tx)| then undos[p].height else 0
  {
  }

  /** Everything DisconnectBlock collects for one transaction: outputs last one first, then
      inputs last one first. */
  method UnnoteTx(b: Batch, tx: Tx, undos: seq<TxInUndo>, i: nat, h: nat, key: Indexer, ghost ix: Index)
    returns (b': Batch)
    requires UndoFits(tx, undos)
    ensures var es := Events(tx, UndoneOutputs(tx, undos), i, h, key);
            var hs := UndoHeights(tx, undos);
            |hs| == |es| && After(ix, b') == TakeBack(After(ix, b), es, hs, |es|)
  {
    hide After, Backward, Events, UndoHeights;
    b' := b;
    ghost var outs := UndoneOutputs(tx, undos);
    ghost var es, hs := Events(tx, outs, i, h, key), UndoHeights(tx, undos);
    EventCount(tx, outs, i, h, key);
    assert |hs| == |es| by { UndoHeightCount(tx, undos); }
    ghost var nIn := |Inputs(tx)|;
    var k := |tx.vout|;
    while k > 0
      invariant 0 <= k <= |tx.vout| && |hs| == |es| == nIn + |tx.vout|
      invariant TakeBack(After(ix, b'), es, hs, nIn + k) == TakeBack(After(ix, b), es, hs, |es|)
    {
      k := k - 1;
      EventsAt(tx, outs, i, h, key, nIn + k);
      UndoHeightsAt(tx, undos, nIn + k);
      b' := UnnoteReceiving(b', tx, i, h, k, key, ix);
    }
    if !tx.IsCoinBase() {
      var j := |tx.vin|;
      while j > 0
        invariant 0 <= j <= |tx.vin| == nIn && |hs| == |es| == nIn + |tx.vout|
        invariant TakeBack(After(ix, b'), es, hs, j) == TakeBack(After(ix, b), es, hs, |es|)
      {
        j := j - 1;
        EventsAt(tx, outs, i, h, key, j);
        UndoHeightsAt(tx, undos, j);
        b' := UnnoteSpending(b', tx, i, h, j, undos[j], key, ix);
      }
    }
  }

  lemma UndoHeightCount(tx: Tx, undos: seq<TxInUndo>)
    requires UndoFits(tx, undos)
    ensures |UndoHeights(tx, undos)| == |Inputs(tx)| + |tx.vout|
  {
  }

  // ----- the database -----

  method WriteBatch<K, V>(m: map<K, V>, ws: seq<Put<K, V>>) returns (m': map<K, V>)
    ensures m' == PutFirst(m, ws, |ws|)
  {
    m' := m;
    for k := 0 to |ws|
      invariant m' == PutFirst(m, ws, k)
    {
      if ws[k].1.Some? {
        m' := m'[ws[k].0 := ws[k].1.value];
      } else {
        m' := m' - {ws[k].0};
      }
    }
  }

  /** CBlockTreeDB, as far as the three indexes go. */
  class BlockTreeDB {
    var deltas: map<DeltaKey, int>
    var unspent: map<UnspentKey, UnspentValue>
    var spent: map<OutPoint, SpentValue>

    ghost function Contents(): Index reads this { Index(deltas, unspent, spent) }

    constructor ()
      ensures Contents() == EMPTY_INDEX
    {
      deltas, unspent, spent := map[], map[], map[];
    }

    /** WriteAddressIndex or EraseAddressIndex, UpdateAddressUnspentIndex, UpdateSpentIndex. */
    method Write(b: Batch)
      modifies this
      ensures Contents() == After(old(Contents()), b)
    {
      deltas := WriteBatch(deltas, b.deltas);
      unspent := WriteBatch(unspent, b.unspent);
      spent := WriteBatch(spent, b.spent);
    }
  }
}
