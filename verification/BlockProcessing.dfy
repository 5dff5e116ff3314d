/** The same block steps, run as the node runs them: on a coin cache of any depth, one record at
    a time through its modifier (src/main.cpp:2082-2096, 2241-2383, 2469-2476, 2508-2603). */
module BlockProcessing {
  import opened Coins
  import opened CoinsCache
  import opened BlockCoins
  import opened Undo
  import opened Rollback
  import opened CoinSums
  import opened AddressIndex
  import opened IndexBlocks
  import opened IndexBatches
  import opened Ledger

  method SpendRecord(c: Coins, n: nat) returns (ok: bool, c': Coins, undo: TxInUndo)
    ensures ok <==> c.IsAvailable(n)
    ensures ok ==> Spent(c', undo) == SpendOne(c, n)
    ensures !ok ==> c' == c
  {
    var rec := new CoinsRecord(c);
    ok, undo := rec.Spend(n);
    c' := Coins(rec.coinBase, rec.coinStake, rec.vout, rec.height, rec.version);
  }

  /** inputs.ModifyCoins(hash)->Spend(prevout, undo), with its assertion discharged. */
  method SpendOutput(view: CoinsViewCache, out: OutPoint) returns (undo: TxInUndo)
    requires view.Valid() && !view.hasModifier && HaveInput(view.View(), out)
    modifies view.Repr
    ensures view.Valid() && !view.hasModifier && view.BaseViews() == old(view.BaseViews())
    ensures view.View() == SpendInput(old(view.View()), out) && undo == InputUndo(old(view.View()), out)
  {
    hide Overlay, CacheOk, CoinsViewCache.Linked, CoinsViewCache.View, CoinsViewCache.BaseViews, SetCoins, Trim;
    var c := view.ModifyCoins(out.hash);
    var ok, c', u := SpendRecord(c, out.n);
    assert ok;  // the assertion of src/main.cpp:2090
    undo := u;
    TrimUnique(c'.vout, c'.vout);
    view.Release(out.hash, c');
  }

  method AddOutputs(view: CoinsViewCache, tx: Tx, h: nat)
    requires view.Valid() && !view.hasModifier
    modifies view.Repr
    ensures view.Valid() && !view.hasModifier && view.BaseViews() == old(view.BaseViews())
    ensures view.View() == SetCoins(old(view.View()), tx.id, CoinsOf(tx, h))
  {
    var _ := view.ModifyCoins(tx.id);
    TrimUnique(CoinsOf(tx, h).vout, CoinsOf(tx, h).vout);
    view.Release(tx.id, CoinsOf(tx, h));
  }

  lemma TxUndoAt(m: Utxo, tx: Tx, i: nat)
    requires !tx.IsCoinBase() && i < |tx.vin|
    ensures |TxUndo(m, tx)| == |tx.vin| && TxUndo(m, tx)[i] == InputUndo(SpendFirst(m, tx.vin, i), tx.vin[i])
  {
    hide SpendInput, InputUndo;
  }

  method SpendAll(view: CoinsViewCache, tx: Tx) returns (undos: seq<TxInUndo>)
    requires view.Valid() && !view.hasModifier && !tx.IsCoinBase()
    requires CanSpend(view.View(), tx.vin, |tx.vin|)
    modifies view.Repr
    ensures view.Valid() && !view.hasModifier && view.BaseViews() == old(view.BaseViews())
    ensures view.View() == SpendFirst(old(view.View()), tx.vin, |tx.vin|) && undos == TxUndo(old(view.View()), tx)
  {
    hide SpendInput, InputUndo, HaveInput, TxUndo;
    ghost var m := view.View();
    undos := [];
    for i := 0 to |tx.vin|
      invariant view.Valid() && !view.hasModifier && view.BaseViews() == old(view.BaseViews())
      invariant view.View() == SpendFirst(m, tx.vin, i)
      invariant |undos| == i && (i > 0 ==> i <= |TxUndo(m, tx)| && undos == TxUndo(m, tx)[..i])
    {
      CanSpendEach(m, tx.vin, i, |tx.vin|);
      TxUndoAt(m, tx, i);
      var undo := SpendOutput(view, tx.vin[i]);
      undos := undos + [undo];
    }
    assert |tx.vin| == 0 || undos == TxUndo(m, tx) by {
      if |tx.vin| > 0 {
        TxUndoAt(m, tx, 0);
      }
    }
    NoInputsNoUndo(m, tx);
  }

  lemma NoInputsNoUndo(m: Utxo, tx: Tx)
    ensures tx.IsCoinBase() || |tx.vin| == 0 ==> TxUndo(m, tx) == []
  {
  }

  /** UpdateCoins */
  method UpdateCoins(view: CoinsViewCache, tx: Tx, h: nat) returns (undos: seq<TxInUndo>)
    requires view.Valid() && !view.hasModifier
    requires tx.IsCoinBase() || (HaveInputs(view.View(), tx.vin) && DistinctInputs(tx.vin))
    modifies view.Repr
    ensures view.Valid() && !view.hasModifier && view.BaseViews() == old(view.BaseViews())
    ensures view.View() == ApplyTx(old(view.View()), tx, h) && undos == TxUndo(old(view.View()), tx)
  {
    hide SpendFirst, CanSpend, TxUndo, CoinsOf, SetCoins;
    CanSpendIff(view.View(), tx.vin);
    NoInputsNoUndo(view.View(), tx);
    undos := [];
    if !tx.IsCoinBase() {
      undos := SpendAll(view, tx);
    }
    AddOutputs(view, tx, h);
  }

  lemma {:induction false} CanSpendEach(m: Utxo, vin: seq<OutPoint>, i: nat, k: nat)
    requires i < k <= |vin| && CanSpend(m, vin, k)
    ensures HaveInput(SpendFirst(m, vin, i), vin[i])
  {
    hide SpendInput, HaveInput;
    if i < k - 1 {
      CanSpendEach(m, vin, i, k - 1);
    }
  }

  /** CCoinsViewCache::HaveInputs, together with the maturity test of CheckInputs. */
  method CheckTxInputs(view: CoinsViewCache, tx: Tx, h: nat, maturity: nat) returns (ok: bool)
    requires view.Valid() && !view.hasModifier
    modifies view.Repr
    ensures view.Valid() && !view.hasModifier
    ensures view.BaseViews() == old(view.BaseViews()) && view.View() == old(view.View())
    ensures ok <==> HaveInputs(view.View(), tx.vin) && Matured(view.View(), tx.vin, h, maturity)
  {
    hide Overlay, CacheOk, CoinsViewCache.Linked, CoinsViewCache.View, CoinsViewCache.BaseViews;
    for i := 0 to |tx.vin|
      invariant view.Valid() && !view.hasModifier
      invariant view.BaseViews() == old(view.BaseViews()) && view.View() == old(view.View())
      invariant forall j | 0 <= j < i :: HaveInput(view.View(), tx.vin[j])
      invariant forall j | 0 <= j < i :: var c := At(view.View(), tx.vin[j].hash);
        (c.coinBase || c.coinStake) ==> h - c.height >= maturity
    {
      var out := tx.vin[i];
      var found, c := view.GetCoins(out.hash);
      if !found || !c.IsAvailable(out.n) {
        assert !HaveInput(view.View(), tx.vin[i]);
        return false;
      }
      assert c == At(view.View(), out.hash);
      if (c.coinBase || c.coinStake) && h - c.height < maturity {
        assert !Matured(view.View(), tx.vin, h, maturity);
        return false;
      }
    }
    return true;
  }

  /** BIP 30: no transaction of the block may overwrite a live one. */
  method CheckNoOverwrite(view: CoinsViewCache, txs: seq<Tx>) returns (ok: bool)
    requires view.Valid() && !view.hasModifier
    modifies view.Repr
    ensures view.Valid() && !view.hasModifier
    ensures view.BaseViews() == old(view.BaseViews()) && view.View() == old(view.View())
    ensures ok <==> forall i | 0 <= i < |txs| :: txs[i].id !in view.View()
  {
    for i := 0 to |txs|
      invariant view.Valid() && !view.hasModifier
      invariant view.BaseViews() == old(view.BaseViews()) && view.View() == old(view.View())
      invariant forall j | 0 <= j < i :: txs[j].id !in view.View()
    {
      var found, c := view.GetCoins(txs[i].id);
      if found && !c.IsPruned() {
        return false;
      }
    }
    return true;
  }

  /** What CheckBlock has established before ConnectBlock looks at the coins. */
  predicate CheckedBlock(txs: seq<Tx>) {
    && |txs| > 0 && txs[0].IsCoinBase()
    && (forall i | 1 <= i < |txs| :: !txs[i].IsCoinBase())
    && DistinctIds(txs) && StakeRules(txs)
    && forall i | 0 <= i < |txs| :: WellShaped(txs[i]) && OutputsOk(txs[i]) && DistinctInputs(txs[i].vin)
  }

  /** GetValueOut */
  method SumOutputs(tx: Tx) returns (v: int)
    ensures v == ValueOut(tx, |tx.vout|)
  {
    v := 0;
    for k := 0 to |tx.vout|
      invariant v == ValueOut(tx, k)
    {
      v := v + tx.vout[k].value;
    }
  }

  /** CCoinsViewCache::GetValueIn */
  method SumInputs(view: CoinsViewCache, tx: Tx) returns (v: int)
    requires view.Valid() && !view.hasModifier && !tx.IsCoinBase() && HaveInputs(view.View(), tx.vin)
    modifies view.Repr
    ensures view.Valid() && !view.hasModifier
    ensures view.BaseViews() == old(view.BaseViews()) && view.View() == old(view.View())
    ensures v == ValueIn(view.View(), tx)
  {
    hide Prevout, HaveInput;
    v := 0;
    for j := 0 to |tx.vin|
      invariant view.Valid() && !view.hasModifier
      invariant view.BaseViews() == old(view.BaseViews()) && view.View() == old(view.View())
      invariant v == InSum(view.View(), Inputs(tx), AMOUNT(), j)
    {
      var prevout := ReadPrevout(view, tx.vin[j]);
      v := v + prevout.value;
    }
  }

  /** What the transaction loop of ConnectBlock has gathered so far. */
  datatype Gathered = Gathered(vtxundo: seq<seq<TxInUndo>>, batch: Batch, minted: int)

  /** Undo records of all but the coinbase. */
  ghost predicate UndoOfFirst(vtxundo: seq<seq<TxInUndo>>, undos: seq<seq<TxInUndo>>, k: nat) {
    if k == 0 then vtxundo == [] else k <= |undos| && [[]] + vtxundo == undos[..k]
  }

  /** The gathered data describe the first `k` transactions. */
  ghost predicate GatheredFirst(g: Gathered, m: Utxo, txs: seq<Tx>, h: nat, key: Indexer, ix: Index, k: nat)
    requires k <= |txs|
  {
    && UndoOfFirst(g.vtxundo, BlockUndo(m, txs, h), k)
    && After(ix, g.batch) == ConnectIndex(ix, m, txs, h, key, k)
    && g.minted == Minted(m, txs, h, k)
  }

  /** The index and supply bookkeeping of one transaction that passed its checks. */
  method GatherTx(view: CoinsViewCache, g: Gathered, tx: Tx, i: nat, h: nat, key: Indexer, ghost ix: Index)
    returns (g': Gathered)
    requires view.Valid() && !view.hasModifier
    requires tx.IsCoinBase() || HaveInputs(view.View(), tx.vin)
    modifies view.Repr
    ensures view.Valid() && !view.hasModifier
    ensures view.BaseViews() == old(view.BaseViews()) && view.View() == old(view.View())
    ensures g'.vtxundo == g.vtxundo
    ensures g'.minted == g.minted + ValueOut(tx, |tx.vout|) - ValueIn(view.View(), tx)
    ensures var es := Events(tx, Prevouts(view.View(), tx), i, h, key);
            After(ix, g'.batch) == Replay(After(ix, g.batch), es, |es|)
  {
    hide After, Events, ValueOut, HaveInput, Prevouts;
    var batch, valueIn := g.batch, 0;
    ghost var m := view.View();
    ghost var ix1 := After(ix, batch);
    assert |Prevouts(m, tx)| == |Inputs(tx)| by { PrevoutCount(m, tx); }
    EventCount(tx, Prevouts(m, tx), i, h, key);
    if !tx.IsCoinBase() {
      batch := NoteInputs(view, batch, tx, i, h, key, ix);
      valueIn := SumInputs(view, tx);
    }
    var valueOut := SumOutputs(tx);
    batch := NoteOutputs(batch, tx, Prevouts(m, tx), i, h, key, ix, ix1);
    g' := Gathered(g.vtxundo, batch, g.minted + valueOut - valueIn);
  }

  /** One round of the transaction loop: the input checks, the index and supply bookkeeping,
      then UpdateCoins. */
  method ConnectTx(view: CoinsViewCache, g: Gathered, tx: Tx, i: nat, h: nat, p: Params, ghost ix: Index)
    returns (ok: bool, g': Gathered)
    requires view.Valid() && !view.hasModifier && OutputsOk(tx) && DistinctInputs(tx.vin)
    modifies view.Repr
    ensures view.Valid() && !view.hasModifier && view.BaseViews() == old(view.BaseViews())
    ensures ok <==> TxOk(old(view.View()), tx, h, p.maturity)
    ensures ok ==> view.View() == ApplyTx(old(view.View()), tx, h)
    ensures ok ==> var m := old(view.View());
                   && g'.vtxundo == (if i == 0 then g.vtxundo else g.vtxundo + [TxUndo(m, tx)])
                   && g'.minted == g.minted + ValueOut(tx, |tx.vout|) - ValueIn(m, tx)
                   && var es := Events(tx, Prevouts(m, tx), i, h, p.key);
                      After(ix, g'.batch) == Replay(After(ix, g.batch), es, |es|)
  {
    hide ApplyTx, TxUndo, HaveInputs, Matured, OutputsOk, DistinctInputs, After, Events, Prevouts, ValueIn, ValueOut, Replay;
    ok, g' := true, g;
    if !tx.IsCoinBase() {
      ok := CheckTxInputs(view, tx, h, p.maturity);
    }
    if ok {
      g' := GatherTx(view, g, tx, i, h, p.key, ix);
      var undos := UpdateCoins(view, tx, h);
      if i > 0 {
        g' := g'.(vtxundo := g'.vtxundo + [undos]);
      }
    }
  }

  lemma UndoOfOneMore(vtxundo: seq<seq<TxInUndo>>, m: Utxo, txs: seq<Tx>, h: nat, k: nat)
    requires k < |txs| && txs[0].IsCoinBase() && UndoOfFirst(vtxundo, BlockUndo(m, txs, h), k)
    ensures UndoOfFirst(if k == 0 then vtxundo else vtxundo + [TxUndo(ApplyFirst(m, txs, h, k), txs[k])],
                        BlockUndo(m, txs, h), k + 1)
  {
    hide BlockUndo, TxUndo, ApplyFirst;
    BlockUndoAt(m, txs, h, k);
    if k == 0 {
      NoInputsNoUndo(ApplyFirst(m, txs, h, 0), txs[0]);
    }
  }

  lemma GatheredOneMore(g: Gathered, g': Gathered, m: Utxo, txs: seq<Tx>, h: nat, key: Indexer, ix: Index, k: nat)
    requires k < |txs| && txs[0].IsCoinBase() && GatheredFirst(g, m, txs, h, key, ix, k)
    requires var m1, tx := ApplyFirst(m, txs, h, k), txs[k];
             && g'.vtxundo == (if k == 0 then g.vtxundo else g.vtxundo + [TxUndo(m1, tx)])
             && g'.minted == g.minted + ValueOut(tx, |tx.vout|) - ValueIn(m1, tx)
             && var es := Events(tx, Prevouts(m1, tx), k, h, key);
                After(ix, g'.batch) == Replay(After(ix, g.batch), es, |es|)
    ensures GatheredFirst(g', m, txs, h, key, ix, k + 1)
  {
    hide ApplyFirst, TxUndo, BlockUndo, After, Events, Replay, Prevouts, ValueOut, ValueIn, ConnectIndex, UndoOfFirst;
    UndoOfOneMore(g.vtxundo, m, txs, h, k);
    ConnectIndexUnfold(ix, m, txs, h, key, k + 1);
  }

  lemma NothingGathered(m: Utxo, txs: seq<Tx>, h: nat, key: Indexer, ix: Index)
    ensures GatheredFirst(Gathered([], NO_WRITES, 0), m, txs, h, key, ix, 0)
  {
  }

  /** ConnectBlock: it succeeds exactly on the blocks that are of the kind their height asks for, pass
      every check of the coins, and keep the money supply within its limit. It then leaves the coins, the undo data, the
      indexes and the supply of the whole block. On failure the indexes are untouched, the
      layer is in a state its caller throws away, and so is nothing below it. */
  method ConnectBlock(view: CoinsViewCache, db: BlockTreeDB, txs: seq<Tx>, h: nat, prevSupply: int, p: Params)
    returns (ok: bool, vtxundo: seq<seq<TxInUndo>>, supply: int)
    requires view.Valid() && !view.hasModifier && db !in view.Repr && CheckedBlock(txs) && h >= 1
    modifies view.Repr, db
    ensures view.Valid() && !view.hasModifier && view.BaseViews() == old(view.BaseViews())
    ensures ok <==> BlockOk(old(view.View()), txs, h, p.maturity) && PeriodOk(txs, h, p.lastPow)
                    && prevSupply + Minted(old(view.View()), txs, h, |txs|) <= p.maxMoney
    ensures ok ==> view.View() == ApplyBlock(old(view.View()), txs, h)
    ensures ok ==> [[]] + vtxundo == BlockUndo(old(view.View()), txs, h)
    ensures ok ==> supply == prevSupply + Minted(old(view.View()), txs, h, |txs|)
    ensures db.Contents() == if ok then ConnectIndex(old(db.Contents()), old(view.View()), txs, h, p.key, |txs|)
                             else old(db.Contents())
  {
    hide ApplyTx, TxUndo, TxOk, OutputsOk, BlockUndo, DistinctInputs, ConnectIndex, Minted, After, Replay, Events, Prevouts,
         GatheredFirst, ValueIn, ValueOut, HaveInputs;
    ghost var m, ix := view.View(), db.Contents();
    vtxundo, supply := [], 0;
    if h <= p.lastPow && IsProofOfStake(txs) {
      return false, vtxundo, supply;  // the proof-of-stake period has not begun
    }
    if h > p.lastPow && !IsProofOfStake(txs) {
      return false, vtxundo, supply;  // the proof-of-work period is over
    }
    ok := CheckNoOverwrite(view, txs);
    if !ok {
      return;
    }
    var g := Gathered([], NO_WRITES, 0);
    NothingGathered(m, txs, h, p.key, ix);
    for i := 0 to |txs|
      invariant view.Valid() && !view.hasModifier && view.BaseViews() == old(view.BaseViews())
      invariant ok && view.View() == ApplyFirst(m, txs, h, i) && TxsOk(m, txs, h, p.maturity, i)
      invariant GatheredFirst(g, m, txs, h, p.key, ix, i)
      invariant db.Contents() == ix
    {
      ghost var g0 := g;
      ok, g := ConnectTx(view, g, txs[i], i, h, p, ix);
      if !ok {
        FailedTx(m, txs, h, p.maturity, i, |txs|);
        return;
      }
      GatheredOneMore(g0, g, m, txs, h, p.key, ix, i);
    }
    GatheredAll(g, m, txs, h, p.key, ix);
    supply := prevSupply + g.minted;
    ok := supply <= p.maxMoney;
    if ok {
      vtxundo := g.vtxundo;
      db.Write(g.batch);
    }
  }

  lemma GatheredAll(g: Gathered, m: Utxo, txs: seq<Tx>, h: nat, key: Indexer, ix: Index)
    requires |txs| > 0 && GatheredFirst(g, m, txs, h, key, ix, |txs|)
    ensures [[]] + g.vtxundo == BlockUndo(m, txs, h)
    ensures After(ix, g.batch) == ConnectIndex(ix, m, txs, h, key, |txs|) && g.minted == Minted(m, txs, h, |txs|)
  {
    hide TxUndo, ConnectIndex, Minted, After;
    BlockUndoAt(m, txs, h, 0);
  }

  lemma {:induction false} FailedTx(m: Utxo, txs: seq<Tx>, h: nat, maturity: nat, i: nat, k: nat)
    requires i < k <= |txs| && !TxOk(ApplyFirst(m, txs, h, i), txs[i], h, maturity)
    ensures !TxsOk(m, txs, h, maturity, k)
  {
    hide ApplyTx, TxOk;
    if i < k - 1 {
      FailedTx(m, txs, h, maturity, i, k - 1);
    }
  }

  // ----- disconnecting -----

  /** Compare a record with what the block says it should be (src/main.cpp:2293-2304). */
  method CompareOutputs(c: Coins, tx: Tx, h: nat) returns (ok: bool)
    ensures var b, found := CoinsOf(tx, h), WithoutUnspendable(c);
            ok == (if b.version < 0 then found.(version := b.version) else found).SameAs(b)
  {
    var outs := new CoinsRecord(c);
    outs.ClearUnspendable();
    var outsBlock := new CoinsRecord(EMPTY_COINS);
    outsBlock.FromTx(tx, h);
    if outsBlock.version < 0 {
      outs.version := outsBlock.version;
    }
    ok := Coins(outs.coinBase, outs.coinStake, outs.vout, outs.height, outs.version).SameAs(
      Coins(outsBlock.coinBase, outsBlock.coinStake, outsBlock.vout, outsBlock.height, outsBlock.version));
  }

  /** A missing record and a pruned one, whatever its metadata, compare alike. */
  lemma NothingToCompare(c: Coins, m: Utxo, tx: Tx, h: nat)
    requires if tx.id in m then c == m[tx.id] else c.vout == []
    ensures var b := CoinsOf(tx, h);
            var found := WithoutUnspendable(c);
            RemoveTx(m, tx, h).1 == (if b.version < 0 then found.(version := b.version) else found).SameAs(b)
  {
    assert NullUnspendable([]) == [];
  }

  method TakeOutputs(view: CoinsViewCache, tx: Tx, h: nat) returns (ok: bool)
    requires view.Valid() && !view.hasModifier
    modifies view.Repr
    ensures view.Valid() && !view.hasModifier && view.BaseViews() == old(view.BaseViews())
    ensures (view.View(), ok) == RemoveTx(old(view.View()), tx, h)
  {
    hide WithoutUnspendable, CoinsOf;
    var c := view.ModifyCoins(tx.id);
    ok := CompareOutputs(c, tx, h);
    NothingToCompare(c, old(view.View()), tx, h);
    view.Release(tx.id, EMPTY_COINS);
  }

  /** CBlockUndo::ReadFromDisk: what comes back of the undo data that ConnectBlock wrote. */
  method ReadUndo(vtxundo: seq<seq<TxInUndo>>) returns (read: seq<seq<TxInUndo>>)
    ensures read == ReadBack(vtxundo) && [[]] + read == ReadBack([[]] + vtxundo)
  {
    hide StoredUndo;
    read := [];
    for i := 0 to |vtxundo|
      invariant read == ReadBack(vtxundo)[..i]
    {
      var vprevout := [];
      for j := 0 to |vtxundo[i]|
        invariant vprevout == ReadTx(vtxundo[i])[..j]
      {
        vprevout := vprevout + [StoredUndo(vtxundo[i][j])];
      }
      assert vprevout == ReadTx(vtxundo[i]);
      read := read + [vprevout];
    }
    assert ReadTx([]) == [];
  }

  lemma ReadKeepsShape(undos: seq<seq<TxInUndo>>)
    ensures |ReadBack(undos)| == |undos|
    ensures forall i | 0 <= i < |undos| :: ReadBack(undos)[i] == ReadTx(undos[i]) && |ReadTx(undos[i])| == |undos[i]|
  {
    hide StoredUndo;
  }

  /** The undo file keeps what the indexes are restored from. */
  lemma ReadKeepsEvents(tx: Tx, undos: seq<TxInUndo>)
    requires UndoFits(tx, undos)
    ensures UndoFits(tx, ReadTx(undos)) && UndoneOutputs(tx, ReadTx(undos)) == UndoneOutputs(tx, undos)
    ensures UndoHeights(tx, ReadTx(undos)) == UndoHeights(tx, undos)
  {
  }

  method PutBackInput(view: CoinsViewCache, out: OutPoint, undo: TxInUndo) returns (ok: bool)
    requires view.Valid() && !view.hasModifier
    modifies view.Repr
    ensures view.Valid() && !view.hasModifier && view.BaseViews() == old(view.BaseViews())
    ensures ok == RestoreInput(old(view.View()), out, undo).1
    ensures ok ==> view.View() == RestoreInput(old(view.View()), out, undo).0
  {
    hide CleanedUp;
    var c := view.ModifyCoins(out.hash);
    ok := true;
    if undo.height != 0 {
      if !c.IsPruned() {
        ok := false;
      }
      c := EMPTY_COINS.(coinBase := undo.coinBase, height := undo.height, version := undo.version);
    } else {
      if c.IsPruned() {
        ok := false;
      }
    }
    if c.IsAvailable(out.n) {
      ok := false;
    }
    CleanedUpTwice(c.(vout := PutOutput(c.vout, out.n, undo.txout)));
    view.Release(out.hash, c.(vout := PutOutput(c.vout, out.n, undo.txout)));
  }

  lemma CleanedUpTwice(c: Coins)
    ensures CleanedUp(CleanedUp(c)) == CleanedUp(c) && (CleanedUp(c).IsPruned() <==> c.IsPruned())
  {
    TrimUnique(CleanedUp(c).vout, CleanedUp(c).vout);
  }

  datatype DisconnectResult = Inconsistent | Disconnected(clean: bool)

  /** Undo data of the right shape for the block. */
  predicate ShapeOk(txs: seq<Tx>, vtxundo: seq<seq<TxInUndo>>) {
    && |vtxundo| + 1 == |txs|
    && forall i | 1 <= i < |txs| :: |vtxundo[i - 1]| == |txs[i].vin|
  }

  method DisconnectOne(view: CoinsViewCache, tx: Tx, undos: seq<TxInUndo>, h: nat) returns (ok: bool)
    requires view.Valid() && !view.hasModifier && UndoFits(tx, undos)
    modifies view.Repr
    ensures view.Valid() && !view.hasModifier && view.BaseViews() == old(view.BaseViews())
    ensures ok == DisconnectTx(old(view.View()), tx, undos, h).1
    ensures ok ==> view.View() == DisconnectTx(old(view.View()), tx, undos, h).0
  {
    hide RemoveTx, RestoreInput;
    ok := TakeOutputs(view, tx, h);
    if !tx.IsCoinBase() {
      ghost var m1, ok1 := view.View(), ok;
      var k := |tx.vin|;
      while k > 0
        invariant 0 <= k <= |tx.vin|
        invariant view.Valid() && !view.hasModifier && view.BaseViews() == old(view.BaseViews())
        invariant ok ==> ok1 && RestoreFirst(view.View(), tx.vin, undos, k) == RestoreFirst(m1, tx.vin, undos, |tx.vin|)
        invariant !ok ==> !ok1 || !RestoreFirst(m1, tx.vin, undos, |tx.vin|).1
      {
        k := k - 1;
        var fine := PutBackInput(view, tx.vin[k], undos[k]);
        ok := ok && fine;
      }
    }
  }

  /** One round of the loop of DisconnectBlock; `written` is what `undos` was read back from. */
  method UndoTx(view: CoinsViewCache, batch: Batch, tx: Tx, ghost written: seq<TxInUndo>, undos: seq<TxInUndo>, i: nat,
                h: nat, key: Indexer, ghost ix: Index)
    returns (ok: bool, batch': Batch)
    requires view.Valid() && !view.hasModifier && UndoFits(tx, written) && undos == ReadTx(written)
    modifies view.Repr
    ensures view.Valid() && !view.hasModifier && view.BaseViews() == old(view.BaseViews())
    ensures UndoFits(tx, undos) && ok == DisconnectTx(old(view.View()), tx, undos, h).1
    ensures ok ==> view.View() == DisconnectTx(old(view.View()), tx, undos, h).0
    ensures var es, hs := Events(tx, UndoneOutputs(tx, written), i, h, key), UndoHeights(tx, written);
            |hs| == |es| && After(ix, batch') == TakeBack(After(ix, batch), es, hs, |es|)
  {
    hide DisconnectTx, After, TakeBack, Events, UndoneOutputs, UndoHeights, ReadTx;
    ReadKeepsEvents(tx, written);
    batch' := UnnoteTx(batch, tx, undos, i, h, key, ix);
    ok := DisconnectOne(view, tx, undos, h);
  }

  /** The loop of DisconnectBlock has taken back all but the first `i` transactions. `undos` is what was
      written, `read` what came back. */
  ghost predicate UndoneTo(v: Utxo, clean: bool, now: Index, m: Utxo, ix: Index, txs: seq<Tx>, undos: seq<seq<TxInUndo>>,
                           read: seq<seq<TxInUndo>>, h: nat, key: Indexer, i: nat)
    requires i <= |txs|
  {
    UndosFit(txs, undos) && UndosFit(txs, read) ==>
      && (clean ==> DisconnectFirst(v, txs, read, h, i) == DisconnectFirst(m, txs, read, h, |txs|))
      && (!clean ==> !DisconnectFirst(m, txs, read, h, |txs|).1)
      && DisconnectIndex(now, txs, undos, h, key, i) == DisconnectIndex(ix, txs, undos, h, key, |txs|)
  }

  lemma NothingUndone(m: Utxo, ix: Index, txs: seq<Tx>, undos: seq<seq<TxInUndo>>, read: seq<seq<TxInUndo>>, h: nat, key: Indexer)
    ensures UndoneTo(m, true, ix, m, ix, txs, undos, read, h, key, |txs|)
  {
    hide DisconnectFirst, DisconnectIndex, UndosFit;
  }

  lemma UndoneStep(v: Utxo, v': Utxo, clean: bool, ok: bool, now: Index, now': Index, m: Utxo, ix: Index, txs: seq<Tx>,
                   undos: seq<seq<TxInUndo>>, read: seq<seq<TxInUndo>>, h: nat, key: Indexer, i: nat)
    requires i < |txs| && UndoneTo(v, clean, now, m, ix, txs, undos, read, h, key, i + 1)
    requires |undos| == |read| == |txs| && UndoFits(txs[i], undos[i]) && UndoFits(txs[i], read[i])
    requires ok == DisconnectTx(v, txs[i], read[i], h).1 && (ok ==> v' == DisconnectTx(v, txs[i], read[i], h).0)
    requires var es, hs := Events(txs[i], UndoneOutputs(txs[i], undos[i]), i, h, key), UndoHeights(txs[i], undos[i]);
             |hs| == |es| && now' == TakeBack(now, es, hs, |es|)
    ensures UndoneTo(v', clean && ok, now', m, ix, txs, undos, read, h, key, i)
  {
    hide DisconnectTx, TakeBack, Events, UndoneOutputs, UndoHeights, DisconnectIndex, UndosFit, DisconnectFirst, UndoFits;
    if UndosFit(txs, undos) && UndosFit(txs, read) {
      DisconnectIndexStep(now, txs, undos, h, key, i + 1);
      DisconnectOneMore(v, txs, read, h, i + 1);
    }
  }

  lemma UndoneAll(v: Utxo, clean: bool, now: Index, m: Utxo, ix: Index, txs: seq<Tx>, undos: seq<seq<TxInUndo>>,
                  read: seq<seq<TxInUndo>>, h: nat, key: Indexer)
    requires UndoneTo(v, clean, now, m, ix, txs, undos, read, h, key, 0) && UndosFit(txs, undos) && UndosFit(txs, read)
    ensures clean == DisconnectFirst(m, txs, read, h, |txs|).1 && (clean ==> v == DisconnectFirst(m, txs, read, h, |txs|).0)
    ensures now == DisconnectIndex(ix, txs, undos, h, key, |txs|)
  {
    hide UndosFit;
    assert DisconnectFirst(v, txs, read, h, 0) == (v, true);
    DisconnectNothing(now, txs, undos, h, key);
  }

  /** DisconnectBlock, on the undo data that ConnectBlock wrote. It refuses data of the wrong shape
      before anything is written; otherwise it takes the block out of the indexes, clean or not, and reports fClean. A
      clean disconnect leaves the coins that the specification says. */
  method DisconnectBlock(view: CoinsViewCache, db: BlockTreeDB, txs: seq<Tx>, vtxundo: seq<seq<TxInUndo>>, h: nat, key: Indexer)
    returns (r: DisconnectResult)
    requires view.Valid() && !view.hasModifier && db !in view.Repr && CheckedBlock(txs)
    modifies view.Repr, db
    ensures view.Valid() && !view.hasModifier && view.BaseViews() == old(view.BaseViews())
    ensures r.Inconsistent? <==> !ShapeOk(txs, vtxundo)
    ensures r.Inconsistent? ==> db.Contents() == old(db.Contents())
    ensures r.Disconnected? ==>
              && UndosFit(txs, [[]] + vtxundo)
              && r.clean == BlockCoins.DisconnectBlock(old(view.View()), txs, [[]] + vtxundo, h).1
              && (r.clean ==> view.View() == BlockCoins.DisconnectBlock(old(view.View()), txs, [[]] + vtxundo, h).0)
              && db.Contents() == DisconnectIndex(old(db.Contents()), txs, [[]] + vtxundo, h, key, |txs|)
  {
    hide DisconnectFirst, DisconnectTx, After, TakeBack, Events, UndoneOutputs, UndoHeights, ReadBack, ReadTx, DisconnectIndex,
         UndoneTo;
    var blockUndo := ReadUndo(vtxundo);
    ReadKeepsShape(vtxundo);
    ReadKeepsShape([[]] + vtxundo);
    if |blockUndo| + 1 != |txs| {
      return Inconsistent;
    }
    ghost var m, ix, undos := view.View(), db.Contents(), [[]] + vtxundo;
    ghost var readUndos := [[]] + blockUndo;
    var clean, batch := true, NO_WRITES;
    assert After(ix, batch) == ix by { NothingWritten(ix); }
    NothingUndone(m, ix, txs, undos, readUndos, h, key);
    var i := |txs|;
    while i > 0
      invariant 0 <= i <= |txs|
      invariant view.Valid() && !view.hasModifier && view.BaseViews() == old(view.BaseViews())
      invariant db.Contents() == ix
      invariant forall j | 1 <= j < |txs| && i <= j :: |vtxundo[j - 1]| == |txs[j].vin|
      invariant UndoneTo(view.View(), clean, After(ix, batch), m, ix, txs, undos, readUndos, h, key, i)
    {
      i := i - 1;
      if i > 0 && |blockUndo[i - 1]| != |txs[i].vin| {
        assert !ShapeOk(txs, vtxundo);
        return Inconsistent;
      }
      var txundo := if i > 0 then blockUndo[i - 1] else [];
      ghost var v, now := view.View(), After(ix, batch);
      var ok;
      ok, batch := UndoTx(view, batch, txs[i], undos[i], txundo, i, h, key, ix);
      UndoneStep(v, view.View(), clean, ok, now, After(ix, batch), m, ix, txs, undos, readUndos, h, key, i);
      clean := clean && ok;
    }
    assert UndosFit(txs, undos) && UndosFit(txs, readUndos);
    UndoneAll(view.View(), clean, After(ix, batch), m, ix, txs, undos, readUndos, h, key);
    db.Write(batch);
    return Disconnected(clean);
  }

  lemma NothingWritten(ix: Index)
    ensures After(ix, NO_WRITES) == ix
  {
  }

  // ----- the tip -----

  /** ConnectTip: work on a temporary layer, flush it only on success. */
  method ConnectTip(tip: CoinsViewCache, db: BlockTreeDB, txs: seq<Tx>, h: nat, prevSupply: int, p: Params)
    returns (ok: bool, vtxundo: seq<seq<TxInUndo>>, supply: int)
    requires tip.Valid() && !tip.hasModifier && db !in tip.Repr && CheckedBlock(txs) && h >= 1
    modifies tip.Repr, db
    ensures tip.Valid() && !tip.hasModifier && tip.BaseViews() == old(tip.BaseViews())
    ensures ok <==> BlockOk(old(tip.View()), txs, h, p.maturity) && PeriodOk(txs, h, p.lastPow)
                    && prevSupply + Minted(old(tip.View()), txs, h, |txs|) <= p.maxMoney
    ensures tip.View() == if ok then ApplyBlock(old(tip.View()), txs, h) else old(tip.View())
    ensures ok ==> [[]] + vtxundo == BlockUndo(old(tip.View()), txs, h)
    ensures ok ==> supply == prevSupply + Minted(old(tip.View()), txs, h, |txs|)
    ensures db.Contents() == if ok then ConnectIndex(old(db.Contents()), old(tip.View()), txs, h, p.key, |txs|)
                             else old(db.Contents())
  {
    hide BlockOk, ApplyBlock, BlockUndo, CheckedBlock, Minted, ConnectIndex;
    ghost var below := tip.Views();
    assert below[1..] == tip.BaseViews();
    var view := new CoinsViewCache.Over(tip);
    ok, vtxundo, supply := ConnectBlock(view, db, txs, h, prevSupply, p);
    if ok {
      view.Flush();
    }
    assert view.BaseViews()[1..] == below[1..];
    assert tip.Views()[1..] == tip.BaseViews();
  }

  /** DisconnectTip: an unclean disconnect is an error and leaves the coins alone, but not the
      indexes. */
  method DisconnectTip(tip: CoinsViewCache, db: BlockTreeDB, txs: seq<Tx>, vtxundo: seq<seq<TxInUndo>>, h: nat, key: Indexer)
    returns (ok: bool)
    requires tip.Valid() && !tip.hasModifier && db !in tip.Repr && CheckedBlock(txs)
    modifies tip.Repr, db
    ensures tip.Valid() && !tip.hasModifier && tip.BaseViews() == old(tip.BaseViews())
    ensures ShapeOk(txs, vtxundo) ==> UndosFit(txs, [[]] + vtxundo)
    ensures ok <==> ShapeOk(txs, vtxundo) && BlockCoins.DisconnectBlock(old(tip.View()), txs, [[]] + vtxundo, h).1
    ensures tip.View() == if ok then BlockCoins.DisconnectBlock(old(tip.View()), txs, [[]] + vtxundo, h).0
                          else old(tip.View())
    ensures db.Contents() == if ShapeOk(txs, vtxundo)
                             then DisconnectIndex(old(db.Contents()), txs, [[]] + vtxundo, h, key, |txs|)
                             else old(db.Contents())
  {
    hide CheckedBlock, BlockCoins.DisconnectBlock, DisconnectIndex;
    ShapeMeansFit(txs, vtxundo);
    ghost var below := tip.Views();
    assert below[1..] == tip.BaseViews();
    var view := new CoinsViewCache.Over(tip);
    var r := DisconnectBlock(view, db, txs, vtxundo, h, key);
    ok := r.Disconnected? && r.clean;
    if ok {
      view.Flush();
    }
    assert view.BaseViews()[1..] == below[1..];
    assert tip.Views()[1..] == tip.BaseViews();
  }

  lemma ShapeMeansFit(txs: seq<Tx>, vtxundo: seq<seq<TxInUndo>>)
    requires CheckedBlock(txs)
    ensures ShapeOk(txs, vtxundo) ==> UndosFit(txs, [[]] + vtxundo)
  {
  }

  /** Connecting a block and disconnecting it again, on the caches and the database: the
      disconnect goes through and every record is as it was, up to the coinstake flag and a
      negative version of those emptied. */
  method ConnectThenDisconnect(tip: CoinsViewCache, db: BlockTreeDB, txs: seq<Tx>, h: nat, prevSupply: int, p: Params)
    returns (connected: bool)
    requires tip.Valid() && !tip.hasModifier && db !in tip.Repr && CheckedBlock(txs) && h >= 1 && p.maturity >= 1
    requires WellFormed(tip.View()) && IndexesSpendable(p.key) && IndexReady(db.Contents(), tip.View(), txs, h, p.key)
    modifies tip.Repr, db
    ensures tip.Valid() && !tip.hasModifier
    ensures connected <==> BlockOk(old(tip.View()), txs, h, p.maturity) && PeriodOk(txs, h, p.lastPow)
                           && prevSupply + Minted(old(tip.View()), txs, h, |txs|) <= p.maxMoney
    ensures tip.View() == if connected
                          then Worn(old(tip.View()), Gone(old(tip.View()), ApplyBlock(old(tip.View()), txs, h)), {})
                          else old(tip.View())
    ensures InStep(db.Contents(), old(db.Contents()), old(tip.View()), p.key)
  {
    hide BlockOk, ApplyBlock, CheckedBlock, BlockCoins.DisconnectBlock, WellFormed, Worn, Gone, Minted, ConnectIndex,
         DisconnectIndex, IndexesSpendable, InStep, IndexReady;
    ghost var m, ix := tip.View(), db.Contents();
    var vtxundo, supply;
    ReadyIsInStep(ix, m, txs, h, p.key);
    connected, vtxundo, supply := ConnectTip(tip, db, txs, h, prevSupply, p);
    if connected {
      DisconnectUndoesConnect(m, txs, h, p.maturity);
      UndoHasShape(txs, vtxundo, BlockUndo(m, txs, h));
      BlockComesBack(ix, m, txs, h, p);
      var ok := DisconnectTip(tip, db, txs, vtxundo, h, p.key);
      assert ok;
    }
  }

  lemma ReadyIsInStep(ix: Index, m: Utxo, txs: seq<Tx>, h: nat, key: Indexer)
    requires IndexReady(ix, m, txs, h, key)
    ensures InStep(ix, ix, m, key)
  {
    hide Agrees, LiveOf;
  }

  lemma BlockComesBack(ix: Index, m: Utxo, txs: seq<Tx>, h: nat, p: Params)
    requires WellFormed(m) && BlockOk(m, txs, h, p.maturity) && IndexesSpendable(p.key) && IndexReady(ix, m, txs, h, p.key)
    requires UndosFit(txs, BlockUndo(m, txs, h))
    ensures InStep(DisconnectIndex(ConnectIndex(ix, m, txs, h, p.key, |txs|), txs, BlockUndo(m, txs, h), h, p.key, |txs|),
                   ix, m, p.key)
  {
    hide WellFormed, ApplyFirst, ConnectIndex, DisconnectIndex, IndexReady, Agrees, LiveOf, BlockUndo, IndexesSpendable,
         TxsOk, UndosFit, IndexMidway;
    TxsOkAreReady(m, txs, h, p.maturity, |txs|);
    ConnectIndexKeeps(ix, m, txs, h, p.key, |txs|);
    ReadyIsMidway(ConnectIndex(ix, m, txs, h, p.key, |txs|), ApplyFirst(m, txs, h, |txs|), txs, h, p.key);
    DisconnectIndexUndoes(ix, ConnectIndex(ix, m, txs, h, p.key, |txs|), m, txs, h, p.key, |txs|);
  }

  lemma UndoHasShape(txs: seq<Tx>, vtxundo: seq<seq<TxInUndo>>, undos: seq<seq<TxInUndo>>)
    requires CheckedBlock(txs) && undos == [[]] + vtxundo && UndosFit(txs, undos)
    ensures ShapeOk(txs, vtxundo)
  {
    assert forall i | 1 <= i < |txs| :: undos[i] == vtxundo[i - 1];
  }
}
