/** What a transaction leaves in the coins, byte by byte (src/script/script.h:600-603, src/coins.h:91-135,
    src/primitives/transaction.h:178-259), and which outputs the address index may name
    (src/main.cpp:2212-2239). */
module TxOutputs {
  import opened Options
  import opened Coins
  import opened CoinsCache
  import opened BlockCoins
  import opened Undo
  import opened Rollback
  import opened CoinSums
  import opened AddressIndex
  import opened IndexBlocks
  import opened Ledger
  import opened LedgerUnspent
  import opened Serial

  // ----- one transaction -----

  /** An output becomes a coin exactly when its script does not begin with the byte 0x6a; it is then
      found with its value and script. */
  lemma OutputLivesIff(m: Utxo, tx: Tx, h: nat, k: nat)
    requires WellFormed(m) && TxReady(m, tx)
    ensures var m', out := ApplyTx(m, tx, h), OutPoint(tx.id, k);
            && (HaveInput(m', out) <==> k < |tx.vout| && (tx.vout[k].script == [] || tx.vout[k].script[0] != 0x6a))
            && (HaveInput(m', out) ==> m'[tx.id].vout[k] == tx.vout[k])
  {
    hide SpendFirst, CoinsOf, CanSpend;
    if !tx.IsCoinBase() {
      SpendFirstKeepsWellFormed(m, tx.vin, |tx.vin|);
    }
    NewOutputs(tx, h);
  }

  /** The record carries the height, the version, and the two flags: a coinbase has one input, from
      nowhere, and a coinstake an input from somewhere and two outputs or more, the first with no
      value and no script. */
  lemma RecordTells(m: Utxo, tx: Tx, h: nat)
    requires WellFormed(m) && TxReady(m, tx) && tx.id in ApplyTx(m, tx, h)
    ensures var c, vin, vout := ApplyTx(m, tx, h)[tx.id], tx.vin, tx.vout;
            && c.height == h && c.version == tx.version
            && (c.coinBase <==> |vin| == 1 && vin[0].hash == 0 && vin[0].n == 0xffff_ffff)
            && (c.coinStake <==> |vin| > 0 && !(vin[0].hash == 0 && vin[0].n == 0xffff_ffff)
                                 && |vout| >= 2 && vout[0].value == 0 && vout[0].script == [])
  {
    hide SpendFirst, CanSpend, NullUnspendable, Trim;
    if !tx.IsCoinBase() {
      SpendFirstKeepsWellFormed(m, tx.vin, |tx.vin|);
    }
  }

  /** What the undo data keep of a spent output: itself, and the record's height, version and flags if it
      was the last one left. */
  lemma UndoTells(m: Utxo, out: OutPoint)
    requires WellFormed(m) && HaveInput(m, out)
    ensures var c, u := m[out.hash], InputUndo(m, out);
            && u.txout == c.vout[out.n]
            && ((forall n: nat | n < |c.vout| && n != out.n :: c.vout[n].value == -1) ==>
                  u.height == c.height && u.version == c.version && u.coinBase == c.coinBase && u.coinStake == c.coinStake)
            && ((exists n: nat :: n < |c.vout| && n != out.n && c.vout[n].value != -1) ==> u.height == 0)
  {
    var c := m[out.hash];
    var nulled := c.vout[out.n := NULL_OUT];
    var t := Trim(nulled);
    TrimmedPrunedIffEmpty(CleanedUp(c.(vout := nulled)));
    if forall n: nat | n < |c.vout| && n != out.n :: c.vout[n].value == -1 {
      assert forall n | 0 <= n < |nulled| :: nulled[n].IsNull();
    } else {
      var n: nat :| n < |c.vout| && n != out.n && c.vout[n].value != -1;
      assert nulled[n] == c.vout[n] && !nulled[n].IsNull();
      assert n < |t|;
    }
  }

  // ----- accepted blocks -----

  /** In an accepted block, where a transaction finds the coins. */
  lemma AcceptedTx(m: Utxo, txs: seq<Tx>, h: nat, maturity: nat, i: nat)
    requires WellFormed(m) && BlockOk(m, txs, h, maturity) && i < |txs|
    ensures BlockFits(m, txs, h)
    ensures var m1 := ApplyFirst(m, txs, h, i);
            WellFormed(m1) && TxReady(m1, txs[i]) && ApplyFirst(m, txs, h, i + 1) == ApplyTx(m1, txs[i], h)
  {
    hide WellFormed, TxReady, TxsOk, ApplyFirst, TxsReady, WellShaped;
    TxsOkAreReady(m, txs, h, maturity, |txs|);
    BlockStep(m, txs, h, i + 1);
  }

  /** An output of an accepted block is a coin right after its transaction exactly when its script does
      not begin with 0x6a, */
  lemma AcceptedOutputLives(m: Utxo, txs: seq<Tx>, h: nat, maturity: nat, i: nat, k: nat)
    requires WellFormed(m) && BlockOk(m, txs, h, maturity) && i < |txs|
    ensures var vout := txs[i].vout;
            HaveInput(ApplyFirst(m, txs, h, i + 1), OutPoint(txs[i].id, k)) <==>
              k < |vout| && (vout[k].script == [] || vout[k].script[0] != 0x6a)
  {
    hide WellFormed, TxReady, BlockOk, ApplyFirst, HaveInput, ApplyTx;
    AcceptedTx(m, txs, h, maturity, i);
    OutputLivesIff(ApplyFirst(m, txs, h, i), txs[i], h, k);
  }

  /** No transaction of the block spends `out`. */
  ghost predicate NoneSpends(txs: seq<Tx>, out: OutPoint) { forall i: nat, j: nat :: !IsInput(txs, i, j, out) }

  lemma {:induction false} MadeIff(txs: seq<Tx>, k: nat, out: OutPoint)
    requires k <= |txs|
    ensures out in MadeBy(txs, k) <==>
            exists i: nat :: i < k && txs[i].id == out.hash && out.n < |txs[i].vout|
                             && (txs[i].vout[out.n].script == [] || txs[i].vout[out.n].script[0] != 0x6a)
  {
    if k > 0 {
      MadeIff(txs, k - 1, out);
      var tx := txs[k - 1];
      assert out in TxMakes(tx) <==> tx.id == out.hash && out.n < |tx.vout|
                                     && (tx.vout[out.n].script == [] || tx.vout[out.n].script[0] != 0x6a) by {
        if out.hash == tx.id && out.n < |tx.vout| {
          assert out == OutPoint(tx.id, out.n);
        }
      }
    }
  }

  lemma {:induction false} SpentIff(txs: seq<Tx>, k: nat, out: OutPoint)
    requires k <= |txs|
    ensures out in SpentBy(txs, k) <==> exists i: nat, j: nat :: i < k && IsInput(txs, i, j, out)
  {
    if k > 0 {
      SpentIff(txs, k - 1, out);
      var tx := txs[k - 1];
      if out in TxSpends(tx) {
        var j: nat :| j < |Inputs(tx)| && Inputs(tx)[j] == out;
        assert IsInput(txs, k - 1, j, out);
      }
    }
  }

  /** The coins after an accepted block: what was there, and the outputs of the block whose script does
      not begin with 0x6a, but for what the block spends. */
  lemma BlockLeaves(m: Utxo, txs: seq<Tx>, h: nat, maturity: nat, out: OutPoint)
    requires WellFormed(m) && BlockOk(m, txs, h, maturity)
    ensures HaveInput(ApplyBlock(m, txs, h), out) <==>
            && NoneSpends(txs, out)
            && (HaveInput(m, out)
                || exists i: nat :: i < |txs| && txs[i].id == out.hash && out.n < |txs[i].vout|
                                    && (txs[i].vout[out.n].script == [] || txs[i].vout[out.n].script[0] != 0x6a))
  {
    hide WellFormed, TxsOk, ApplyFirst, HaveInput, BlockFits, MadeBy, SpentBy, IsInput, WellShaped;
    AcceptedTx(m, txs, h, maturity, 0);
    BlockMoves(m, txs, h, |txs|, out);
    MadeIff(txs, |txs|, out);
    SpentIff(txs, |txs|, out);
    if out !in SpentBy(txs, |txs|) {
      forall i: nat, j: nat
        ensures !IsInput(txs, i, j, out)
      {
        InputInside(txs, i, j, out);
      }
    }
  }

  lemma InputInside(txs: seq<Tx>, i: nat, j: nat, out: OutPoint)
    ensures IsInput(txs, i, j, out) ==> i < |txs|
  {
  }

  /** The value in outputs whose script begins with 0x6a. */
  function Returned(vout: seq<TxOut>, k: nat): int
    requires k <= |vout|
  {
    if k == 0 then 0
    else Returned(vout, k - 1) + if vout[k - 1].script != [] && vout[k - 1].script[0] == 0x6a then vout[k - 1].value else 0
  }

  lemma {:induction false} TxBurns(tx: Tx, k: nat)
    requires k <= |tx.vout|
    ensures ValueOut(tx, k) - OutSum(tx, AMOUNT(), k) == Returned(tx.vout, k)
  {
    if k > 0 {
      TxBurns(tx, k - 1);
    }
  }

  /** What a block burns is that value, summed over its transactions. */
  lemma {:induction false} BlockBurns(txs: seq<Tx>, k: nat)
    requires 0 < k <= |txs|
    ensures Burned(txs, 0) == 0 && Burned(txs, k) == Burned(txs, k - 1) + Returned(txs[k - 1].vout, |txs[k - 1].vout|)
  {
    TxBurns(txs[k - 1], |txs[k - 1].vout|);
  }

  // ----- the address index -----

  /** The scripts that GetAddressIndexKey finds an address for: to the hash of a key, to the hash of a
      script, or to a key, which begin with a push. */
  predicate Standard(s: Script) { IsToKeyID(s) || IsToScriptID(s) || (s != [] && s[0] <= 0x4e) }

  /** Whoever indexes none but these never indexes an output that is not a coin. */
  lemma StandardIsSpendable(key: Indexer)
    requires forall s: Script :: key(s).Some? ==> Standard(s)
    ensures IndexesSpendable(key)
  {
    forall o: TxOut | key(o.script).Some?
      ensures !o.IsUnspendable()
    {
      assert Standard(o.script);
    }
  }

  /** Pay to the hash of a key is 76 a9 14 hash 88 ac, and pay to the hash of a script a9 14 hash 87. */
  lemma StandardScripts(s: Script, hash: Bytes)
    ensures |hash| == 20 && s == [0x76, 0xa9, 0x14] + hash + [0x88, 0xac] ==> IsToKeyID(s)
    ensures |hash| == 20 && s == [0xa9, 0x14] + hash + [0x87] ==> IsToScriptID(s)
    ensures IsToKeyID(s) ==> s == [0x76, 0xa9, 0x14] + s[3..23] + [0x88, 0xac]
    ensures IsToScriptID(s) ==> s == [0xa9, 0x14] + s[2..22] + [0x87]
  {
  }
}
