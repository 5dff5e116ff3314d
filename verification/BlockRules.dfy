/** The rules a block has to keep to be connected, in values (CheckTransaction, src/main.cpp:985-1031;
    CheckBlock, src/main.cpp:3508-3551; ConnectBlock, src/main.cpp:2444-2471, 2518-2521; CheckInputs,
    src/main.cpp:2098-2146). Modules BlockCoins and Ledger have them in their own terms. */
module BlockRules {
  import opened Coins
  import opened CoinsCache
  import opened BlockCoins
  import opened Ledger

  predicate FromNowhere(o: OutPoint) { o.hash == 0 && o.n == 0xffff_ffff }

  predicate Nothing(o: TxOut) { o.value == 0 && |o.script| == 0 }

  /** It takes something from somewhere, and its first output, but not its only one, gives nothing. */
  predicate StakeShaped(tx: Tx) {
    |tx.vin| > 0 && !FromNowhere(tx.vin[0]) && |tx.vout| >= 2 && Nothing(tx.vout[0])
  }

  /** Input `j` takes an output that is there, is taken by no earlier input, and has matured if a coinbase
      or coinstake made it. */
  predicate Takes(m: Utxo, vin: seq<OutPoint>, j: nat, h: nat, maturity: nat)
    requires j < |vin|
  {
    var o := vin[j];
    && o.hash in m && o.n < |m[o.hash].vout| && m[o.hash].vout[o.n].value != -1
    && (m[o.hash].coinBase || m[o.hash].coinStake ==> h - m[o.hash].height >= maturity)
    && forall x | 0 <= x < j :: vin[x] != o
  }

  /** Every transaction has inputs and outputs, and no output of negative value. Only the first takes from
      nowhere, with its one input. Outputs of nothing are left to stakes and to the first. */
  predicate ShapesOk(txs: seq<Tx>) {
    && |txs| > 0 && |txs[0].vin| == 1 && FromNowhere(txs[0].vin[0])
    && (forall i | 0 <= i < |txs| :: |txs[i].vin| > 0 && |txs[i].vout| > 0)
    && (forall i, k | 0 <= i < |txs| && 0 <= k < |txs[i].vout| :: txs[i].vout[k].value >= 0)
    && (forall i, j | 1 <= i < |txs| && 0 <= j < |txs[i].vin| :: !FromNowhere(txs[i].vin[j]))
    && (forall i, k | 1 <= i < |txs| && 0 <= k < |txs[i].vout| :: Nothing(txs[i].vout[k]) ==> StakeShaped(txs[i]))
  }

  /** Up to height `lastPow` the second transaction is no stake; above, it is the only one, and the first
      transaction has one output, of nothing. */
  predicate KindOk(txs: seq<Tx>, h: nat, lastPow: nat)
    requires |txs| > 0
  {
    if h <= lastPow then |txs| == 1 || !StakeShaped(txs[1])
    else
      && |txs| > 1 && StakeShaped(txs[1]) && |txs[0].vout| == 1 && Nothing(txs[0].vout[0])
      && forall i | 2 <= i < |txs| :: !StakeShaped(txs[i])
  }

  predicate IdsOk(m: Utxo, txs: seq<Tx>) {
    forall i | 0 <= i < |txs| :: txs[i].id !in m && forall j | 0 <= j < i :: txs[j].id != txs[i].id
  }

  predicate InputsOk(m: Utxo, txs: seq<Tx>, h: nat, maturity: nat) {
    forall i, j | 1 <= i < |txs| && 0 <= j < |txs[i].vin| :: Takes(ApplyFirst(m, txs, h, i), txs[i].vin, j, h, maturity)
  }

  lemma {:induction false} TxsOkIff(m: Utxo, txs: seq<Tx>, h: nat, maturity: nat, k: nat)
    requires k <= |txs|
    ensures TxsOk(m, txs, h, maturity, k) <==> forall i | 0 <= i < k :: TxOk(ApplyFirst(m, txs, h, i), txs[i], h, maturity)
  {
    hide TxOk, ApplyFirst;
    if k > 0 {
      TxsOkIff(m, txs, h, maturity, k - 1);
    }
  }

  lemma TakesAll(m: Utxo, vin: seq<OutPoint>, h: nat, maturity: nat)
    ensures HaveInputs(m, vin) && DistinctInputs(vin) && Matured(m, vin, h, maturity) <==>
            forall j | 0 <= j < |vin| :: Takes(m, vin, j, h, maturity)
  {
    if forall j | 0 <= j < |vin| :: Takes(m, vin, j, h, maturity) {
      forall i, j | 0 <= i < j < |vin|
        ensures vin[i] != vin[j]
      {
        assert Takes(m, vin, j, h, maturity);
      }
      forall j | 0 <= j < |vin|
        ensures HaveInput(m, vin[j])
        ensures (At(m, vin[j].hash).coinBase || At(m, vin[j].hash).coinStake) ==> h - At(m, vin[j].hash).height >= maturity
      {
        assert Takes(m, vin, j, h, maturity);
      }
    }
  }

  lemma ShapesIff(txs: seq<Tx>)
    ensures ShapesOk(txs) <==>
            && |txs| > 0 && txs[0].IsCoinBase() && (forall i | 1 <= i < |txs| :: !txs[i].IsCoinBase())
            && (forall i | 0 <= i < |txs| :: WellShaped(txs[i]) && OutputsOk(txs[i]))
  {
    hide OutputsOk;
    assert forall i | 0 <= i < |txs| :: OutputsOk(txs[i]) <==> forall k | 0 <= k < |txs[i].vout| :: txs[i].vout[k].value >= 0 by {
      ValuesOk(txs);
    }
  }

  lemma ValuesOk(txs: seq<Tx>)
    ensures forall i | 0 <= i < |txs| :: OutputsOk(txs[i]) <==> forall k | 0 <= k < |txs[i].vout| :: txs[i].vout[k].value >= 0
  {
  }

  lemma KindIff(txs: seq<Tx>, h: nat, lastPow: nat)
    requires |txs| > 0
    ensures KindOk(txs, h, lastPow) <==> StakeRules(txs) && PeriodOk(txs, h, lastPow)
  {
  }

  lemma IdsIff(m: Utxo, txs: seq<Tx>)
    ensures IdsOk(m, txs) <==> DistinctIds(txs) && forall i | 0 <= i < |txs| :: txs[i].id !in m
  {
  }

  /** A block is connected exactly when it keeps all of these rules and the supply stays below its limit. */
  lemma AcceptsIff(n: Node, txs: seq<Tx>, p: Params)
    ensures var h := |n.chain| + 1;
            Accepts(n, txs, p) <==>
              && ShapesOk(txs) && KindOk(txs, h, p.lastPow) && IdsOk(n.coins, txs) && InputsOk(n.coins, txs, h, p.maturity)
              && NextSupply(n, txs) <= p.maxMoney
  {
    hide ShapesOk, KindOk, IdsOk, StakeRules, PeriodOk, DistinctIds, WellShaped, NextSupply, TxsOk, OutputsOk, ApplyFirst, Takes,
         HaveInputs, DistinctInputs, Matured;
    var h := |n.chain| + 1;
    ShapesIff(txs);
    if |txs| > 0 {
      KindIff(txs, h, p.lastPow);
    }
    IdsIff(n.coins, txs);
    TxsOkIff(n.coins, txs, h, p.maturity, |txs|);
    if ShapesOk(txs) {
      forall i | 0 <= i < |txs|
        ensures TxOk(ApplyFirst(n.coins, txs, h, i), txs[i], h, p.maturity) <==>
                i == 0 || forall j | 0 <= j < |txs[i].vin| :: Takes(ApplyFirst(n.coins, txs, h, i), txs[i].vin, j, h, p.maturity)
      {
        TakesAll(ApplyFirst(n.coins, txs, h, i), txs[i].vin, h, p.maturity);
      }
    }
  }
}
