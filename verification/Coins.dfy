/** Transaction outputs, transactions and CCoins records (src/coins.h, src/coins.cpp,
    src/primitives/transaction.h, src/undo.h).

    Hashes are only ever compared, so a 256-bit hash is a natural number and zero is the
    null hash. Amounts are unbounded integers; the checks that keep them in range are
    part of the block conditions in module BlockCoins. */
module Coins {

  type Hash = nat
  type Byte = b: nat | b < 256
  type Script = seq<Byte>

  const NULL_HASH: Hash := 0
  const NULL_INDEX: nat := 0xffff_ffff
  const OP_RETURN: Byte := 0x6a

  datatype TxOut = TxOut(value: int, script: Script) {
    // SetNull writes -1, and -1 alone decides nullness.
    predicate IsNull() { value == -1 }
    predicate IsEmpty() { value == 0 && script == [] }
    predicate IsUnspendable() { |script| > 0 && script[0] == OP_RETURN }
  }

  const NULL_OUT := TxOut(-1, [])

  datatype OutPoint = OutPoint(hash: Hash, n: nat) {
    predicate IsNull() { hash == NULL_HASH && n == NULL_INDEX }
  }

  datatype Tx = Tx(id: Hash, vin: seq<OutPoint>, vout: seq<TxOut>, version: int) {
    predicate IsCoinBase() { |vin| == 1 && vin[0].IsNull() }

    // The first output of a coinstake is empty.
    predicate IsCoinStake() {
      |vin| > 0 && !vin[0].IsNull() && |vout| >= 2 && vout[0].IsEmpty()
    }
  }

  /** What a CTxInUndo remembers. Height 0 means "not the last output": it is both the
      default and the discriminator used when a block is disconnected. */
  datatype TxInUndo = TxInUndo(txout: TxOut, coinBase: bool, coinStake: bool, height: nat, version: int)

  /** Versions are stored as VARINT, which keeps seven bits of a negative number. */
  function CutVersion(version: int): (r: nat)
    ensures r == version <==> version >= 0
  {
    if version < 0 then version % 128 else version
  }

  /** An undo record as it is read back from the undo file; module UndoCodec has the bytes. */
  function StoredUndo(u: TxInUndo): TxInUndo {
    u.(version := if u.height > 0 then CutVersion(u.version) else 0)
  }

  datatype Coins = Coins(coinBase: bool, coinStake: bool, vout: seq<TxOut>, height: nat, version: int) {
    predicate IsPruned() { forall i | 0 <= i < |vout| :: vout[i].IsNull() }

    predicate IsAvailable(n: nat) { n < |vout| && !vout[n].IsNull() }

    // operator== : two pruned records are equal whatever their metadata
    predicate SameAs(other: Coins) {
      (IsPruned() && other.IsPruned()) || this == other
    }
  }

  /** A record as it is read back from the coin database; module CoinsCodec has the bytes. */
  function Stored(c: Coins): Coins { c.(version := CutVersion(c.version)) }

  const EMPTY_COINS := Coins(false, false, [], 0, 0)

  // ----- trimming null outputs off the end -----

  predicate Trimmed(vout: seq<TxOut>) { |vout| > 0 ==> !vout[|vout| - 1].IsNull() }

  function Trim(vout: seq<TxOut>): (r: seq<TxOut>)
    ensures Trimmed(r)
    ensures |r| <= |vout| && r == vout[..|r|]
    ensures forall i | |r| <= i < |vout| :: vout[i].IsNull()
  {
    if |vout| > 0 && vout[|vout| - 1].IsNull() then Trim(vout[..|vout| - 1]) else vout
  }

  /** Trim is the only way to drop a null tail and end in a live output. */
  lemma TrimUnique(vout: seq<TxOut>, r: seq<TxOut>)
    requires Trimmed(r) && |r| <= |vout| && r == vout[..|r|]
    requires forall i | |r| <= i < |vout| :: vout[i].IsNull()
    ensures Trim(vout) == r
  {
    var t := Trim(vout);
    assert |t| > 0 ==> !vout[|t| - 1].IsNull();
    assert |r| > 0 ==> !vout[|r| - 1].IsNull();
    assert |t| == |r|;
  }

  /** Of trimmed outputs, only the empty list is pruned (so HaveCoins may test emptiness). */
  lemma TrimmedPrunedIffEmpty(c: Coins)
    requires Trimmed(c.vout)
    ensures c.IsPruned() <==> c.vout == []
  {
    if c.vout != [] {
      assert !c.vout[|c.vout| - 1].IsNull();
    }
  }

  function NullUnspendable(vout: seq<TxOut>): (r: seq<TxOut>) {
    seq(|vout|, i requires 0 <= i < |vout| => if vout[i].IsUnspendable() then NULL_OUT else vout[i])
  }

  function CleanedUp(c: Coins): Coins { c.(vout := Trim(c.vout)) }

  function WithoutUnspendable(c: Coins): Coins { c.(vout := Trim(NullUnspendable(c.vout))) }

  function CoinsOf(tx: Tx, height: nat): Coins {
    WithoutUnspendable(Coins(tx.IsCoinBase(), tx.IsCoinStake(), tx.vout, height, tx.version))
  }

  lemma WithoutUnspendableIdempotent(c: Coins)
    ensures WithoutUnspendable(WithoutUnspendable(c)) == WithoutUnspendable(c)
  {
    var v := WithoutUnspendable(c).vout;
    assert NullUnspendable(v) == v;
    TrimUnique(v, v);
  }

  // ----- spending -----

  datatype SpendResult = Refused | Spent(coins: Coins, undo: TxInUndo)

  /** Spend(out, undo): refuses a missing output; saves the metadata only when the record
      has no output left. */
  function SpendOne(c: Coins, n: nat): SpendResult {
    if !c.IsAvailable(n) then Refused
    else
      var c' := CleanedUp(c.(vout := c.vout[n := NULL_OUT]));
      Spent(c', if c'.vout == [] then TxInUndo(c.vout[n], c.coinBase, c.coinStake, c.height, c.version)
                else TxInUndo(c.vout[n], false, false, 0, 0))
  }

  /** The mutable record a CCoinsModifier hands out. */
  class CoinsRecord {
    var coinBase: bool
    var coinStake: bool
    var vout: seq<TxOut>
    var height: nat
    var version: int

    ghost function Value(): Coins reads this { Coins(coinBase, coinStake, vout, height, version) }

    constructor (c: Coins)
      ensures Value() == c
    {
      coinBase, coinStake, vout, height, version := c.coinBase, c.coinStake, c.vout, c.height, c.version;
    }

    method Assign(c: Coins)
      modifies this
      ensures Value() == c
    {
      coinBase, coinStake, vout, height, version := c.coinBase, c.coinStake, c.vout, c.height, c.version;
    }

    method Clear()
      modifies this
      ensures Value() == EMPTY_COINS
    {
      coinBase, coinStake, vout, height, version := false, false, [], 0, 0;
    }

    method Cleanup()
      modifies this
      ensures Value() == CleanedUp(old(Value()))
    {
      while |vout| > 0 && vout[|vout| - 1].IsNull()
        invariant |vout| <= |old(vout)| && vout == old(vout)[..|vout|]
        invariant forall i | |vout| <= i < |old(vout)| :: old(vout)[i].IsNull()
        invariant Value() == old(Value()).(vout := vout)
        decreases |vout|
      {
        vout := vout[..|vout| - 1];
      }
      TrimUnique(old(vout), vout);
    }

    method ClearUnspendable()
      modifies this
      ensures Value() == WithoutUnspendable(old(Value()))
    {
      for i := 0 to |vout|
        invariant |vout| == |old(vout)|
        invariant forall k | 0 <= k < i :: vout[k] == if old(vout)[k].IsUnspendable() then NULL_OUT else old(vout)[k]
        invariant vout[i..] == old(vout)[i..]
        invariant Value() == old(Value()).(vout := vout)
      {
        if vout[i].IsUnspendable() {
          vout := vout[i := NULL_OUT];
        }
      }
      assert vout == NullUnspendable(old(vout));
      Cleanup();
    }

    method FromTx(tx: Tx, height: nat)
      modifies this
      ensures Value() == CoinsOf(tx, height)
    {
      coinBase, coinStake := tx.IsCoinBase(), tx.IsCoinStake();
      vout := tx.vout;
      this.height, version := height, tx.version;
      ClearUnspendable();
    }

    method Spend(n: nat) returns (ok: bool, undo: TxInUndo)
      modifies this
      ensures match SpendOne(old(Value()), n)
              case Refused => !ok && Value() == old(Value())
              case Spent(c, u) => ok && Value() == c && undo == u
    {
      undo := TxInUndo(NULL_OUT, false, false, 0, 0);
      if n >= |vout| {
        return false, undo;
      }
      if vout[n].IsNull() {
        return false, undo;
      }
      undo := TxInUndo(vout[n], false, false, 0, 0);
      vout := vout[n := NULL_OUT];
      Cleanup();
      if |vout| == 0 {
        undo := undo.(height := height, coinBase := coinBase, coinStake := coinStake, version := version);
      }
      return true, undo;
    }
  }
}
