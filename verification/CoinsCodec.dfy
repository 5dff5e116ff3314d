/** The database format of a CCoins record (src/coins.h:199-263, src/coins.cpp:16-33): a bit mask
    says which outputs are unspent, and only those are stored. The header code has its
    coinstake bit between the coinbase bit and the two output bits, and counts mask bytes in
    units of sixteen. */
module CoinsCodec {
  import opened Options
  import opened Coins
  import opened Powers
  import opened Serial

  // ----- the mask -----

  predicate Unspent(vout: seq<TxOut>, i: nat) { i < |vout| && !vout[i].IsNull() }

  /** The first `k` bits, for the outputs from `base` on. */
  function MaskBits(vout: seq<TxOut>, base: nat, k: nat): (r: nat)
    ensures r < Pow2(k)
  {
    if k == 0 then 0 else MaskBits(vout, base, k - 1) + if Unspent(vout, base + k - 1) then Pow2(k - 1) else 0
  }

  function MaskByte(vout: seq<TxOut>, b: nat): Byte {
    Pow2Of8();
    MaskBits(vout, 2 + b * 8, 8)
  }

  lemma Pow2Of8()
    ensures Pow2(8) == 256
  {
  }

  /** The number of mask bytes among the first `n` that are not zero, and the last such. */
  function NonZero(vout: seq<TxOut>, n: nat): (r: nat)
    ensures r <= n
  {
    if n == 0 then 0 else NonZero(vout, n - 1) + if MaskByte(vout, n - 1) != 0 then 1 else 0
  }

  function LastUsed(vout: seq<TxOut>, n: nat): (r: nat)
    ensures r <= n && (r > 0 ==> MaskByte(vout, r - 1) != 0)
    ensures forall b | r <= b < n :: MaskByte(vout, b) == 0
  {
    if n == 0 then 0 else if MaskByte(vout, n - 1) != 0 then n else LastUsed(vout, n - 1)
  }

  /** Mask bytes needed to reach the last output. */
  function Reach(vout: seq<TxOut>): nat { if |vout| <= 2 then 0 else (|vout| - 2 + 7) / 8 }

  function MaskSize(vout: seq<TxOut>): nat { LastUsed(vout, Reach(vout)) }

  function Mask(vout: seq<TxOut>, n: nat): Bytes {
    if n == 0 then [] else Mask(vout, n - 1) + [MaskByte(vout, n - 1)]
  }

  /** Each bit of the mask says whether its output is unspent. */
  lemma {:induction false} MaskBitSays(vout: seq<TxOut>, base: nat, k: nat, i: nat)
    requires i < k
    ensures BitOf(MaskBits(vout, base, k), i) <==> Unspent(vout, base + i)
    decreases k
  {
    hide Pow2, BitOf;
    var low := MaskBits(vout, base, k - 1);
    if i == k - 1 {
      TopBit(low, i);
    } else {
      MaskBitSays(vout, base, k - 1, i);
      LowerBit(low, k - 1, i);
    }
  }

  /** A mask byte is zero exactly when none of its outputs is unspent. */
  lemma {:induction false} ZeroMaskIff(vout: seq<TxOut>, base: nat, k: nat)
    ensures MaskBits(vout, base, k) == 0 <==> forall j | base <= j < base + k :: !Unspent(vout, j)
  {
    if k > 0 {
      ZeroMaskIff(vout, base, k - 1);
    }
  }

  lemma ZeroByteIff(vout: seq<TxOut>, b: nat)
    ensures MaskByte(vout, b) == 0 <==> forall j | 2 + b * 8 <= j < 2 + b * 8 + 8 :: !Unspent(vout, j)
  {
    ZeroMaskIff(vout, 2 + b * 8, 8);
  }

  method CalcMaskSize(vout: seq<TxOut>) returns (nBytes: nat, nNonzeroBytes: nat)
    ensures nBytes == MaskSize(vout) && nNonzeroBytes == NonZero(vout, Reach(vout))
  {
    hide MaskByte;
    var nLastUsedByte: nat := 0;
    nNonzeroBytes := 0;
    var b := 0;
    while 2 + b * 8 < |vout|
      invariant 0 <= b <= Reach(vout)
      invariant nLastUsedByte == LastUsed(vout, b) && nNonzeroBytes == NonZero(vout, b)
    {
      var fZero := true;
      var i := 0;
      while i < 8 && 2 + b * 8 + i < |vout|
        invariant 0 <= i <= 8
        invariant fZero <==> forall j | 2 + b * 8 <= j < 2 + b * 8 + i :: !Unspent(vout, j)
      {
        if !vout[2 + b * 8 + i].IsNull() {
          assert Unspent(vout, 2 + b * 8 + i);
          fZero := false;
        }
        i := i + 1;
      }
      ZeroByteIff(vout, b);
      if !fZero {
        nLastUsedByte := b + 1;
        nNonzeroBytes := nNonzeroBytes + 1;
      }
      b := b + 1;
    }
    nBytes := nLastUsedByte;
  }

  // ----- writing -----

  function First(c: Coins): bool { Unspent(c.vout, 0) }
  function Second(c: Coins): bool { Unspent(c.vout, 1) }

  function Flag(b: bool, n: nat): nat { if b then n else 0 }

  /** The header code. */
  function Code(c: Coins): nat
    requires First(c) || Second(c) || NonZero(c.vout, Reach(c.vout)) > 0
  {
    16 * (NonZero(c.vout, Reach(c.vout)) - Flag(!First(c) && !Second(c), 1))
      + Flag(c.coinBase, 1) + Flag(c.coinStake, 2) + Flag(First(c), 4) + Flag(Second(c), 8)
  }

  predicate Amounts(vout: seq<TxOut>) { forall i | 0 <= i < |vout| :: vout[i].IsNull() || vout[i].value >= 0 }

  function Outs(vout: seq<TxOut>, k: nat, curve: Curve): Bytes
    requires k <= |vout| && Amounts(vout)
  {
    if k == 0 then [] else Outs(vout, k - 1, curve) + if vout[k - 1].IsNull() then [] else OutBytes(vout[k - 1], curve)
  }

  /** The assertion in Serialize: an unpruned record has an unspent output somewhere. */
  lemma UnprunedHasMask(c: Coins)
    requires !c.IsPruned()
    ensures First(c) || Second(c) || NonZero(c.vout, Reach(c.vout)) > 0
  {
    if !First(c) && !Second(c) {
      var i :| 0 <= i < |c.vout| && !c.vout[i].IsNull();
      var b := (i - 2) / 8;
      ZeroByteIff(c.vout, b);
      assert Unspent(c.vout, i);
      NonZeroHas(c.vout, b, Reach(c.vout));
    }
  }

  lemma {:induction false} NonZeroHas(vout: seq<TxOut>, b: nat, n: nat)
    requires b < n && MaskByte(vout, b) != 0
    ensures NonZero(vout, n) > 0
  {
    if b < n - 1 {
      NonZeroHas(vout, b, n - 1);
    }
  }

  /** The bits of the header code: coinbase, coinstake, the first two outputs; the rest is the number of
      mask bytes that are not zero, less one when both output bits are clear. */
  lemma HeaderBits(c: Coins)
    requires !c.IsPruned()
    ensures First(c) || Second(c) || NonZero(c.vout, Reach(c.vout)) > 0
    ensures var code := Code(c);
            && (code % 2 == 1 <==> c.coinBase)
            && (code / 2 % 2 == 1 <==> c.coinStake)
            && (code / 4 % 2 == 1 <==> |c.vout| > 0 && !c.vout[0].IsNull())
            && (code / 8 % 2 == 1 <==> |c.vout| > 1 && !c.vout[1].IsNull())
            && NonZero(c.vout, Reach(c.vout)) == code / 16 + if code / 4 % 4 == 0 then 1 else 0
  {
    hide NonZero;
    UnprunedHasMask(c);
    CodeParts(NonZero(c.vout, Reach(c.vout)) - Flag(!First(c) && !Second(c), 1), c.coinBase, c.coinStake, First(c), Second(c));
  }

  /** The mask: bit `p` of byte `b`, lowest bit first, stands for output 2 + 8 * b + p, and the last
      byte is not zero. */
  lemma {:induction false} MaskIs(vout: seq<TxOut>, n: nat, b: nat, p: nat)
    requires b < n && p < 8
    ensures |Mask(vout, n)| == n
    ensures BitOf(Mask(vout, n)[b], p) <==> 2 + 8 * b + p < |vout| && !vout[2 + 8 * b + p].IsNull()
    ensures n == MaskSize(vout) ==> Mask(vout, n)[n - 1] != 0
  {
    hide MaskBits, BitOf;
    if b < n - 1 {
      MaskIs(vout, n - 1, b, p);
    } else {
      MaskLength(vout, n - 1);
      MaskBitSays(vout, 2 + b * 8, 8, p);
    }
  }

  lemma {:induction false} MaskLength(vout: seq<TxOut>, n: nat)
    ensures |Mask(vout, n)| == n
  {
    if n > 0 {
      MaskLength(vout, n - 1);
    }
  }

  /** What Serialize writes. */
  function CoinsBytes(c: Coins, curve: Curve): Bytes
    requires !c.IsPruned() && Amounts(c.vout)
  {
    UnprunedHasMask(c);
    VarSigned(c.version) + VarInt(Code(c)) + Mask(c.vout, MaskSize(c.vout)) + Outs(c.vout, |c.vout|, curve) + VarInt(c.height)
  }

  // ----- reading -----

  /** The record of the example at src/coins.h:41-58, of 600 coins in output 1 paid to the hash of a key at
      height 203998. Its header code is 8: the comment has 4, from before there was a coinstake bit. */
  lemma DocumentedExample(hash: Bytes, curve: Curve)
    requires |hash| == 20
    ensures var c := Coins(false, false, [NULL_OUT, TxOut(60_000_000_000, [0x76, 0xa9, 20] + hash + [0x88, 0xac])], 203998, 1);
            && !c.IsPruned() && Amounts(c.vout)
            && CoinsBytes(c, curve) == [0x01, 0x08] + [0x83, 0x58] + [0x00] + hash + [0x8b, 0xb8, 0x5e]
  {
    hide VarInt, VarSigned, Code, Mask, MaskSize, Outs, OutBytes;
    var o := TxOut(60_000_000_000, [0x76, 0xa9, 20] + hash + [0x88, 0xac]);
    var c := Coins(false, false, [NULL_OUT, o], 203998, 1);
    assert !c.vout[1].IsNull();
    SecondOnly(c, curve);
    ExampleOut(60_000_000_000, hash, curve);
    VarIntSizes(203998);
    VarIntSizes(8);
    SignedOne(1);
    assert CoinsBytes(c, curve) == [1] + [8] + [] + ([0x83, 0x58] + ([0x00] + hash)) + [0x8b, 0xb8, 0x5e];
  }

  lemma SignedOne(version: nat)
    requires version < 128
    ensures VarSigned(version) == [version]
  {
    hide VarInt;
    VarIntSizes(version);
  }

  lemma ExampleOut(amount: nat, hash: Bytes, curve: Curve)
    requires amount == 60_000_000_000 && |hash| == 20
    ensures OutBytes(TxOut(amount, [0x76, 0xa9, 20] + hash + [0x88, 0xac]), curve) == [0x83, 0x58] + ([0x00] + hash)
  {
    hide VarInt, ScriptBytes, Compressed;
    SixHundredCoins(amount);
    SpecialForms(hash, [], curve);
    VarIntSizes(600);
  }

  lemma SixHundredCoins(amount: nat)
    requires amount == 60_000_000_000
    ensures Compressed(amount) == 600
  {
    hide Compressed;
    CompressedIs(60, 0, 0);
    assert Pow10(9) == 1_000_000_000;
  }

  /** A record whose only output is its second has no mask. */
  lemma SecondOnly(c: Coins, curve: Curve)
    requires |c.vout| == 2 && c.vout[0].IsNull() && !c.vout[1].IsNull() && c.vout[1].value >= 0 && !c.coinBase && !c.coinStake
    ensures Amounts(c.vout) && Outs(c.vout, 2, curve) == OutBytes(c.vout[1], curve)
    ensures Second(c) && Code(c) == 8 && Mask(c.vout, MaskSize(c.vout)) == []
  {
    hide OutBytes, MaskByte;
    assert Outs(c.vout, 0, curve) == [] && Outs(c.vout, 1, curve) == [];
    assert Reach(c.vout) == 0;
  }

  function ByteBits(x: Byte): seq<bool> { seq(8, p requires 0 <= p < 8 => BitOf(x, p)) }

  /** Read mask bytes until `code` of them were not zero. */
  function ReadMask(s: Bytes, code: nat, avail: seq<bool>): Option<(seq<bool>, Bytes)>
    decreases |s|
  {
    if code == 0 then Some((avail, s))
    else if s == [] then None
    else ReadMask(s[1..], if s[0] != 0 then code - 1 else code, avail + ByteBits(s[0]))
  }

  /** Read the outputs from `k` on that the mask announces. */
  function ReadOuts(s: Bytes, avail: seq<bool>, k: nat, vout: seq<TxOut>, curve: Curve): Option<(seq<TxOut>, Bytes)>
    requires k <= |avail| == |vout|
    decreases |avail| - k
  {
    if k == |avail| then Some((vout, s))
    else if !avail[k] then ReadOuts(s, avail, k + 1, vout, curve)
    else match ReadOut(s, curve)
         case None => None
         case Some((o, rest)) => ReadOuts(rest, avail, k + 1, vout[k := o], curve)
  }

  /** What Unserialize reads, and what is left. */
  function ReadCoins(s: Bytes, curve: Curve): Option<(Coins, Bytes)> {
    match ReadVar(s)
    case None => None
    case Some((version, s1)) =>
      match ReadVar(s1)
      case None => None
      case Some((code, s2)) =>
        match ReadMask(s2, code / 16 + Flag(code / 4 % 4 == 0, 1), [code / 4 % 2 == 1, code / 8 % 2 == 1])
        case None => None
        case Some((avail, s3)) =>
          match ReadOuts(s3, avail, 0, seq(|avail|, _ => NULL_OUT), curve)
          case None => None
          case Some((vout, s4)) =>
            match ReadVar(s4)
            case None => None
            case Some((height, rest)) =>
              Some((CleanedUp(Coins(code % 2 == 1, code / 2 % 2 == 1, vout, height, version)), rest))
  }

  // ----- the round trip -----

  /** The bits of a code come out as they went in. */
  lemma CodeParts(n: nat, coinBase: bool, coinStake: bool, first: bool, second: bool)
    ensures var code := 16 * n + Flag(coinBase, 1) + Flag(coinStake, 2) + Flag(first, 4) + Flag(second, 8);
            && (code % 2 == 1 <==> coinBase) && (code / 2 % 2 == 1 <==> coinStake)
            && (code / 4 % 2 == 1 <==> first) && (code / 8 % 2 == 1 <==> second)
            && code / 16 == n && (code / 4 % 4 == 0 <==> !first && !second)
  {
    CodeBits(n, Flag(coinBase, 1), Flag(coinStake, 1), Flag(first, 1), Flag(second, 1));
  }

  lemma CodeBits(n: nat, a: nat, b: nat, c: nat, d: nat)
    requires a <= 1 && b <= 1 && c <= 1 && d <= 1
    ensures var code := 16 * n + a + 2 * b + 4 * c + 8 * d;
            && code % 2 == a && code / 2 % 2 == b && code / 4 % 2 == c && code / 8 % 2 == d
            && code / 16 == n && code / 4 % 4 == c + 2 * d
  {
    var m3 := 2 * n + d;
    var m2 := 2 * m3 + c;
    var m1 := 2 * m2 + b;
    LowBit(n, d);
    LowBit(m3, c);
    LowBit(m2, b);
    LowBit(m1, a);
    Halvings(2 * m1 + a);
  }

  lemma LowBit(m: nat, b: nat)
    requires b <= 1
    ensures (2 * m + b) / 2 == m && (2 * m + b) % 2 == b
  {
  }

  lemma Halvings(code: nat)
    ensures code / 4 == code / 2 / 2 && code / 8 == code / 4 / 2 && code / 16 == code / 8 / 2
    ensures code / 4 % 4 == code / 4 % 2 + 2 * (code / 8 % 2)
  {
  }

  /** Which of the first `n` outputs are unspent. */
  function Avail(vout: seq<TxOut>, n: nat): seq<bool> { seq(n, i requires 0 <= i < n => Unspent(vout, i)) }

  lemma AvailGrows(vout: seq<TxOut>, b: nat)
    ensures Avail(vout, 2 + b * 8) + ByteBits(MaskByte(vout, b)) == Avail(vout, 2 + (b + 1) * 8)
  {
    forall p | 0 <= p < 8
      ensures BitOf(MaskByte(vout, b), p) <==> Unspent(vout, 2 + b * 8 + p)
    {
      MaskBitSays(vout, 2 + b * 8, 8, p);
    }
  }

  /** The mask from byte `b` on. */
  function MaskFrom(vout: seq<TxOut>, b: nat, n: nat): Bytes
    requires b <= n
    decreases n - b
  {
    if b == n then [] else [MaskByte(vout, b)] + MaskFrom(vout, b + 1, n)
  }

  lemma {:induction false} MaskSplits(vout: seq<TxOut>, b: nat, n: nat)
    requires b <= n
    ensures Mask(vout, n) == Mask(vout, b) + MaskFrom(vout, b, n)
    decreases n - b
  {
    if b < n {
      MaskSplits(vout, b + 1, n);
      assert Mask(vout, b) + ([MaskByte(vout, b)] + MaskFrom(vout, b + 1, n)) == Mask(vout, b + 1) + MaskFrom(vout, b + 1, n);
    }
  }

  lemma {:induction false} NonZeroGrows(vout: seq<TxOut>, b: nat, n: nat)
    requires b <= n
    ensures NonZero(vout, b) <= NonZero(vout, n) && (b < n && MaskByte(vout, n - 1) != 0 ==> NonZero(vout, b) < NonZero(vout, n))
  {
    if b < n {
      NonZeroGrows(vout, b, n - 1);
    }
  }

  /** The count of nonzero bytes makes the reader stop right behind the last mask byte. */
  lemma {:induction false} MaskIsRead(vout: seq<TxOut>, b: nat, n: nat, rest: Bytes)
    requires b <= n && (n > 0 ==> MaskByte(vout, n - 1) != 0)
    ensures NonZero(vout, n) >= NonZero(vout, b)
    ensures ReadMask(MaskFrom(vout, b, n) + rest, NonZero(vout, n) - NonZero(vout, b), Avail(vout, 2 + b * 8))
              == Some((Avail(vout, 2 + n * 8), rest))
    decreases n - b
  {
    hide Avail, MaskByte, ByteBits;
    NonZeroGrows(vout, b, n);
    if b == n {
      assert MaskFrom(vout, b, n) + rest == rest;
    } else {
      var s := MaskFrom(vout, b, n) + rest;
      assert s[1..] == MaskFrom(vout, b + 1, n) + rest;
      NonZeroGrows(vout, b + 1, n);
      AvailGrows(vout, b);
      MaskIsRead(vout, b + 1, n, rest);
    }
  }

  /** Bytes after the last used one hold nothing. */
  lemma {:induction false} NonZeroUpTo(vout: seq<TxOut>, n: nat)
    ensures NonZero(vout, n) == NonZero(vout, LastUsed(vout, n))
  {
    if n > 0 && MaskByte(vout, n - 1) == 0 {
      NonZeroUpTo(vout, n - 1);
    }
  }

  /** The outputs from `k` on, as they are written. */
  function OutsFrom(vout: seq<TxOut>, k: nat, curve: Curve): Bytes
    requires k <= |vout| && Amounts(vout)
    decreases |vout| - k
  {
    if k == |vout| then []
    else (if vout[k].IsNull() then [] else OutBytes(vout[k], curve)) + OutsFrom(vout, k + 1, curve)
  }

  lemma {:induction false} OutsSplit(vout: seq<TxOut>, k: nat, curve: Curve)
    requires k <= |vout| && Amounts(vout)
    ensures Outs(vout, |vout|, curve) == Outs(vout, k, curve) + OutsFrom(vout, k, curve)
    decreases |vout| - k
  {
    hide OutBytes;
    if k < |vout| {
      OutsSplit(vout, k + 1, curve);
    }
  }

  /** The outputs so far: read ones as they were, the others null. */
  function Partly(vout: seq<TxOut>, k: nat, n: nat): seq<TxOut> {
    seq(n, i requires 0 <= i < n => if i < k && Unspent(vout, i) then vout[i] else NULL_OUT)
  }

  lemma {:induction false} OutsAreRead(vout: seq<TxOut>, k: nat, n: nat, curve: Curve, rest: Bytes)
    requires k <= |vout| <= n && Amounts(vout) && curve.Sound()
    ensures ReadOuts(OutsFrom(vout, k, curve) + rest, Avail(vout, n), k, Partly(vout, k, n), curve)
              == Some((Partly(vout, |vout|, n), rest))
    decreases |vout| - k
  {
    hide ReadOut, OutBytes, Curve.Sound;
    if k == |vout| {
      assert OutsFrom(vout, k, curve) + rest == rest;
      NothingMore(vout, k, n, curve, rest);
    } else {
      var tail := OutsFrom(vout, k + 1, curve) + rest;
      OutsAreRead(vout, k + 1, n, curve, rest);
      if vout[k].IsNull() {
        assert OutsFrom(vout, k, curve) + rest == tail;
        assert Partly(vout, k, n) == Partly(vout, k + 1, n);
      } else {
        OutRoundTrip(vout[k], curve, tail);
        assert OutsFrom(vout, k, curve) + rest == OutBytes(vout[k], curve) + tail;
        assert Partly(vout, k, n)[k := vout[k]] == Partly(vout, k + 1, n);
      }
    }
  }

  lemma {:induction false} NothingMore(vout: seq<TxOut>, k: nat, n: nat, curve: Curve, rest: Bytes)
    requires |vout| <= k <= n
    ensures ReadOuts(rest, Avail(vout, n), k, Partly(vout, |vout|, n), curve) == Some((Partly(vout, |vout|, n), rest))
    decreases n - k
  {
    if k < n {
      NothingMore(vout, k + 1, n, curve, rest);
    }
  }

  /** The mask reaches the last output of a trimmed record. */
  lemma MaskReaches(vout: seq<TxOut>)
    requires Trimmed(vout)
    ensures |vout| <= 2 + MaskSize(vout) * 8
  {
    if |vout| > 2 {
      var i := |vout| - 1;
      var b := (i - 2) / 8;
      ZeroByteIff(vout, b);
      assert Unspent(vout, i);
      assert b < Reach(vout);
      assert b < MaskSize(vout);
    }
  }

  /** Every unpruned, trimmed record with proper nulls and amounts is read back, except that a
      negative version comes back as its lowest seven bits: what the node reads is Stored(c). */
  lemma CoinsRoundTrip(c: Coins, curve: Curve, rest: Bytes)
    requires !c.IsPruned() && Trimmed(c.vout) && Amounts(c.vout) && curve.Sound()
    requires forall i | 0 <= i < |c.vout| :: c.vout[i].IsNull() ==> c.vout[i] == NULL_OUT
    ensures ReadCoins(CoinsBytes(c, curve) + rest, curve) == Some((Stored(c), rest))
  {
    hide ReadVar, VarInt, VarSigned, ReadMask, ReadOuts, Mask, Outs, Curve.Sound, Code, Avail, Partly, MaskSize, NonZero, ReadCoins,
         Trim, Trimmed, Amounts;
    UnprunedHasMask(c);
    var n, code := MaskSize(c.vout), Code(c);
    var t4 := VarInt(c.height) + rest;
    var t3 := Outs(c.vout, |c.vout|, curve) + t4;
    var t2 := Mask(c.vout, n) + t3;
    var t1 := VarInt(code) + t2;
    assert CoinsBytes(c, curve) + rest == VarSigned(c.version) + t1;
    VersionIsRead(c.version, t1);
    VarIntRoundTrip(code, t2);
    CodeIsRead(c);
    MaskReads(c.vout, t3);
    MaskReaches(c.vout);
    OutsRead(c.vout, 2 + n * 8, curve, t4);
    VarIntRoundTrip(c.height, rest);
    PartlyTrims(c.vout, 2 + n * 8);
    ReadInStages(CoinsBytes(c, curve) + rest, CutVersion(c.version), t1, code, t2,
                 Avail(c.vout, 2 + n * 8), t3, Partly(c.vout, |c.vout|, 2 + n * 8), t4, c.height, rest, curve);
  }

  /** The header code yields the flags, the first two outputs and the count of mask bytes. */
  lemma CodeIsRead(c: Coins)
    requires First(c) || Second(c) || NonZero(c.vout, Reach(c.vout)) > 0
    ensures var code := Code(c);
            && (code % 2 == 1 <==> c.coinBase) && (code / 2 % 2 == 1 <==> c.coinStake)
            && [code / 4 % 2 == 1, code / 8 % 2 == 1] == Avail(c.vout, 2)
            && code / 16 + Flag(code / 4 % 4 == 0, 1) == NonZero(c.vout, Reach(c.vout))
  {
    hide NonZero;
    CodeParts(NonZero(c.vout, Reach(c.vout)) - Flag(!First(c) && !Second(c), 1), c.coinBase, c.coinStake, First(c), Second(c));
  }

  lemma ReadInStages(s: Bytes, version: nat, s1: Bytes, code: nat, s2: Bytes, avail: seq<bool>, s3: Bytes,
                     vout: seq<TxOut>, s4: Bytes, height: nat, rest: Bytes, curve: Curve)
    requires ReadVar(s) == Some((version, s1)) && ReadVar(s1) == Some((code, s2))
    requires ReadMask(s2, code / 16 + Flag(code / 4 % 4 == 0, 1), [code / 4 % 2 == 1, code / 8 % 2 == 1]) == Some((avail, s3))
    requires ReadOuts(s3, avail, 0, seq(|avail|, _ => NULL_OUT), curve) == Some((vout, s4))
    requires ReadVar(s4) == Some((height, rest))
    ensures ReadCoins(s, curve) == Some((CleanedUp(Coins(code % 2 == 1, code / 2 % 2 == 1, vout, height, version)), rest))
  {
    hide ReadVar, ReadMask, ReadOuts;
  }

  lemma MaskReads(vout: seq<TxOut>, rest: Bytes)
    ensures ReadMask(Mask(vout, MaskSize(vout)) + rest, NonZero(vout, Reach(vout)), Avail(vout, 2))
              == Some((Avail(vout, 2 + MaskSize(vout) * 8), rest))
  {
    hide Avail, MaskByte, ReadMask;
    var n := MaskSize(vout);
    MaskSplits(vout, 0, n);
    NonZeroUpTo(vout, Reach(vout));
    MaskIsRead(vout, 0, n, rest);
    assert Mask(vout, 0) + MaskFrom(vout, 0, n) == MaskFrom(vout, 0, n);
  }

  lemma OutsRead(vout: seq<TxOut>, n: nat, curve: Curve, rest: Bytes)
    requires |vout| <= n && Amounts(vout) && curve.Sound()
    ensures |Avail(vout, n)| == n
    ensures ReadOuts(Outs(vout, |vout|, curve) + rest, Avail(vout, n), 0, seq(n, _ => NULL_OUT), curve)
              == Some((Partly(vout, |vout|, n), rest))
  {
    hide ReadOuts, Curve.Sound;
    OutsSplit(vout, 0, curve);
    assert Outs(vout, 0, curve) + OutsFrom(vout, 0, curve) == OutsFrom(vout, 0, curve);
    assert Partly(vout, 0, n) == seq(n, _ => NULL_OUT);
    OutsAreRead(vout, 0, n, curve, rest);
  }

  /** Cleanup brings the length back. */
  lemma PartlyTrims(vout: seq<TxOut>, n: nat)
    requires Trimmed(vout) && |vout| <= n
    requires forall i | 0 <= i < |vout| :: vout[i].IsNull() ==> vout[i] == NULL_OUT
    ensures Trim(Partly(vout, |vout|, n)) == vout
  {
    var p := Partly(vout, |vout|, n);
    assert p[..|vout|] == vout;
    TrimUnique(p, vout);
  }

  // ----- the source's loops -----

  /** Bits for outputs beyond the end are clear. */
  lemma {:induction false} NoMoreBits(vout: seq<TxOut>, base: nat, i: nat, k: nat)
    requires i <= k && base + i >= |vout|
    ensures MaskBits(vout, base, k) == MaskBits(vout, base, i)
  {
    if i < k {
      NoMoreBits(vout, base, i, k - 1);
    }
  }

  method WriteMaskByte(vout: seq<TxOut>, b: nat) returns (chAvail: Byte)
    ensures chAvail == MaskByte(vout, b)
  {
    hide Pow2, Or;
    Pow2Of8();
    var i := 0;
    var bits: nat := 0;
    while i < 8 && 2 + b * 8 + i < |vout|
      invariant 0 <= i <= 8 && bits == MaskBits(vout, 2 + b * 8, i)
    {
      if !vout[2 + b * 8 + i].IsNull() {
        OrDisjoint(bits, 1, i);
        bits := Or(bits, Pow2(i));
      }
      i := i + 1;
    }
    if i < 8 {
      NoMoreBits(vout, 2 + b * 8, i, 8);
    }
    chAvail := bits;
  }

  /** Serialize */
  method Serialize(c: Coins, curve: Curve) returns (s: Bytes)
    requires !c.IsPruned() && Amounts(c.vout)
    ensures s == CoinsBytes(c, curve)
  {
    hide VarInt, VarSigned, OutBytes, MaskByte, NonZero, MaskSize, Reach;
    var nMaskSize, nMaskCode := CalcMaskSize(c.vout);
    var fFirst := |c.vout| > 0 && !c.vout[0].IsNull();
    var fSecond := |c.vout| > 1 && !c.vout[1].IsNull();
    UnprunedHasMask(c);
    assert fFirst || fSecond || nMaskCode > 0;  // the assertion of src/coins.h:206
    var nCode := 16 * (nMaskCode - if fFirst || fSecond then 0 else 1)
                 + (if c.coinBase then 1 else 0) + (if c.coinStake then 2 else 0)
                 + (if fFirst then 4 else 0) + (if fSecond then 8 else 0);
    s := VarSigned(c.version) + VarInt(nCode);
    ghost var head := s;
    for b := 0 to nMaskSize
      invariant s == head + Mask(c.vout, b)
    {
      var chAvail := WriteMaskByte(c.vout, b);
      s := s + [chAvail];
    }
    head := s;
    for i := 0 to |c.vout|
      invariant s == head + Outs(c.vout, i, curve)
    {
      if !c.vout[i].IsNull() {
        s := s + OutBytes(c.vout[i], curve);
      }
    }
    s := s + VarInt(c.height);
  }

  /** The loop of Unserialize over the mask. */
  method UnserializeMask(start: Bytes, nMaskCode: nat, first: seq<bool>) returns (r: Option<(seq<bool>, Bytes)>)
    ensures r == ReadMask(start, nMaskCode, first)
  {
    var s, code, vAvail := start, nMaskCode, first;
    while code > 0
      invariant ReadMask(s, code, vAvail) == ReadMask(start, nMaskCode, first)
      decreases |s|
    {
      if s == [] {
        return None;
      }
      var chAvail := s[0];
      ghost var before := vAvail;
      for p := 0 to 8
        invariant vAvail == before + ByteBits(chAvail)[..p]
      {
        vAvail := vAvail + [BitOf(chAvail, p)];
      }
      assert vAvail == before + ByteBits(chAvail);
      s := s[1..];
      if chAvail != 0 {
        code := code - 1;
      }
    }
    return Some((vAvail, s));
  }

  /** The loop over the outputs. */
  method UnserializeOuts(start: Bytes, vAvail: seq<bool>, curve: Curve) returns (r: Option<(seq<TxOut>, Bytes)>)
    ensures r == ReadOuts(start, vAvail, 0, seq(|vAvail|, _ => NULL_OUT), curve)
  {
    hide ReadOut;
    var s := start;
    var vout := seq(|vAvail|, _ => NULL_OUT);
    for i := 0 to |vAvail|
      invariant |vout| == |vAvail|
      invariant ReadOuts(s, vAvail, i, vout, curve) == ReadOuts(start, vAvail, 0, seq(|vAvail|, _ => NULL_OUT), curve)
    {
      if vAvail[i] {
        var o := ReadOut(s, curve);
        if o.None? {
          return None;
        }
        vout := vout[i := o.value.0];
        s := o.value.1;
      }
    }
    return Some((vout, s));
  }

  /** Unserialize, into a record that is then cleaned up. */
  method Unserialize(s: Bytes, curve: Curve) returns (r: Option<(Coins, Bytes)>)
    ensures r == ReadCoins(s, curve)
  {
    hide ReadVar, ReadMask, ReadOuts;
    var version := ReadVarInt(s);
    if version.None? {
      return None;
    }
    var code := ReadVarInt(version.value.1);
    if code.None? {
      return None;
    }
    var nCode := code.value.0;
    var coinBase, coinStake := nCode % 2 == 1, nCode / 2 % 2 == 1;
    var vAvail := [nCode / 4 % 2 == 1, nCode / 8 % 2 == 1];
    var nMaskCode := nCode / 16 + if nCode / 4 % 4 != 0 then 0 else 1;
    var mask := UnserializeMask(code.value.1, nMaskCode, vAvail);
    if mask.None? {
      return None;
    }
    var outs := UnserializeOuts(mask.value.1, mask.value.0, curve);
    if outs.None? {
      return None;
    }
    var height := ReadVarInt(outs.value.1);
    if height.None? {
      return None;
    }
    var rec := new CoinsRecord(Coins(coinBase, coinStake, outs.value.0, height.value.0, version.value.0));
    rec.Cleanup();
    return Some((Coins(rec.coinBase, rec.coinStake, rec.vout, rec.height, rec.version), height.value.1));
  }

  /** Writing and reading a record gives it back exactly when its version is not negative. */
  method RoundTrip(c: Coins, curve: Curve) returns (c': Coins)
    requires !c.IsPruned() && Trimmed(c.vout) && Amounts(c.vout) && curve.Sound()
    requires forall i | 0 <= i < |c.vout| :: c.vout[i].IsNull() ==> c.vout[i] == NULL_OUT
    ensures c' == c <==> c.version >= 0
    ensures c'.(version := c.version) == c
  {
    hide Curve.Sound, CoinsBytes, ReadCoins, Amounts;
    var s := Serialize(c, curve);
    CoinsRoundTrip(c, curve, []);
    assert s + [] == s;
    var r := Unserialize(s, curve);
    c' := r.value.0;
  }
}
