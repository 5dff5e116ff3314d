/** The compact form of 256-bit targets (src/arith_uint256.cpp:244-285): one byte of size, a sign
    bit and 23 bits of mantissa. */
module Compact {
  import opened Powers
  import opened ArithUint

  const SIGN := 0x80_0000
  const SIZE_UNIT := 0x100_0000

  /** The number of bits of `x`. */
  function BitLen(x: nat): (r: nat)
    ensures x < Pow2(r) && (r > 0 ==> x >= Pow2(r - 1)) && (r == 0 <==> x == 0)
  {
    if x == 0 then 0 else BitLen(x / 2) + 1
  }

  lemma BitLenIs(x: nat, r: nat)
    requires x < Pow2(r) && (r > 0 ==> x >= Pow2(r - 1))
    ensures r == BitLen(x)
  {
    var b := BitLen(x);
    if r < b {
      Pow2Grows(r, b - 1);
    } else if b < r {
      Pow2Grows(b, r - 1);
    }
  }

  /** The size byte: enough bytes for the number and a sign bit. */
  function SizeOf(x: nat): nat { if x == 0 then 0 else BitLen(x) / 8 + 1 }

  /** The weight of the lowest mantissa bit. */
  function Unit(size: nat): (u: nat)
    ensures u >= 1
  {
    if size <= 3 then 1 else Pow2(8 * (size - 3))
  }

  /** The mantissa: the highest bits of the number, or all of them moved up. */
  function Mantissa(x: nat): nat {
    var size := SizeOf(x);
    if size <= 3 then Times(x, Pow2(8 * (3 - size))) else Over(x, Unit(size))
  }

  function Encode(x: nat, negative: bool): nat {
    SizeOf(x) * SIZE_UNIT + Mantissa(x) + if negative && Mantissa(x) != 0 then SIGN else 0
  }

  /** What the compact form keeps: the number without the bits below its mantissa. */
  function Kept(x: nat): nat { Times(Over(x, Unit(SizeOf(x))), Unit(SizeOf(x))) }

  /** SetCompact on the word and size parts. */
  function DecodedWord(c: nat): nat {
    var size, word := c / SIZE_UNIT, c % SIGN;
    if size <= 3 then Over(word, Pow2(8 * (3 - size))) else word
  }

  function Decode(c: nat): nat {
    var size := c / SIZE_UNIT;
    if size <= 3 then DecodedWord(c) else Times(DecodedWord(c), Pow2(8 * (size - 3))) % Pow2(256)
  }

  predicate NegativeFlag(c: nat) { DecodedWord(c) != 0 && (c / SIGN) % 2 == 1 }

  predicate OverflowFlag(c: nat) {
    var size, word := c / SIZE_UNIT, DecodedWord(c);
    word != 0 && (size > 34 || (word > 0xff && size > 33) || (word > 0xffff && size > 32))
  }

  // ----- what the word means -----

  lemma WordParts(mantissa: nat, sign: bool, size: nat)
    requires mantissa < 0x80_0000 && size < 256
    ensures var c := size * 0x100_0000 + (if sign then 0x80_0000 else 0) + mantissa;
            c / SIZE_UNIT == size && c % SIGN == mantissa && ((c / SIGN) % 2 == 1 <==> sign)
  {
  }

  /** The word is an exponent of 256 in its top byte, a sign bit and 23 bits of mantissa: the number is
      mantissa * 256^(exponent - 3), without its fraction and in 256 bits. It counts as negative with
      the sign bit set unless it is zero. */
  lemma DecodeMeans(mantissa: nat, sign: bool, size: nat)
    requires mantissa < 0x80_0000 && size < 256
    ensures var c := size * 0x100_0000 + (if sign then 0x80_0000 else 0) + mantissa;
            && Decode(c) == (if size == 0 then mantissa / 0x100_0000 else if size == 1 then mantissa / 0x1_0000
                             else if size == 2 then mantissa / 0x100 else mantissa * Pow2(8 * (size - 3)) % Pow2(256))
            && (size >= 3 ==> (NegativeFlag(c) <==> sign && mantissa != 0))
            && (size < 3 ==> (NegativeFlag(c) <==> sign && Decode(c) != 0))
  {
    hide Pow2, BitLen;
    WordParts(mantissa, sign, size);
    SmallPowers();
    if size == 3 {
      DecodeThree(mantissa);
    }
  }

  lemma DecodeThree(m: nat)
    requires m < SIGN
    ensures Over(m, Pow2(0)) == m && m * Pow2(0) == m && m * Pow2(0) % Pow2(256) == m
  {
    hide Pow2;
    SmallPowers();
    Pow2Grows(23, 256);
    OverOne(m);
    ModUnique(m, 0, m, Pow2(256));
  }

  /** The overflow flag says exactly that the number does not fit 256 bits. */
  lemma OverflowIff(mantissa: nat, sign: bool, size: nat)
    requires mantissa < 0x80_0000 && 3 <= size < 256
    ensures var c := size * 0x100_0000 + (if sign then 0x80_0000 else 0) + mantissa;
            OverflowFlag(c) <==> mantissa * Pow2(8 * (size - 3)) >= Pow2(256)
  {
    hide Pow2, BitLen;
    WordParts(mantissa, sign, size);
    SmallPowers();
    DecodeThree(mantissa);
    var k := 8 * (size - 3);
    if size <= 34 {
      // 2^256 is 2^(256 - k) units
      Pow2Add(256 - k, k);
      if mantissa >= Pow2(256 - k) {
        MulMono(Pow2(256 - k), mantissa, Pow2(k));
      } else {
        LessTimes(mantissa, Pow2(256 - k), Pow2(k));
      }
      if size <= 32 {
        Pow2Grows(24, 256 - k);
      }
    } else {
      Pow2Grows(256, k);
      if mantissa > 0 {
        MulMono(1, mantissa, Pow2(k));
      }
    }
  }

  /** The size of a number is the least number of bytes that leaves room for a sign bit. */
  lemma SizeIs(x: nat)
    requires x > 0
    ensures SizeOf(x) >= 1 && x < Pow2(8 * SizeOf(x) - 1)
    ensures SizeOf(x) >= 2 ==> x >= Pow2(8 * (SizeOf(x) - 1) - 1)
  {
    hide Pow2, BitLen;
    var r := BitLen(x);
    Pow2Grows(r, 8 * SizeOf(x) - 1);
    if SizeOf(x) >= 2 {
      Pow2Grows(8 * (SizeOf(x) - 1) - 1, r - 1);
    }
  }

  // ----- the source's steps -----

  /** *this = uint64 */
  method SetLow(a: BaseUint, v: nat)
    requires a.Ok() && v < B
    modifies a.pn
    ensures a.Ok() && a.V() == v
  {
    a.SetZero();
    a.OrAt(0, v);
  }

  method SetCompact(a: BaseUint, nCompact: nat) returns (negative: bool, overflow: bool)
    requires a.Ok() && a.pn.Length == 8 && nCompact < B
    modifies a.pn
    ensures a.Ok() && a.V() == Decode(nCompact)
    ensures negative == NegativeFlag(nCompact) && overflow == OverflowFlag(nCompact)
  {
    hide Pow2, PowB, Or, Val;
    var nSize := nCompact / SIZE_UNIT;    // nCompact >> 24
    var nWord: nat := nCompact % SIGN;    // nCompact & 0x007fffff
    PowBIsPow2(8);
    if nSize <= 3 {
      ShrinkWord(nWord, 8 * (3 - nSize));
      nWord := nWord / Pow2(8 * (3 - nSize));
      SetLow(a, nWord);
    } else {
      SetLow(a, nWord);
      a.ShiftLeft(8 * (nSize - 3));
    }
    negative := nWord != 0 && (nCompact / SIGN) % 2 == 1;
    overflow := nWord != 0 && (nSize > 34 || (nWord > 0xff && nSize > 33) || (nWord > 0xffff && nSize > 32));
  }

  lemma ShrinkWord(w: nat, k: nat)
    ensures w / Pow2(k) <= w
  {
    hide Pow2;
    QuotientIsLess(w, Pow2(k));
  }

  lemma QuotientIsLess(w: nat, d: nat)
    requires d >= 1
    ensures w / d <= w
  {
    DivMod(w, d);
    MulMono(1, d, w / d);
  }

  method GetCompact(a: BaseUint, fNegative: bool) returns (nCompact: nat)
    requires a.Ok() && a.pn.Length == 8
    ensures nCompact == Encode(a.V(), fNegative)
  {
    hide Pow2, PowB, Or, Val, BitLen, Mantissa, SizeOf, Encode, FirstMantissa;
    ghost var x := a.V();
    a.InRange();
    PowBIsPow2(8);
    var bits := a.Bits();
    BitLenIs(x, bits);
    var nSize := (bits + 7) / 8;
    nCompact := TopThreeBytes(a, bits, nSize);
    FirstTry(x, nSize);
    // The sign bit must stay free: divide the mantissa by 256 and increase the exponent.
    if (nCompact / SIGN) % 2 == 1 {
      nCompact := nCompact / 256;
      nSize := nSize + 1;
    }
    assert nCompact < SIGN;    // the assertions of src/arith_uint256.cpp:280-281
    assert nSize < 256;
    EncodeJoins(x, fNegative);
    nCompact := Or(nCompact, nSize * SIZE_UNIT);
    nCompact := Or(nCompact, if fNegative && nCompact % SIGN != 0 then SIGN else 0);
  }

  /** The highest three bytes of the number, or all of it moved up. */
  method TopThreeBytes(a: BaseUint, bits: nat, nSize: nat) returns (nCompact: nat)
    requires a.Ok() && a.pn.Length == 8 && bits == BitLen(a.V()) && nSize == (bits + 7) / 8 <= 32
    ensures nCompact == FirstMantissa(a.V(), nSize)
  {
    hide Pow2, PowB, Val, BitLen;
    ghost var x := a.V();
    if nSize <= 3 {
      SmallBits(x, bits);
      LowLimb(a.pn[..]);
      nCompact := a.pn[0] * Pow2(8 * (3 - nSize));  // GetLow64() << 8 * (3 - nSize)
    } else {
      var bn := new BaseUint.Copy(a);
      bn.ShiftRight(8 * (nSize - 3));
      TopBytes(x, bits);
      LowLimb(bn.pn[..]);
      nCompact := bn.pn[0];  // bn.GetLow64()
    }
  }

  // ----- arithmetic behind GetCompact -----

  /** A number below the base is in its lowest limb. */
  lemma LowLimb(s: seq<nat>)
    requires |s| >= 1 && Limbs(s) && Val(s, |s|) < B
    ensures s[0] == Val(s, |s|)
  {
    var q := ValSplit(s, 1, |s|);
    assert PowB(1) == B && Val(s, 1) == s[0];
    if q > 0 {
      MulMono(1, q, B);
    }
  }

  lemma SmallBits(x: nat, bits: nat)
    requires x < Pow2(bits) && (bits + 7) / 8 <= 3
    ensures x < B
  {
    Pow2Grows(bits, 32);
    Pow2Of32();
  }

  /** Dividing by a power of two takes that many bits away. */
  lemma ShiftedBounds(x: nat, r: nat, k: nat)
    requires k < r && Pow2(r - 1) <= x < Pow2(r)
    ensures Pow2(r - 1 - k) <= x / Pow2(k) < Pow2(r - k)
  {
    Pow2Add(r - 1 - k, k);
    Pow2Add(r - k, k);
    assert r - 1 - k + k == r - 1 && r - k + k == r;
    DivMod(x, Pow2(k));
    var q := x / Pow2(k);
    if q < Pow2(r - 1 - k) {
      MulMono(q + 1, Pow2(r - 1 - k), Pow2(k));
      MulDist(q, 1, Pow2(k));
      assert false;
    }
    if q >= Pow2(r - k) {
      MulMono(Pow2(r - k), q, Pow2(k));
      assert false;
    }
  }

  lemma TopBytes(x: nat, bits: nat)
    requires bits > 0 && Pow2(bits - 1) <= x < Pow2(bits) && (bits + 7) / 8 > 3
    ensures x / Pow2(8 * ((bits + 7) / 8 - 3)) < B
  {
    var k := 8 * ((bits + 7) / 8 - 3);
    ShiftedBounds(x, bits, k);
    Pow2Grows(bits - k, 32);
    Pow2Of32();
  }

  lemma DivDiv(x: nat, a: nat, b: nat)
    requires a > 0 && b > 0
    ensures a * b > 0 && x / a / b == x / (a * b)
  {
    DivMod(x, a);
    var y := x / a;
    DivMod(y, b);
    MulMono(1, b, a);
    var q, r := y / b, x % a + a * (y % b);
    MulMono(y % b + 1, b, a);
    MulDist(y % b, 1, a);
    MulDist(q * b, y % b, a);
    MulAssoc(q, b, a);
    assert b * a == a * b;
    assert r < a * b;
    ModUnique(x, q, r, a * b);
  }

  lemma SmallPowers()
    ensures Pow2(0) == 1 && Pow2(8) == 0x100 && Pow2(16) == 0x1_0000 && Pow2(23) == SIGN && Pow2(24) == SIZE_UNIT
  {
    assert Pow2(7) == 128;
    Pow2Add(8, 8);
    Pow2Add(16, 8);
    Pow2Add(16, 7);
  }

  /** The mantissa as GetCompact first takes it, and when it reaches into the sign bit. */
  function FirstMantissa(x: nat, n: nat): nat {
    if n <= 3 then Times(x, Pow2(8 * (3 - n))) else Over(x, Pow2(8 * (n - 3)))
  }

  lemma FirstBounds(x: nat, r: nat, n: nat)
    requires r == BitLen(x) && n == (r + 7) / 8
    ensures FirstMantissa(x, n) < SIZE_UNIT && (FirstMantissa(x, n) >= SIGN <==> r > 0 && r == 8 * n)
  {
    hide Pow2, BitLen;
    SmallPowers();
    if x == 0 {
      DivZero(x, n);
    } else if n <= 3 {
      var k := 8 * (3 - n);
      Pow2Add(r, k);
      Pow2Add(r - 1, k);
      MulMono(Pow2(r - 1), x, Pow2(k));
      LessTimes(x, Pow2(r), Pow2(k));
      Pow2Grows(r + k, 24);
      if r == 8 * n {
        assert r - 1 + k == 23;
      } else {
        Pow2Grows(r + k, 23);
      }
    } else {
      var k := 8 * (n - 3);
      ShiftedBounds(x, r, k);
      Pow2Grows(r - k, 24);
      if r == 8 * n {
        assert r - 1 - k == 23;
      } else {
        Pow2Grows(r - k, 23);
      }
    }
  }

  lemma DivZero(x: nat, n: nat)
    requires x == 0
    ensures FirstMantissa(x, n) == 0 && BitLen(x) == 0
  {
    ModUnique(0, 0, 0, Pow2(8 * (if n > 3 then n - 3 else 0)));
  }

  lemma FirstTry(x: nat, n: nat)
    requires n == (BitLen(x) + 7) / 8 && BitLen(x) <= 256
    ensures var m := FirstMantissa(x, n);
            && m < SIZE_UNIT
            && (if (m / SIGN) % 2 == 1 then SizeOf(x) == n + 1 && Mantissa(x) == m / 256 && n > 0
                else SizeOf(x) == n && Mantissa(x) == m)
            && Mantissa(x) < SIGN && SizeOf(x) <= 33
  {
    hide BitLen, Pow2;
    var r, m := BitLen(x), FirstMantissa(x, n);
    FirstBounds(x, r, n);
    if m >= SIGN {
      ModUnique(m, 1, m - SIGN, SIGN);
      assert r / 8 == n;
      SmallPowers();
      if n + 1 <= 3 {
        Pow2Add(8 * (3 - (n + 1)), 8);
        MulAssoc(x, Pow2(8 * (3 - (n + 1))), 256);
        ModUnique(m, x * Pow2(8 * (3 - (n + 1))), 0, 256);
      } else if n > 3 {
        DivDiv(x, Pow2(8 * (n - 3)), 256);
        Pow2Add(8 * (n - 3), 8);
      } else {
        MulOne(x);
      }
    } else {
      ModUnique(m, 0, m, SIGN);
      if x != 0 {
        assert r / 8 == n - 1;
      }
    }
  }

  lemma MulOne(x: nat)
    ensures x * Pow2(0) == x
  {
  }

  /** Putting mantissa, size and sign together: they share no bits. */
  lemma JoinParts(m: nat, size: nat)
    requires m < SIGN
    ensures Or(m, size * SIZE_UNIT) == m + size * SIZE_UNIT
    ensures (m + size * SIZE_UNIT) % SIGN == m
    ensures Or(m + size * SIZE_UNIT, SIGN) == m + size * SIZE_UNIT + SIGN && Or(m + size * SIZE_UNIT, 0) == m + size * SIZE_UNIT
  {
    hide Pow2;
    SmallPowers();
    OrDisjoint(m, size, 24);
    ModUnique(m + size * SIZE_UNIT, 2 * size, m, SIGN);
    JoinSign(m, size);
    OrZero(m + size * SIZE_UNIT);
  }

  lemma OrZero(x: nat)
    ensures Or(x, 0) == x
  {
  }

  lemma EncodeJoins(x: nat, negative: bool)
    requires Mantissa(x) < SIGN
    ensures var c := Or(Mantissa(x), SizeOf(x) * SIZE_UNIT);
            c % SIGN == Mantissa(x) && Encode(x, negative) == Or(c, if negative && c % SIGN != 0 then SIGN else 0)
  {
    hide Mantissa, SizeOf, Or;
    JoinParts(Mantissa(x), SizeOf(x));
  }

  lemma JoinSign(m: nat, size: nat)
    requires m < SIGN
    ensures Or(m + size * SIZE_UNIT, SIGN) == m + size * SIZE_UNIT + SIGN
  {
    hide Pow2, Or;
    SmallPowers();
    // size * SIZE_UNIT is 2 * size units of the sign bit, an even number
    OrSplit(2 * size, 1, m, 23);
    PowOne();
    OrDisjoint(1, size, 1);
  }

  lemma PowOne()
    ensures Pow2(1) == 2
  {
  }

  /** Or works on the upper bits alone when the other number has no lower ones. */
  lemma {:induction false} OrSplit(a: nat, b: nat, low: nat, s: nat)
    requires low < Pow2(s)
    ensures Or(low + a * Pow2(s), b * Pow2(s)) == low + Or(a, b) * Pow2(s)
    decreases s
  {
    hide Or;
    if s > 0 {
      var p := Pow2(s - 1);
      assert Pow2(s) == 2 * p;
      OrSplit(a, b, low / 2, s - 1);
      Doubled(a, p);
      Doubled(b, p);
      Doubled(Or(a, b), p);
      OrHalves(low + a * Pow2(s), b * Pow2(s));
    }
  }

  lemma Doubled(a: nat, p: nat)
    ensures a * (2 * p) == 2 * (a * p)
  {
    MulAssoc(a, 2, p);
    MulAssoc(2, a, p);
  }

  lemma OrHalves(x: nat, y: nat)
    ensures Or(x, y) == 2 * Or(x / 2, y / 2) + if x % 2 == 1 || y % 2 == 1 then 1 else 0
  {
  }

  // ----- what the form keeps -----

  lemma EncodeParts(x: nat, negative: bool)
    requires x < Pow2(256)
    ensures var c := Encode(x, negative);
            && c < B && c / SIZE_UNIT == SizeOf(x) <= 33 && c % SIGN == Mantissa(x) < SIGN
            && ((c / SIGN) % 2 == 1 <==> negative && Mantissa(x) != 0)
  {
    hide BitLen, Mantissa, Pow2;
    BitsBelow(x, 256);
    FirstTry(x, (BitLen(x) + 7) / 8);
    var c, size, m := Encode(x, negative), SizeOf(x), Mantissa(x);
    var sign := if negative && m != 0 then SIGN else 0;
    ModUnique(c, size, m + sign, SIZE_UNIT);
    ModUnique(c, 2 * size + sign / SIGN, m, SIGN);
  }

  lemma {:induction false} BitsBelow(x: nat, n: nat)
    requires x < Pow2(n)
    ensures BitLen(x) <= n
  {
    if BitLen(x) > n {
      Pow2Grows(n, BitLen(x) - 1);
    }
  }

  lemma KeptIsBelow(x: nat)
    ensures Kept(x) <= x && x - Kept(x) < Unit(SizeOf(x))
  {
    hide SizeOf, Unit;
    DivMod(x, Unit(SizeOf(x)));
  }

  /** Decoding what was encoded gives the number without the bits below its mantissa, and neither
      flag except for the sign asked for. */
  lemma DecodeEncode(x: nat, negative: bool)
    requires x < Pow2(256)
    ensures var c := Encode(x, negative);
            && Decode(c) == Kept(x) && !OverflowFlag(c)
            && (NegativeFlag(c) <==> negative && Mantissa(x) != 0)
  {
    var c, size, m := Encode(x, negative), SizeOf(x), Mantissa(x);
    hide BitLen, Pow2, Encode;
    EncodeParts(x, negative);
    KeptIsBelow(x);
    if size <= 3 {
      var k := 8 * (3 - size);
      ModUnique(m, x, 0, Pow2(k));
      assert x != 0 <==> m != 0 by {
        TimesZero(x, Pow2(k));
      }
      OverOne(x);
    } else {
      ModUnique(Kept(x), 0, Kept(x), Pow2(256));
      if size == 33 {
        TopWord(x);
      }
    }
  }

  lemma OverOne(x: nat)
    ensures x / 1 * 1 == x
  {
  }

  lemma TimesZero(x: nat, p: nat)
    requires p >= 1
    ensures x * p == 0 <==> x == 0
  {
    if x > 0 {
      MulMono(1, x, p);
    }
  }

  /** With the largest size the mantissa has at most two bytes. */
  lemma TopWord(x: nat)
    requires x < Pow2(256) && SizeOf(x) == 33
    ensures Mantissa(x) <= 0xffff
  {
    hide Pow2, BitLen;
    BitsBelow(x, 256);
    assert BitLen(x) == 256;
    ShiftedBounds(x, 256, 240);
    SmallPowers();
  }

  /** A multiple of `u` below `x` stays below when `x` is cut to a multiple of `u`. */
  lemma FloorKeeps(t: nat, q: nat, u: nat, x: nat)
    requires u > 0 && t == q * u && t <= x
    ensures t <= x / u * u
  {
    DivMod(x, u);
    if x / u < q {
      MulMono(x / u + 1, q, u);
      MulDist(x / u, 1, u);
    }
  }

  /** The highest bit survives. */
  lemma KeptSameBits(x: nat)
    ensures BitLen(Kept(x)) == BitLen(x)
  {
    var r, size := BitLen(x), SizeOf(x);
    hide BitLen, Pow2;
    KeptIsBelow(x);
    if x == 0 {
      BitLenIs(0, 0);
    } else if size <= 3 {
      OverOne(x);
    } else {
      var k := 8 * (size - 3);
      Pow2Add(r - 1 - k, k);
      assert r - 1 - k + k == r - 1;
      FloorKeeps(Pow2(r - 1), Pow2(r - 1 - k), Pow2(k), x);
      BitLenIs(Kept(x), r);
    }
  }

  /** Encoding the decoded number gives the same word again. */
  lemma EncodeIsStable(x: nat)
    requires x < Pow2(256)
    ensures Encode(Decode(Encode(x, false)), false) == Encode(x, false)
  {
    DecodeEncode(x, false);
    KeptSameBits(x);
    hide BitLen, Pow2, Encode, Decode;
    var k := Kept(x);
    KeptIsBelow(x);
    assert SizeOf(k) == SizeOf(x) by {
      NoBits(x);
      NoBits(k);
    }
    ModUnique(k, x / Unit(SizeOf(x)), 0, Unit(SizeOf(x)));
    if SizeOf(x) <= 3 {
      OverOne(x);
    }
    SameParts(k, x);
  }

  lemma NoBits(x: nat)
    ensures BitLen(x) == 0 <==> x == 0
  {
  }

  lemma SameParts(a: nat, b: nat)
    requires SizeOf(a) == SizeOf(b) && Mantissa(a) == Mantissa(b)
    ensures Encode(a, false) == Encode(b, false)
  {
  }

  lemma BitLenGrows(a: nat, b: nat)
    requires a <= b
    ensures BitLen(a) <= BitLen(b)
  {
    BitsBelow(a, BitLen(b));
  }

  /** Cutting keeps the order. */
  lemma KeptIsMonotone(a: nat, b: nat)
    requires a <= b
    ensures Kept(a) <= Kept(b)
  {
    hide BitLen, Pow2, Unit;
    BitLenGrows(a, b);
    SizeGrows(a, b);
    KeptIsBelow(a);
    KeptIsBelow(b);
    if SizeOf(a) == SizeOf(b) {
      FloorKeeps(Kept(a), a / Unit(SizeOf(a)), Unit(SizeOf(a)), b);
    } else {
      KeptSameBits(b);
      SameBitsAbove(a, b);
    }
  }

  lemma SizeGrows(a: nat, b: nat)
    requires BitLen(a) <= BitLen(b)
    ensures SizeOf(a) <= SizeOf(b)
  {
    NoBits(a);
    NoBits(b);
  }

  /** A number with a smaller size byte lies below everything with a larger one. */
  lemma SameBitsAbove(a: nat, b: nat)
    requires SizeOf(a) < SizeOf(b) && BitLen(Kept(b)) == BitLen(b)
    ensures a <= Kept(b)
  {
    hide BitLen, Pow2, Kept;
    if a != 0 {
      assert BitLen(a) < BitLen(b);
      Pow2Grows(BitLen(a), BitLen(b) - 1);
    }
  }
}
