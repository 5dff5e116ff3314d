/** The variable-length integers of the database format (src/serialize.h:484-514), compressed
    amounts and compressed scripts (src/compressor.cpp, src/compressor.h). */
module Serial {
  import opened Options
  import opened Coins
  import opened Powers

  type Bytes = seq<Byte>

  // ----- VARINT -----

  /** WriteVarInt, highest digit first; `flag` is 0x80 on all but the last byte. */
  function VarDigits(n: nat, flag: nat): Bytes
    requires flag == 0 || flag == 0x80
  {
    (if n <= 0x7f then [] else VarDigits(n / 128 - 1, 0x80)) + [n % 128 + flag]
  }

  function VarInt(n: nat): Bytes { VarDigits(n, 0) }

  /** A negative number is cut to its lowest seven bits. */
  function VarSigned(n: int): Bytes { if n < 0 then [n % 128] else VarInt(n) }

  /** ReadVarInt, with the digits read so far in `acc`. */
  function ReadVarFrom(acc: nat, s: Bytes): Option<(nat, Bytes)>
    decreases |s|
  {
    if s == [] then None
    else
      var n := acc * 128 + s[0] % 128;
      if s[0] >= 128 then ReadVarFrom(n + 1, s[1..]) else Some((n, s[1..]))
  }

  function ReadVar(s: Bytes): Option<(nat, Bytes)> { ReadVarFrom(0, s) }

  lemma {:induction false} ReadDigits(n: nat, flag: nat, rest: Bytes)
    requires flag == 0 || flag == 0x80
    ensures ReadVar(VarDigits(n, flag) + rest) == if flag == 0 then Some((n, rest)) else ReadVarFrom(n + 1, rest)
    decreases n
  {
    hide VarDigits, ReadVarFrom;
    var digit: Byte := n % 128 + flag;
    var tail := [digit] + rest;
    LastDigit(n, flag);
    if n <= 0x7f {
      assert VarDigits(n, flag) + rest == tail;
      ReadOneDigit(0, digit, rest);
    } else {
      var high := VarDigits(n / 128 - 1, 0x80);
      assert VarDigits(n, flag) + rest == high + tail;
      ReadDigits(n / 128 - 1, 0x80, tail);
      ReadOneDigit(n / 128, digit, rest);
    }
  }

  lemma LastDigit(n: nat, flag: nat)
    requires flag == 0 || flag == 0x80
    ensures VarDigits(n, flag) == (if n <= 0x7f then [] else VarDigits(n / 128 - 1, 0x80)) + [n % 128 + flag]
  {
  }

  lemma ReadOneDigit(acc: nat, digit: Byte, rest: Bytes)
    ensures var n := acc * 128 + digit % 128;
            ReadVarFrom(acc, [digit] + rest) == if digit >= 128 then ReadVarFrom(n + 1, rest) else Some((n, rest))
  {
    assert ([digit] + rest)[1..] == rest;
  }

  /** VARINT is invertible. */
  lemma VarIntRoundTrip(n: nat, rest: Bytes)
    ensures ReadVar(VarInt(n) + rest) == Some((n, rest))
  {
    ReadDigits(n, 0, rest);
  }

  /** A single byte below 128 is the VARINT of itself. */
  lemma SmallVar(b: Byte, rest: Bytes)
    requires b < 128
    ensures ReadVar([b] + rest) == Some((b, rest))
  {
    assert ([b] + rest)[1..] == rest;
  }

  /** A version is read back with what VARINT keeps of it. */
  lemma VersionIsRead(version: int, rest: Bytes)
    ensures ReadVar(VarSigned(version) + rest) == Some((CutVersion(version), rest))
  {
    hide ReadVar, VarInt;
    if version < 0 {
      SmallVar(version % 128, rest);
    } else {
      VarIntRoundTrip(version, rest);
    }
  }

  /** Writing what was read gives the same bytes. */
  lemma VersionIsStable(version: int)
    ensures VarSigned(CutVersion(version)) == VarSigned(version)
  {
    if version < 0 {
      assert VarDigits(version % 128, 0) == [version % 128];
    }
  }

  /** The bytes of a VARINT: all but the last have their top bit set. */
  predicate Ended(s: Bytes) { s != [] && s[|s| - 1] < 128 && forall i | 0 <= i < |s| - 1 :: s[i] >= 128 }

  lemma {:induction false} DigitsEnd(n: nat, flag: nat)
    requires flag == 0 || flag == 0x80
    ensures var s := VarDigits(n, flag);
            s != [] && (forall i | 0 <= i < |s| - 1 :: s[i] >= 128) && (s[|s| - 1] >= 128 <==> flag == 0x80)
    decreases n
  {
    if n > 0x7f {
      DigitsEnd(n / 128 - 1, 0x80);
    }
  }

  /** The number of `s`, from seven bits of each byte, first byte highest; every byte but the first
      counts one more for the byte before it. */
  function NumberOf(s: Bytes): nat
    requires s != []
  {
    s[|s| - 1] % 128 + if |s| == 1 then 0 else (NumberOf(s[..|s| - 1]) + 1) * 128
  }

  lemma NumberSplits(s: Bytes)
    requires s != []
    ensures if |s| == 1 then NumberOf(s) == s[0] % 128
            else NumberOf(s) / 128 - 1 == NumberOf(s[..|s| - 1]) && NumberOf(s) % 128 == s[|s| - 1] % 128 && NumberOf(s) > 0x7f
  {
  }

  lemma WithFlag(low: Byte)
    ensures low % 128 + (if low >= 128 then 0x80 else 0) == low && low % 128 % 128 == low % 128 <= 0x7f
  {
  }

  lemma {:induction false} DigitsOfNumber(s: Bytes)
    requires s != [] && forall i | 0 <= i < |s| - 1 :: s[i] >= 128
    ensures VarDigits(NumberOf(s), if s[|s| - 1] >= 128 then 0x80 else 0) == s
    decreases |s|
  {
    hide VarDigits, NumberOf;
    var high, low := s[..|s| - 1], s[|s| - 1];
    LastDigit(NumberOf(s), if low >= 128 then 0x80 else 0);
    NumberSplits(s);
    WithFlag(low);
    assert s == high + [low];
    if |s| > 1 {
      DigitsOfNumber(high);
    }
  }

  /** Every terminated string of bytes is the VARINT of one number, and nothing else is one: no
      redundancy. */
  lemma VarIntIsUnique(s: Bytes, n: nat)
    ensures VarInt(n) == s <==> Ended(s) && NumberOf(s) == n
  {
    DigitsEnd(n, 0);
    if Ended(s) {
      DigitsOfNumber(s);
      if VarInt(n) == s {
        VarIntRoundTrip(n, []);
        VarIntRoundTrip(NumberOf(s), []);
      }
    }
  }

  /** One byte up to 127, two up to 16511, three up to 2113663: written out. */
  lemma VarIntSizes(n: nat)
    ensures n < 128 ==> VarInt(n) == [n]
    ensures 128 <= n < 16512 ==> VarInt(n) == [128 + (n / 128 - 1), n % 128]
    ensures 16512 <= n < 2113664 ==> VarInt(n) == [128 + (n / 128 - 1) / 128 - 1, 128 + (n / 128 - 1) % 128, n % 128]
    ensures n >= 2113664 ==> |VarInt(n)| > 3
  {
    hide VarDigits;
    LastDigit(n, 0);
    if n >= 128 {
      var m := n / 128 - 1;
      LastDigit(m, 0x80);
      if m >= 128 {
        LastDigit(m / 128 - 1, 0x80);
        if m / 128 - 1 >= 128 {
          DigitsEnd((m / 128 - 1) / 128 - 1, 0x80);
        }
      }
    }
  }

  /** Two of the examples at src/serialize.h:463-469 are not what WriteVarInt writes: the comment has 80 FF 7F and
      82 FD 7F. */
  lemma DocumentedNumbers(n: nat)
    ensures n == 16511 ==> VarInt(n) == [0xff, 0x7f]
    ensures n == 65535 ==> VarInt(n) == [0x82, 0xfe, 0x7f]
  {
    hide VarInt;
    VarIntSizes(n);
  }

  /** A negative version becomes one byte, its lowest seven bits. */
  lemma NegativeVersion(n: nat)
    ensures VarSigned(-1 - n) == [127 - n % 128] && CutVersion(-1 - n) == 127 - n % 128
  {
  }

  // ----- amounts -----

  function Pow10(e: nat): (r: nat)
    ensures r >= 1
  {
    if e == 0 then 1 else 10 * Pow10(e - 1)
  }

  /** How often `n` can be divided by ten, at most up to nine times in all. */
  function Tens(n: nat, e: nat): (r: nat)
    requires n > 0 && e <= 9
    ensures e <= r <= 9
    decreases 9 - e
  {
    if n % 10 == 0 && e < 9 then Tens(n / 10, e + 1) else e
  }

  function Stripped(n: nat, e: nat): (r: nat)
    requires n > 0 && e <= 9
    ensures r > 0
    decreases 9 - e
  {
    if n % 10 == 0 && e < 9 then Stripped(n / 10, e + 1) else n
  }

  /** Dividing out the tens loses nothing, and leaves none behind below the limit. */
  lemma {:induction false} StripHolds(n: nat, e: nat)
    requires n > 0 && e <= 9
    ensures n == Stripped(n, e) * Pow10(Tens(n, e) - e)
    ensures Tens(n, e) < 9 ==> Stripped(n, e) % 10 != 0
    decreases 9 - e
  {
    if n % 10 == 0 && e < 9 {
      StripHolds(n / 10, e + 1);
      Tenfold(Stripped(n, e), Pow10(Tens(n, e) - (e + 1)));
    }
  }

  lemma Tenfold(a: nat, p: nat)
    ensures a * (10 * p) == 10 * (a * p)
  {
  }

  /** The last digit of `m`, never zero, packed as one of nine. */
  lemma PackDigit(m: nat, e: nat)
    requires m % 10 != 0 && e < 10
    ensures var y := m / 10 * 9 + m % 10 - 1;
            && y >= 0 && y / 9 == m / 10 && y % 9 + 1 == m % 10 && m / 10 * 10 + m % 10 == m
  {
  }

  function Compressed(n: nat): nat {
    if n == 0 then 0
    else
      var e, m := Tens(n, 0), Stripped(n, 0);
      if e < 9 then 1 + (m / 10 * 9 + m % 10 - 1) * 10 + e else 1 + (m - 1) * 10 + 9
  }

  function Decompressed(x: nat): nat {
    if x == 0 then 0
    else
      var e, y := (x - 1) % 10, (x - 1) / 10;
      Times(if e < 9 then y / 9 * 10 + (y % 9 + 1) else y + 1, Pow10(e))
  }

  /** DecompressAmount undoes CompressAmount. */
  lemma AmountRoundTrip(n: nat)
    ensures Decompressed(Compressed(n)) == n
  {
    hide Pow10, Tens, Stripped, Decompressed;
    if n == 0 {
      assert Decompressed(0) == 0 by { ExpandZero(); }
    } else {
      StripHolds(n, 0);
      ExpandPacked(Stripped(n, 0), Tens(n, 0));
    }
  }

  lemma ExpandZero()
    ensures Decompressed(0) == 0
  {
  }

  lemma ExpandPacked(m: nat, e: nat)
    requires m > 0 && e <= 9 && (e < 9 ==> m % 10 != 0)
    ensures var x := if e < 9 then 1 + (m / 10 * 9 + m % 10 - 1) * 10 + e else 1 + (m - 1) * 10 + 9;
            x >= 0 && Decompressed(x) == Times(m, Pow10(e))
  {
    hide Pow10, Times, Decompressed;
    if e < 9 {
      PackDigit(m, e);
      ExpandAt(m / 10 * 9 + m % 10 - 1, e);
    } else {
      ExpandAt(m - 1, e);
    }
  }

  lemma ExpandAt(y: nat, e: nat)
    requires e <= 9
    ensures Decompressed(1 + y * 10 + e) == Times(if e < 9 then y / 9 * 10 + (y % 9 + 1) else y + 1, Pow10(e))
  {
    hide Pow10, Times;
    TakeDigit(y, e);
  }

  lemma TakeDigit(y: nat, e: nat)
    requires e <= 9
    ensures (y * 10 + e) / 10 == y && (y * 10 + e) % 10 == e
  {
  }

  /** Stripping what has just been multiplied on. */
  lemma {:induction false} StripPow10(m: nat, k: nat, e: nat)
    requires m > 0 && e + k <= 9 && (e + k < 9 ==> m % 10 != 0)
    ensures m * Pow10(k) > 0 && Tens(m * Pow10(k), e) == e + k && Stripped(m * Pow10(k), e) == m
    decreases k
  {
    if k > 0 {
      hide Tens, Stripped;
      StripPow10(m, k - 1, e + 1);
      Tenfold(m, Pow10(k - 1));
      StripTen(m * Pow10(k - 1), e);
    }
  }

  lemma StripTen(p: nat, e: nat)
    requires p > 0 && e < 9
    ensures Tens(10 * p, e) == Tens(p, e + 1) && Stripped(10 * p, e) == Stripped(p, e + 1)
  {
    assert (10 * p) % 10 == 0 && (10 * p) / 10 == p;
  }

  /** ... and the other way round: every compressed value is used. */
  lemma AmountRoundTripBack(x: nat)
    ensures Compressed(Decompressed(x)) == x
  {
    if x != 0 {
      var e, y := (x - 1) % 10, (x - 1) / 10;
      var m := if e < 9 then y / 9 * 10 + (y % 9 + 1) else y + 1;
      StripPow10(m, e, 0);
      hide Pow10, Tens, Stripped;
      if e < 9 {
        UnpackDigit(y);
      }
    }
  }

  /** The format: powers of ten are divided out up to the ninth, and the last digit, which is not
      zero then, is stored as one of nine. */
  lemma CompressedIs(n: nat, d: nat, e: nat)
    ensures 1 <= d <= 9 && e < 9 ==> Compressed((10 * n + d) * Pow10(e)) == 1 + 10 * (9 * n + d - 1) + e
    ensures n > 0 ==> Compressed(n * Pow10(9)) == 1 + 10 * (n - 1) + 9
    ensures Compressed(0) == 0
  {
    hide Tens, Stripped;
    if 1 <= d <= 9 && e < 9 {
      var m := 10 * n + d;
      assert m % 10 == d && m / 10 == n;
      StripPow10(m, e, 0);
    }
    if n > 0 {
      StripPow10(n, 9, 0);
    }
  }

  lemma UnpackDigit(y: nat)
    ensures var m := y / 9 * 10 + (y % 9 + 1); m / 10 * 9 + m % 10 - 1 == y && m % 10 != 0
  {
  }

  /** The compressed amount of anything below 2^60 fits 64 bits. */
  lemma CompressedFits(n: nat)
    requires n <= 0x1000_0000_0000_0000
    ensures Compressed(n) <= 10 * n < 0x1_0000_0000_0000_0000
  {
    if n != 0 {
      StripHolds(n, 0);
      var e, m := Tens(n, 0), Stripped(n, 0);
      if e > 0 {
        assert Pow10(e) == 10 * Pow10(e - 1);
        assert n >= 10 * m by {
          StrippedIsLess(m, Pow10(e - 1), n);
        }
      }
    }
  }

  lemma StrippedIsLess(m: nat, p: nat, n: nat)
    requires p >= 1 && n == m * (10 * p)
    ensures n >= 10 * m
  {
  }

  method CompressAmount(amount: nat) returns (x: nat)
    ensures x == Compressed(amount)
  {
    if amount == 0 {
      return 0;
    }
    var n, e := amount, 0;
    while n % 10 == 0 && e < 9
      invariant n > 0 && e <= 9
      invariant Tens(n, e) == Tens(amount, 0) && Stripped(n, e) == Stripped(amount, 0)
      decreases 9 - e
    {
      n := n / 10;
      e := e + 1;
    }
    if e < 9 {
      var d := n % 10;
      assert 1 <= d <= 9 by { StripHolds(amount, 0); }  // the assertion of src/compressor.cpp:147
      n := n / 10;
      return 1 + (n * 9 + d - 1) * 10 + e;
    } else {
      return 1 + (n - 1) * 10 + 9;
    }
  }

  method DecompressAmount(amount: nat) returns (n: nat)
    ensures n == Decompressed(amount)
  {
    if amount == 0 {
      return 0;
    }
    var x := amount - 1;
    var e := x % 10;
    x := x / 10;
    if e < 9 {
      var d := x % 9 + 1;
      x := x / 9;
      n := x * 10 + d;
    } else {
      n := x + 1;
    }
    hide Times, Pow10;
    ghost var m, e0 := n, e;
    while e > 0
      invariant 0 <= e <= e0 && Times(n, Pow10(e)) == Times(m, Pow10(e0))
      decreases e
    {
      TimesTen(n, e);
      n := n * 10;
      e := e - 1;
    }
    TimesOne(n);
  }

  lemma TimesTen(n: nat, e: nat)
    requires e > 0
    ensures Times(n * 10, Pow10(e - 1)) == Times(n, Pow10(e))
  {
    Tenfold(n, Pow10(e - 1));
  }

  lemma TimesOne(n: nat)
    ensures Times(n, Pow10(0)) == n
  {
  }

  // ----- scripts -----

  const OP_DUP: Byte := 0x76
  const OP_EQUAL: Byte := 0x87
  const OP_EQUALVERIFY: Byte := 0x88
  const OP_HASH160: Byte := 0xa9
  const OP_CHECKSIG: Byte := 0xac
  const SPECIAL_SCRIPTS := 6

  /** Public keys on the curve: which 65-byte keys are valid, and how a 33-byte key expands. */
  datatype Curve = Curve(isValid: Bytes -> bool, expand: Bytes -> Option<Bytes>) {
    /** A valid key is found again from its first coordinate and the parity of the second. */
    ghost predicate Sound() {
      && (forall k: Bytes | |k| == 65 && k[0] == 4 && isValid(k) :: expand([2 + k[64] % 2] + k[1..33]) == Some(k))
      && (forall k: Bytes | expand(k).Some? :: |expand(k).value| == 65)
    }
  }

  predicate IsToKeyID(s: Script) {
    |s| == 25 && s[0] == OP_DUP && s[1] == OP_HASH160 && s[2] == 20 && s[23] == OP_EQUALVERIFY && s[24] == OP_CHECKSIG
  }

  predicate IsToScriptID(s: Script) { |s| == 23 && s[0] == OP_HASH160 && s[1] == 20 && s[22] == OP_EQUAL }

  predicate IsToShortKey(s: Script) { |s| == 35 && s[0] == 33 && s[34] == OP_CHECKSIG && (s[1] == 2 || s[1] == 3) }

  predicate IsToLongKey(s: Script, curve: Curve) {
    |s| == 67 && s[0] == 65 && s[66] == OP_CHECKSIG && s[1] == 4 && curve.isValid(s[1..66])
  }

  /** CScriptCompressor::Compress */
  function CompressScript(s: Script, curve: Curve): Option<Bytes> {
    if IsToKeyID(s) then Some([0] + s[3..23])
    else if IsToScriptID(s) then Some([1] + s[2..22])
    else if IsToShortKey(s) then Some(s[1..34])
    else if IsToLongKey(s, curve) then Some([4 + s[65] % 2] + s[2..34])
    else None
  }

  function SpecialSize(n: nat): nat { if n <= 1 then 20 else if n <= 5 then 32 else 0 }

  /** CScriptCompressor::Decompress; a key that does not expand leaves the script empty. */
  function DecompressScript(n: nat, data: Bytes, curve: Curve): Script
    requires n < SPECIAL_SCRIPTS && |data| == SpecialSize(n)
  {
    if n == 0 then [OP_DUP, OP_HASH160, 20] + data + [OP_EQUALVERIFY, OP_CHECKSIG]
    else if n == 1 then [OP_HASH160, 20] + data + [OP_EQUAL]
    else if n <= 3 then [33, n] + data + [OP_CHECKSIG]
    else match curve.expand([n - 2] + data)
         case Some(key) => [65] + key + [OP_CHECKSIG]
         case None => []
  }

  function ScriptBytes(s: Script, curve: Curve): Bytes {
    match CompressScript(s, curve)
    case Some(c) => c
    case None => VarInt(|s| + SPECIAL_SCRIPTS) + s
  }

  function ReadScript(s: Bytes, curve: Curve): Option<(Script, Bytes)> {
    match ReadVar(s)
    case None => None
    case Some((n, rest)) =>
      if n < SPECIAL_SCRIPTS then
        if |rest| < SpecialSize(n) then None
        else Some((DecompressScript(n, rest[..SpecialSize(n)], curve), rest[SpecialSize(n)..]))
      else if |rest| < n - SPECIAL_SCRIPTS then None
      else Some((rest[..n - SPECIAL_SCRIPTS], rest[n - SPECIAL_SCRIPTS..]))
  }

  /** The compressed form is a first byte below six, and what it needs. */
  lemma CompressedShape(s: Script, curve: Curve)
    requires CompressScript(s, curve).Some?
    ensures var c := CompressScript(s, curve).value; |c| > 0 && c[0] < SPECIAL_SCRIPTS && |c| == 1 + SpecialSize(c[0])
  {
  }

  /** Which scripts are special, and the bytes they become: a tag below six, then a hash or the first
      coordinate of a key. A script of any other length is written out behind its own size plus six. */
  lemma SpecialForms(h: Bytes, s: Script, curve: Curve)
    ensures |h| == 20 ==> ScriptBytes([0x76, 0xa9, 20] + h + [0x88, 0xac], curve) == [0] + h
    ensures |h| == 20 ==> ScriptBytes([0xa9, 20] + h + [0x87], curve) == [1] + h
    ensures |h| == 32 ==> ScriptBytes([33, 2] + h + [0xac], curve) == [2] + h
    ensures |h| == 32 ==> ScriptBytes([33, 3] + h + [0xac], curve) == [3] + h
    ensures |h| == 65 && h[0] == 4 && curve.isValid(h) ==>
              ScriptBytes([65] + h + [0xac], curve) == [if h[64] % 2 == 1 then 5 else 4] + h[1..33]
    ensures |s| !in {23, 25, 35, 67} ==> ScriptBytes(s, curve) == VarInt(|s| + 6) + s
  {
    hide VarInt;
    if |h| == 20 {
      var k, t := [0x76, 0xa9, 20] + h + [0x88, 0xac], [0xa9, 20] + h + [0x87];
      assert k[3..23] == h && t[2..22] == h;
    }
    if |h| == 32 {
      ShortKeyForm(2, h, curve);
      ShortKeyForm(3, h, curve);
    }
    if |h| == 65 {
      var k := [65] + h + [0xac];
      assert k[1..66] == h && k[2..34] == h[1..33] && k[65] == h[64];
    }
  }

  lemma ShortKeyForm(tag: Byte, x: Bytes, curve: Curve)
    requires (tag == 2 || tag == 3) && |x| == 32
    ensures ScriptBytes([33, tag] + x + [0xac], curve) == [tag] + x
  {
    var k := [33, tag] + x + [0xac];
    assert k[1..34] == [tag] + x;
  }

  lemma DecompressUndoes(s: Script, curve: Curve)
    requires curve.Sound() && CompressScript(s, curve).Some?
    ensures var c := CompressScript(s, curve).value;
            |c| > 0 && c[0] < SPECIAL_SCRIPTS && |c| == 1 + SpecialSize(c[0]) && DecompressScript(c[0], c[1..], curve) == s
  {
    CompressedShape(s, curve);
    var c := CompressScript(s, curve).value;
    if IsToKeyID(s) {
      assert c[1..] == s[3..23];
      assert [OP_DUP, OP_HASH160, 20] + s[3..23] + [OP_EQUALVERIFY, OP_CHECKSIG] == s;
    } else if IsToScriptID(s) {
      assert c[1..] == s[2..22];
      assert [OP_HASH160, 20] + s[2..22] + [OP_EQUAL] == s;
    } else if IsToShortKey(s) {
      assert c[1..] == s[2..34];
      assert [33, s[1]] + s[2..34] + [OP_CHECKSIG] == s;
    } else {
      var k := s[1..66];
      assert c[1..] == s[2..34] == k[1..33];
      assert [c[0] - 2] + c[1..] == [2 + k[64] % 2] + k[1..33];
      assert [65] + k + [OP_CHECKSIG] == s;
    }
  }

  /** Every script is read back, compressed or not. */
  lemma ScriptRoundTrip(s: Script, curve: Curve, rest: Bytes)
    requires curve.Sound()
    ensures ReadScript(ScriptBytes(s, curve) + rest, curve) == Some((s, rest))
  {
    hide ReadVar, VarInt, DecompressScript, CompressScript, Curve.Sound;
    match CompressScript(s, curve)
    case Some(c) =>
      DecompressUndoes(s, curve);
      assert c + rest == [c[0]] + (c[1..] + rest);
      SmallVar(c[0], c[1..] + rest);
      assert (c[1..] + rest)[..SpecialSize(c[0])] == c[1..];
      assert (c[1..] + rest)[SpecialSize(c[0])..] == rest;
    case None =>
      VarIntRoundTrip(|s| + SPECIAL_SCRIPTS, s + rest);
      assert VarInt(|s| + SPECIAL_SCRIPTS) + s + rest == VarInt(|s| + SPECIAL_SCRIPTS) + (s + rest);
      assert (s + rest)[..|s|] == s && (s + rest)[|s|..] == rest;
  }

  // ----- outputs -----

  function OutBytes(o: TxOut, curve: Curve): Bytes
    requires o.value >= 0
  {
    VarInt(Compressed(o.value)) + ScriptBytes(o.script, curve)
  }

  function ReadOut(s: Bytes, curve: Curve): Option<(TxOut, Bytes)> {
    match ReadVar(s)
    case None => None
    case Some((x, rest)) =>
      match ReadScript(rest, curve)
      case None => None
      case Some((script, rest')) => Some((TxOut(Decompressed(x), script), rest'))
  }

  lemma OutRoundTrip(o: TxOut, curve: Curve, rest: Bytes)
    requires o.value >= 0 && curve.Sound()
    ensures ReadOut(OutBytes(o, curve) + rest, curve) == Some((o, rest))
  {
    hide ReadVar, VarInt, ScriptBytes, ReadScript, Compressed, Decompressed, Curve.Sound;
    var x := Compressed(o.value);
    assert OutBytes(o, curve) + rest == VarInt(x) + (ScriptBytes(o.script, curve) + rest);
    VarIntRoundTrip(x, ScriptBytes(o.script, curve) + rest);
    ScriptRoundTrip(o.script, curve, rest);
    AmountRoundTrip(o.value);
  }

  // ----- the source's loops -----

  function Reverse(s: Bytes): Bytes { if s == [] then [] else Reverse(s[1..]) + [s[0]] }

  lemma {:induction false} ReverseSnoc(s: Bytes, b: Byte)
    ensures Reverse(s + [b]) == [b] + Reverse(s)
  {
    if s != [] {
      ReverseSnoc(s[1..], b);
      assert (s + [b])[1..] == s[1..] + [b];
    }
  }

  lemma ReverseNothing()
    ensures Reverse([]) == []
  {
  }

  lemma ReverseFront(s: Bytes)
    requires s != []
    ensures Reverse(s) == Reverse(s[1..]) + [s[0]]
  {
  }

  /** WriteVarInt: digits are found lowest first in a small buffer, and written in reverse. */
  method WriteVarInt(value: nat) returns (out: Bytes)
    ensures out == VarInt(value)
  {
    hide VarDigits, Reverse;
    var n, tmp: Bytes := value, [];
    ghost var done: Bytes := [];
    ReverseNothing();
    while true
      invariant done == Reverse(tmp)
      invariant VarDigits(n, if tmp == [] then 0 else 0x80) + done == VarInt(value)
      decreases n
    {
      var digit: Byte := n % 128 + if tmp == [] then 0 else 0x80;
      ReverseSnoc(tmp, digit);
      LastDigit(n, if tmp == [] then 0 else 0x80);
      ghost var before := done;
      tmp := tmp + [digit];
      done := [digit] + done;
      if n <= 0x7f {
        break;
      }
      n := n / 128 - 1;
      assert VarDigits(n, 0x80) + [digit] + before == VarDigits(n, 0x80) + done;
    }
    assert done == VarInt(value) && tmp[|tmp|..] == [];
    out := [];
    var len := |tmp|;
    while len > 0
      invariant 0 <= len <= |tmp| && out == Reverse(tmp[len..])
      decreases len
    {
      len := len - 1;
      assert tmp[len..][1..] == tmp[len + 1..];
      ReverseFront(tmp[len..]);
      out := out + [tmp[len]];
    }
  }

  /** ReadVarInt */
  method ReadVarInt(s: Bytes) returns (r: Option<(nat, Bytes)>)
    ensures r == ReadVar(s)
  {
    var n: nat, i: nat := 0, 0;
    while i < |s|
      invariant 0 <= i <= |s|
      invariant ReadVarFrom(n, s[i..]) == ReadVar(s)
    {
      var ch := s[i];
      assert s[i..][1..] == s[i + 1..];
      n := n * 128 + ch % 128;
      i := i + 1;
      if ch >= 128 {
        n := n + 1;
      } else {
        return Some((n, s[i..]));
      }
    }
    return None;
  }
}
