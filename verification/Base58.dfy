/** Base58 strings (src/base58.cpp:19-161): bytes as a number in another base, with leading zero
    bytes kept as leading ones. */
module Base58 {
  import opened Options
  import opened Coins
  import opened Digits
  import opened Serial

  /** All alphanumeric characters but 0, I, O and l, in runs of consecutive codes. */
  const ALPHABET := "123456789" + "ABCDEFGH" + "JKLMN" + "PQRSTUVWXYZ" + "abcdefghijk" + "mnopqrstuvwxyz"

  function IndexOf(c: char, k: nat): (r: Option<nat>)
    requires k <= |ALPHABET|
    ensures r.Some? ==> k <= r.value < |ALPHABET| && ALPHABET[r.value] == c
    ensures r.None? ==> forall i | k <= i < |ALPHABET| :: ALPHABET[i] != c
    decreases |ALPHABET| - k
  {
    if k == |ALPHABET| then None else if ALPHABET[k] == c then Some(k) else IndexOf(c, k + 1)
  }

  /** No character occurs twice. */
  lemma AlphabetDistinct(i: nat, j: nat)
    requires i < 58 && j < 58 && ALPHABET[i] == ALPHABET[j]
    ensures i == j
  {
    CharsDescribe(i);
    CharsDescribe(j);
  }

  /** Where a character stands, from its code. */
  function PlaceOf(c: char): int {
    var n := c as int;
    if n <= '9' as int then n - '1' as int
    else if n <= 'H' as int then n - 'A' as int + 9
    else if n <= 'N' as int then n - 'J' as int + 17
    else if n <= 'Z' as int then n - 'P' as int + 22
    else if n <= 'k' as int then n - 'a' as int + 33
    else n - 'm' as int + 44
  }

  lemma CharsDescribe(i: nat)
    requires i < 58
    ensures |ALPHABET| == 58 && PlaceOf(ALPHABET[i]) == i && !IsSpace(ALPHABET[i])
  {
    if i < 22 {
      LowChars(i);
    } else {
      HighChars(i);
    }
  }

  lemma LowChars(i: nat)
    requires i < 22
    ensures |ALPHABET| == 58 && PlaceOf(ALPHABET[i]) == i && !IsSpace(ALPHABET[i])
  {
    if i < 9 {
      assert ALPHABET[i] == "123456789"[i];
    } else if i < 17 {
      assert ALPHABET[i] == "ABCDEFGH"[i - 9];
    } else {
      assert ALPHABET[i] == "JKLMN"[i - 17];
    }
  }

  lemma HighChars(i: nat)
    requires 22 <= i < 58
    ensures |ALPHABET| == 58 && PlaceOf(ALPHABET[i]) == i && !IsSpace(ALPHABET[i])
  {
    if i < 33 {
      assert ALPHABET[i] == "PQRSTUVWXYZ"[i - 22];
    } else if i < 44 {
      assert ALPHABET[i] == "abcdefghijk"[i - 33];
    } else {
      assert ALPHABET[i] == "mnopqrstuvwxyz"[i - 44];
    }
  }

  predicate IsAlphanumeric(c: char) { '0' <= c <= '9' || 'A' <= c <= 'Z' || 'a' <= c <= 'z' }

  /** The digits are the alphanumeric characters except 0, I, O and l, in the order of their codes. */
  lemma AlphabetIs(i: nat, j: nat, c: char)
    requires i < j < 58
    ensures |ALPHABET| == 58 && ALPHABET[i] < ALPHABET[j]
    ensures c in ALPHABET <==> IsAlphanumeric(c) && c !in "0IOl"
  {
    CharsDescribe(i);
    CharsDescribe(j);
    if c in ALPHABET {
      var k :| 0 <= k < |ALPHABET| && ALPHABET[k] == c;
      CharsDescribe(k);
      CharIsAllowed(k);
    }
    CharIsAllowed(i);
    CharIsAllowed(j);
    if IsAlphanumeric(c) && c !in "0IOl" {
      CharHasPlace(c);
    }
  }

  lemma CharIsAllowed(i: nat)
    requires i < 58
    ensures |ALPHABET| == 58 && IsAlphanumeric(ALPHABET[i]) && ALPHABET[i] !in "0IOl"
  {
    if i < 22 {
      LowIsAllowed(i);
    } else {
      HighIsAllowed(i);
    }
  }

  lemma LowIsAllowed(i: nat)
    requires i < 22
    ensures |ALPHABET| == 58 && IsAlphanumeric(ALPHABET[i]) && ALPHABET[i] !in "0IOl"
  {
    if i < 9 {
      assert ALPHABET[i] == "123456789"[i];
    } else if i < 17 {
      assert ALPHABET[i] == "ABCDEFGH"[i - 9];
    } else {
      assert ALPHABET[i] == "JKLMN"[i - 17];
    }
  }

  lemma HighIsAllowed(i: nat)
    requires 22 <= i < 58
    ensures |ALPHABET| == 58 && IsAlphanumeric(ALPHABET[i]) && ALPHABET[i] !in "0IOl"
  {
    if i < 33 {
      assert ALPHABET[i] == "PQRSTUVWXYZ"[i - 22];
    } else if i < 44 {
      assert ALPHABET[i] == "abcdefghijk"[i - 33];
    } else {
      assert ALPHABET[i] == "mnopqrstuvwxyz"[i - 44];
    }
  }

  lemma CharHasPlace(c: char)
    requires IsAlphanumeric(c) && c !in "0IOl"
    ensures 0 <= PlaceOf(c) < 58 == |ALPHABET| && ALPHABET[PlaceOf(c)] == c
  {
    var n, p := c as int, PlaceOf(c);
    assert c != '0' && c != 'I' && c != 'O' && c != 'l';
    if p < 22 {
      LowPlace(c);
    } else {
      HighPlace(c);
    }
  }

  lemma LowPlace(c: char)
    requires IsAlphanumeric(c) && c != '0' && c != 'I' && c != 'O' && c != 'l' && PlaceOf(c) < 22
    ensures 0 <= PlaceOf(c) < 58 == |ALPHABET| && ALPHABET[PlaceOf(c)] == c
  {
    var p := PlaceOf(c);
    LowChars(p);
    assert ALPHABET[p] as int == c as int;
  }

  lemma HighPlace(c: char)
    requires IsAlphanumeric(c) && c != '0' && c != 'I' && c != 'O' && c != 'l' && PlaceOf(c) >= 22
    ensures 0 <= PlaceOf(c) < 58 == |ALPHABET| && ALPHABET[PlaceOf(c)] == c
  {
    var p := PlaceOf(c);
    HighChars(p);
    assert ALPHABET[p] as int == c as int;
  }

  lemma IndexOfChar(i: nat)
    requires i < 58
    ensures |ALPHABET| == 58 && IndexOf(ALPHABET[i], 0) == Some(i)
  {
    CharsDescribe(i);
    var r := IndexOf(ALPHABET[i], 0);
    if r.Some? {
      AlphabetDistinct(r.value, i);
    }
  }

  predicate IsSpace(c: char) { c == ' ' || c == '\t' || c == '\n' || c == '\r' || c as int == 11 || c as int == 12 }

  // ----- what the strings mean -----

  function Ones(n: nat): (s: string)
    ensures |s| == n && forall i | 0 <= i < n :: s[i] == '1'
  {
    seq(n, _ => '1')
  }

  function Letters(digits: seq<nat>): (s: string)
    requires InBase(digits, 58)
    ensures |s| == |digits|
  {
    CharsDescribe(0);
    seq(|digits|, i requires 0 <= i < |digits| => ALPHABET[digits[i]])
  }

  function NullBytes(n: nat): seq<nat> { seq(n, _ => 0) }

  /** One digit '1' for each leading zero byte, then the rest as a number in base 58. */
  function Encoded(v: seq<nat>): string
    requires InBase(v, 256)
  {
    Ones(Zeroes(v)) + Letters(DigitsOf(Num(v, 256), 58))
  }

  function CountOnes(s: string): (n: nat)
    ensures n <= |s| && (forall i | 0 <= i < n :: s[i] == '1') && (n < |s| ==> s[n] != '1')
  {
    if s != "" && s[0] == '1' then 1 + CountOnes(s[1..]) else 0
  }

  function SkipSpaces(s: string): (r: string)
    ensures r != "" ==> !IsSpace(r[0])
  {
    if s != "" && IsSpace(s[0]) then SkipSpaces(s[1..]) else s
  }

  /** The digits up to the first space or the end, and what follows; none for a foreign character. */
  function ReadDigits58(s: string): Option<(seq<nat>, string)> {
    if s == "" || IsSpace(s[0]) then Some(([], s))
    else match IndexOf(s[0], 0)
         case None => None
         case Some(d) =>
           match ReadDigits58(s[1..])
           case None => None
           case Some((ds, rest)) => Some(([d] + ds, rest))
  }

  function Decoded(str: string): Option<seq<nat>> {
    var s := SkipSpaces(str);
    var zeroes := CountOnes(s);
    match ReadDigits58(s[zeroes..])
    case None => None
    case Some((ds, rest)) =>
      if SkipSpaces(rest) != "" then None else Some(NullBytes(zeroes) + DigitsOf(Num(ds, 58), 256))
  }

  /** The characters by code: spaces in front, from 9 to 13 or 32, do not count, and a string that begins with
      any other character but a digit is refused. */
  lemma FirstCharDecides(c: char, s: string)
    ensures c as int in {9, 10, 11, 12, 13, 32} ==> Decoded([c] + s) == Decoded(s)
    ensures c as int !in {9, 10, 11, 12, 13, 32} && !(IsAlphanumeric(c) && c !in "0IOl") ==> Decoded([c] + s) == None
  {
    hide ReadDigits58, CountOnes;
    var t := [c] + s;
    assert t[1..] == s && t[0] == c;
    if IsSpace(c) {
      assert SkipSpaces(t) == SkipSpaces(s);
    } else if !(IsAlphanumeric(c) && c !in "0IOl") {
      assert SkipSpaces(t) == t;
      StrangerIsRefused(t);
    }
  }

  lemma StrangerIsRefused(t: string)
    requires t != "" && !IsSpace(t[0]) && !(IsAlphanumeric(t[0]) && t[0] !in "0IOl")
    ensures CountOnes(t) == 0 && ReadDigits58(t[0..]) == None
  {
    AlphabetIs(0, 1, t[0]);
    AlphabetIs(0, 1, '1');
    assert t[0..] == t;
  }

  lemma {:induction false} DigitsInBase(s: string)
    ensures match ReadDigits58(s) case None => true case Some((ds, rest)) => InBase(ds, 58) && |ds| + |rest| == |s|
  {
    if s != "" && !IsSpace(s[0]) {
      CharsDescribe(0);
      DigitsInBase(s[1..]);
    }
  }

  // ----- decoding an encoded string -----

  lemma {:induction false} LettersAreRead(ds: seq<nat>, rest: string)
    requires InBase(ds, 58) && (rest == "" || IsSpace(rest[0]))
    ensures ReadDigits58(Letters(ds) + rest) == Some((ds, rest))
  {
    hide ReadDigits58, IndexOf, IsSpace, Letters;
    var s := Letters(ds) + rest;
    if ds == [] {
      assert s == rest;
      ReadStops(rest);
    } else {
      FrontLetter(ds, rest);
      LettersAreRead(ds[1..], rest);
      ReadDigit(s);
      assert [ds[0]] + ds[1..] == ds;
    }
  }

  lemma FrontLetter(ds: seq<nat>, rest: string)
    requires InBase(ds, 58) && ds != []
    ensures var s := Letters(ds) + rest;
            s != "" && !IsSpace(s[0]) && IndexOf(s[0], 0) == Some(ds[0]) && s[1..] == Letters(ds[1..]) + rest
  {
    hide IndexOf, IsSpace;
    CharsDescribe(ds[0]);
    IndexOfChar(ds[0]);
  }

  lemma {:induction false} OnesAreCounted(n: nat, s: string)
    requires s != "" ==> s[0] != '1'
    ensures CountOnes(Ones(n) + s) == n
  {
    if n > 0 {
      assert (Ones(n) + s)[1..] == Ones(n - 1) + s;
      OnesAreCounted(n - 1, s);
    }
  }

  /** The first letter of a number is not a one. */
  lemma FirstLetter(ds: seq<nat>)
    requires InBase(ds, 58) && ds != [] && ds[0] != 0
    ensures Letters(ds)[0] != '1' && !IsSpace(Letters(ds)[0])
  {
    CharsDescribe(ds[0]);
    CharsDescribe(0);
    assert PlaceOf('1') == 0;
  }

  lemma ZeroesAndNumber(v: seq<nat>)
    requires InBase(v, 256)
    ensures NullBytes(Zeroes(v)) + DigitsOf(Num(v, 256), 256) == v
  {
    hide Num, DigitsOf;
    BufferDigits(v, 256);
    assert NullBytes(Zeroes(v)) == v[..Zeroes(v)];
  }

  /** Decoding undoes encoding, for every byte string. */
  lemma DecodeEncode(v: seq<nat>)
    requires InBase(v, 256)
    ensures Decoded(Encoded(v)) == Some(v)
  {
    hide ReadDigits58, CountOnes, Letters, DigitsOf, Num, Zeroes, Ones;
    var ds := DigitsOf(Num(v, 256), 58);
    var s := Encoded(v);
    if ds != [] {
      FirstLetter(ds);
    }
    assert s == "" || !IsSpace(s[0]);
    assert SkipSpaces(s) == s;
    OnesAreCounted(Zeroes(v), Letters(ds));
    assert s[Zeroes(v)..] == Letters(ds);
    assert Letters(ds) + "" == Letters(ds);
    LettersAreRead(ds, "");
    NumOfDigits(Num(v, 256), 58);
    ZeroesAndNumber(v);
  }

  // ----- encoding a decoded string -----

  /** The string without the spaces around it. */
  function Trimmed58(str: string): string
    requires Decoded(str).Some?
  {
    var s := SkipSpaces(str);
    var rest := ReadDigits58(s[CountOnes(s)..]).value.1;
    DigitsInBase(s[CountOnes(s)..]);
    s[..|s| - |rest|]
  }

  lemma LettersFront(d: nat, ds: seq<nat>)
    requires d < 58 && InBase(ds, 58)
    ensures Letters([d] + ds) == [ALPHABET[d]] + Letters(ds)
  {
    CharsDescribe(0);
    hide IndexOf;
  }

  lemma {:induction false} DigitsAreLetters(s: string)
    requires ReadDigits58(s).Some?
    ensures var (ds, rest) := ReadDigits58(s).value;
            InBase(ds, 58) && |ds| + |rest| == |s| && s == Letters(ds) + rest
  {
    hide Letters, ReadDigits58, IndexOf;
    ReadOne(s);
    if s == "" || IsSpace(s[0]) {
      NoLetters();
    } else {
      DigitsAreLetters(s[1..]);
      var d := IndexOf(s[0], 0).value;
      var (ds, rest) := ReadDigits58(s[1..]).value;
      LettersFront(d, ds);
      PutInFront(s, Letters(ds), rest);
    }
  }

  lemma PutInFront(s: string, mid: string, rest: string)
    requires s != "" && s[1..] == mid + rest
    ensures s == [s[0]] + mid + rest
  {
    assert s == [s[0]] + s[1..];
  }

  lemma ReadOne(s: string)
    requires ReadDigits58(s).Some?
    ensures if s == "" || IsSpace(s[0]) then ReadDigits58(s) == Some(([], s))
            else && IndexOf(s[0], 0).Some? && IndexOf(s[0], 0).value < 58 && ALPHABET[IndexOf(s[0], 0).value] == s[0]
                 && ReadDigits58(s[1..]).Some?
                 && ReadDigits58(s) == Some(([IndexOf(s[0], 0).value] + ReadDigits58(s[1..]).value.0, ReadDigits58(s[1..]).value.1))
  {
    CharsDescribe(0);
  }

  lemma NoLetters()
    ensures Letters([]) == ""
  {
  }

  /** After the ones, the first digit is not zero. */
  lemma DigitsAfterOnes(s: string)
    requires ReadDigits58(s).Some? && (s != "" ==> s[0] != '1')
    ensures var ds := ReadDigits58(s).value.0; ds != [] ==> ds[0] != 0
  {
    CharsDescribe(0);
    assert ALPHABET[0] == '1';
    if s != "" && !IsSpace(s[0]) {
      var d := IndexOf(s[0], 0).value;
      assert ReadDigits58(s).value.0[0] == d;
    }
  }

  lemma {:induction false} ZeroesOf(n: nat, s: seq<nat>)
    requires s != [] ==> s[0] != 0
    ensures Zeroes(NullBytes(n) + s) == n
  {
    if n > 0 {
      assert (NullBytes(n) + s)[1..] == NullBytes(n - 1) + s;
      ZeroesOf(n - 1, s);
    }
  }

  /** Encoding what was decoded gives the string back, without the spaces around it. */
  lemma EncodeDecode(str: string)
    requires Decoded(str).Some?
    ensures InBase(Decoded(str).value, 256) && Encoded(Decoded(str).value) == Trimmed58(str)
  {
    hide ReadDigits58, CountOnes, Letters, DigitsOf, Num, Zeroes, Ones, SkipSpaces;
    var s := SkipSpaces(str);
    var z := CountOnes(s);
    var (ds, rest) := ReadDigits58(s[z..]).value;
    DigitsAreLetters(s[z..]);
    DigitsAfterOnes(s[z..]);
    DigitsOfNum(ds, 58);
    var bytes := DigitsOf(Num(ds, 58), 256);
    ZeroesOf(z, bytes);
    NumDropsZeroes(NullBytes(z) + bytes, z, 256);
    assert (NullBytes(z) + bytes)[z..] == bytes;
    NumOfDigits(Num(ds, 58), 256);
    assert s[..z] == Ones(z);
    assert s == s[..z] + s[z..];
    assert s[..|s| - |rest|] == Ones(z) + Letters(ds);
  }

  // ----- the buffers suffice -----

  lemma Base58Fits(n: nat, len: nat)
    requires len == n * 138 / 100 + 1
    ensures Pow(256, n) <= Pow(58, len)
  {
    hide Pow;
    Witness58();
    PowerFits(256, 58, 8, 11, n, len);
  }

  lemma Base256Fits(n: nat, len: nat)
    requires len == n * 733 / 1000 + 1
    ensures Pow(58, n) <= Pow(256, len)
  {
    hide Pow;
    Witness256();
    PowerFits(58, 256, 71, 52, n, len);
  }

  lemma Witness58()
    ensures Pow(256, 8) <= Pow(58, 11)
  {
    hide Pow;
    Eighth(256);
    Eighth(58);
    PowAdd(58, 8, 2);
    PowAdd(58, 10, 1);
  }

  lemma Witness256()
    ensures Pow(58, 71) <= Pow(256, 52)
  {
    hide Pow;
    High58();
    High256();
    Eighth(58);
    Eighth(256);
    PowAdd(58, 64, 4);
    PowAdd(58, 68, 2);
    PowAdd(58, 70, 1);
    PowAdd(256, 32, 16);
    PowAdd(256, 48, 4);
  }

  lemma Eighth(b: nat)
    requires b >= 2
    ensures Pow(b, 1) == b && Pow(b, 2) == b * b && Pow(b, 4) == b * b * (b * b) && Pow(b, 8) == Pow(b, 4) * Pow(b, 4)
  {
    hide Pow;
    Square(b, 1);
    Square(b, 2);
    Square(b, 4);
  }

  lemma High58()
    ensures Pow(58, 64) == 72342179355466901471258927612150153907721848234316445933056526044582001260898145151856420451025374266490194231296
  {
    hide Pow;
    Eighth(58);
    Square(58, 8);
    Square(58, 16);
    Square(58, 32);
  }

  lemma High256()
    ensures Pow(256, 16) == 340282366920938463463374607431768211456
    ensures Pow(256, 32) == 115792089237316195423570985008687907853269984665640564039457584007913129639936
  {
    hide Pow;
    Eighth(256);
    Square(256, 8);
    Square(256, 16);
  }

  lemma Square(b: nat, n: nat)
    requires b >= 2
    ensures Pow(b, 1) == b && Pow(b, 2 * n) == Pow(b, n) * Pow(b, n)
  {
    PowAdd(b, n, n);
  }

  // ----- the source's loops -----

  /** EncodeBase58: the carry out of the buffer is always zero. */
  method EncodeBase58(v: seq<nat>) returns (str: string)
    requires InBase(v, 256)
    ensures str == Encoded(v)
  {
    hide Pow, Num, DigitsOf, Letters;
    var zeroes := 0;
    while zeroes < |v| && v[zeroes] == 0
      invariant 0 <= zeroes <= |v| && forall i | 0 <= i < zeroes :: v[i] == 0
    {
      zeroes := zeroes + 1;
    }
    ZeroesIs(v, zeroes);
    var b58 := BytesToBuffer(v, zeroes);
    var it := SkipZeroes(b58);
    BufferDigits(b58[..], 58);
    var digits := Translate(b58, it);
    str := Ones(zeroes) + digits;
  }

  /** The loop over the bytes. */
  method BytesToBuffer(v: seq<nat>, zeroes: nat) returns (b58: array<nat>)
    requires InBase(v, 256) && zeroes == Zeroes(v)
    ensures fresh(b58) && InBase(b58[..], 58) && Num(b58[..], 58) == Num(v, 256)
  {
    hide Pow, Num;
    ghost var w := v[zeroes..];
    b58 := new nat[(|v| - zeroes) * 138 / 100 + 1](_ => 0);
    Base58Fits(|w|, b58.Length);
    EmptyNumber(b58[..], 58);
    NoNumber(256);
    assert w[..0] == [];
    for k := zeroes to |v|
      invariant InBase(b58[..], 58) && Num(b58[..], 58) == Num(w[..k - zeroes], 256)
    {
      var carry := MultiplyAdd(b58, 58, 256, v[k]);
      NumPrefix(w, k - zeroes, 256);
      PrefixFits(w, k - zeroes + 1, 256, 58, b58.Length);
      NoCarry(carry, Pow(58, b58.Length), Num(b58[..], 58), Num(w[..k - zeroes + 1], 256));
      assert carry == 0;  // the assertion of src/base58.cpp:102
    }
    assert w[..|w|] == w;
    NumDropsZeroes(v, zeroes, 256);
  }

  method SkipZeroes(a: array<nat>) returns (it: nat)
    ensures it == Zeroes(a[..])
  {
    it := 0;
    while it < a.Length && a[it] == 0
      invariant 0 <= it <= a.Length && forall i | 0 <= i < it :: a[i] == 0
    {
      it := it + 1;
    }
    ZeroesIs(a[..], it);
  }

  method Translate(a: array<nat>, it: nat) returns (str: string)
    requires InBase(a[..], 58) && it <= a.Length
    ensures str == Letters(a[it..])
  {
    hide Letters;
    str := "";
    NoLetters();
    CharsDescribe(0);
    assert a[it..it] == [];
    for k := it to a.Length
      invariant str == Letters(a[it..k])
    {
      LettersSnoc(a[it..k], a[k]);
      assert a[it..k + 1] == a[it..k] + [a[k]];
      str := str + [ALPHABET[a[k]]];
    }
    assert a[it..a.Length] == a[it..];
  }

  lemma NoNumber(base: nat)
    requires base >= 2
    ensures Num([], base) == 0
  {
  }

  lemma ZeroesIs(s: seq<nat>, n: nat)
    requires n <= |s| && (forall i | 0 <= i < n :: s[i] == 0) && (n < |s| ==> s[n] != 0)
    ensures Zeroes(s) == n
  {
  }

  lemma {:induction false} EmptyNumber(s: seq<nat>, base: nat)
    requires base >= 2 && forall i | 0 <= i < |s| :: s[i] == 0
    ensures Num(s, base) == 0 && Num(s[..0], base) == 0
    decreases |s|
  {
    if s != [] {
      EmptyNumber(s[..|s| - 1], base);
    }
  }

  lemma NumPrefix(w: seq<nat>, k: nat, base: nat)
    requires base >= 2 && k < |w|
    ensures Num(w[..k + 1], base) == Num(w[..k], base) * base + w[k]
  {
    assert w[..k + 1] == w[..k] + [w[k]];
    NumSnoc(w[..k], w[k], base);
  }

  lemma PrefixFits(w: seq<nat>, k: nat, from: nat, to: nat, len: nat)
    requires from >= 2 && to >= 2 && InBase(w, from) && k <= |w| && Pow(from, |w|) <= Pow(to, len)
    ensures Num(w[..k], from) < Pow(to, len)
  {
    hide Pow, Num;
    NumBound(w[..k], from);
    PowGrows(from, k, |w|);
  }

  lemma NoCarry(carry: nat, p: nat, low: nat, total: nat)
    requires carry * p + low == total < p
    ensures carry == 0
  {
    if carry > 0 {
      Powers.MulMono(1, carry, p);
    }
  }

  lemma LettersSnoc(ds: seq<nat>, d: nat)
    requires InBase(ds, 58) && d < 58
    ensures |ALPHABET| == 58 && Letters(ds + [d]) == Letters(ds) + [ALPHABET[d]]
  {
    CharsDescribe(0);
    hide IndexOf;
  }

  /** DecodeBase58: none for a foreign character or one after inner spaces; the carry out of the
      buffer is always zero. */
  method DecodeBase58(str: string) returns (r: Option<seq<nat>>)
    ensures r == Decoded(str)
  {
    hide Pow, Num, DigitsOf, Letters, ReadDigits58, IndexOf;
    var psz := SkipLeading(str);
    var zeroes := 0;
    while zeroes < |psz| && psz[zeroes] == '1'
      invariant 0 <= zeroes <= |psz| && forall i | 0 <= i < zeroes :: psz[i] == '1'
    {
      zeroes := zeroes + 1;
    }
    OnesIs(psz, zeroes);
    var ok, b256, k := DigitsToBuffer(psz, zeroes);
    if !ok {
      return None;
    }
    var tail := SkipLeading(psz[k..]);
    if tail != "" {
      return None;
    }
    var it := SkipZeroes(b256);
    BufferDigits(b256[..], 256);
    var vch := NullBytes(zeroes) + b256[it..];
    return Some(vch);
  }

  /** The loop over the characters. */
  method DigitsToBuffer(psz: string, zeroes: nat) returns (ok: bool, b256: array<nat>, k: nat)
    requires zeroes <= |psz|
    ensures fresh(b256) && zeroes <= k <= |psz|
    ensures ok <==> ReadDigits58(psz[zeroes..]).Some?
    ensures ok ==> var (ds, rest) := ReadDigits58(psz[zeroes..]).value;
                   InBase(ds, 58) && rest == psz[k..] && InBase(b256[..], 256) && Num(b256[..], 256) == Num(ds, 58)
  {
    hide Pow, Num, ReadDigits58, IndexOf;
    ghost var body := psz[zeroes..];
    b256 := new nat[(|psz| - zeroes) * 733 / 1000 + 1](_ => 0);
    Base256Fits(|body|, b256.Length);
    EmptyNumber(b256[..], 256);
    NoNumber(58);
    k := zeroes;
    ghost var ds: seq<nat> := [];
    assert body == body[0..];
    NothingRead(body);
    while k < |psz| && !IsSpace(psz[k])
      invariant zeroes <= k <= |psz| && |ds| == k - zeroes && InBase(ds, 58)
      invariant InBase(b256[..], 256) && Num(b256[..], 256) == Num(ds, 58)
      invariant ReadDigits58(body) == Prepend(ds, ReadDigits58(body[k - zeroes..]))
    {
      var ch := IndexOf(psz[k], 0);
      ReadAt(body, k - zeroes, ds);
      if ch.None? {
        return false, b256, k;
      }
      CharsDescribe(0);
      var carry := MultiplyAdd(b256, 256, 58, ch.value);
      NumSnoc(ds, ch.value, 58);
      ds := ds + [ch.value];
      DigitsFit(ds, |body|, b256.Length);
      NoCarry(carry, Pow(256, b256.Length), Num(b256[..], 256), Num(ds, 58));
      assert carry == 0;  // the assertion of src/base58.cpp:45
      k := k + 1;
    }
    ReadStops(body[k - zeroes..]);
    assert ds + [] == ds && psz[k..] == body[k - zeroes..];
    return true, b256, k;
  }

  method SkipLeading(str: string) returns (r: string)
    ensures r == SkipSpaces(str)
  {
    var k := 0;
    assert str[0..] == str;
    while k < |str| && IsSpace(str[k])
      invariant 0 <= k <= |str| && SkipSpaces(str[k..]) == SkipSpaces(str)
    {
      assert str[k..][1..] == str[k + 1..];
      k := k + 1;
    }
    r := str[k..];
  }

  lemma OnesIs(s: string, n: nat)
    requires n <= |s| && (forall i | 0 <= i < n :: s[i] == '1') && (n < |s| ==> s[n] != '1')
    ensures CountOnes(s) == n
  {
  }

  /** Digits already read, put before what is still to come. */
  function Prepend(ds: seq<nat>, r: Option<(seq<nat>, string)>): Option<(seq<nat>, string)> {
    match r
    case None => None
    case Some((more, rest)) => Some((ds + more, rest))
  }

  lemma NothingRead(s: string)
    ensures ReadDigits58(s) == Prepend([], ReadDigits58(s))
  {
    if ReadDigits58(s).Some? {
      assert [] + ReadDigits58(s).value.0 == ReadDigits58(s).value.0;
    }
  }

  lemma ReadAt(body: string, k: nat, ds: seq<nat>)
    requires k < |body| && !IsSpace(body[k]) && ReadDigits58(body) == Prepend(ds, ReadDigits58(body[k..]))
    ensures match IndexOf(body[k], 0)
            case None => ReadDigits58(body) == None
            case Some(d) => ReadDigits58(body) == Prepend(ds + [d], ReadDigits58(body[k + 1..]))
  {
    hide ReadDigits58, IndexOf, IsSpace;
    ReadDigit(body[k..]);
    assert body[k..][1..] == body[k + 1..];
    var r := ReadDigits58(body[k + 1..]);
    if IndexOf(body[k], 0).Some? && r.Some? {
      var d := IndexOf(body[k], 0).value;
      assert ds + ([d] + r.value.0) == ds + [d] + r.value.0;
    }
  }

  lemma ReadDigit(s: string)
    requires s != "" && !IsSpace(s[0])
    ensures ReadDigits58(s) == match IndexOf(s[0], 0)
                               case None => None
                               case Some(d) => Prepend([d], ReadDigits58(s[1..]))
  {
    hide IndexOf, IsSpace;
  }

  lemma ReadStops(s: string)
    ensures s == "" || IsSpace(s[0]) ==> ReadDigits58(s) == Some(([], s))
  {
  }

  lemma DigitsFit(ds: seq<nat>, n: nat, len: nat)
    requires InBase(ds, 58) && |ds| <= n && Pow(58, n) <= Pow(256, len)
    ensures Num(ds, 58) < Pow(256, len)
  {
    hide Pow, Num;
    NumBound(ds, 58);
    PowGrows(58, |ds|, n);
  }

  // ----- with a checksum -----

  /** The first four bytes of a hash are added, and checked on the way back. `hash` stands for the
      double SHA-256. */
  type Hasher = seq<nat> -> seq<nat>

  ghost predicate HashOk(hash: Hasher) { forall v :: |hash(v)| >= 4 && InBase(hash(v), 256) }

  method EncodeBase58Check(v: seq<nat>, hash: Hasher) returns (str: string)
    requires InBase(v, 256) && HashOk(hash)
    ensures InBase(v + hash(v)[..4], 256) && str == Encoded(v + hash(v)[..4])
  {
    str := EncodeBase58(v + hash(v)[..4]);
  }

  /** It accepts exactly the strings whose bytes end in the checksum of what comes before. */
  method DecodeBase58Check(str: string, hash: Hasher) returns (r: Option<seq<nat>>)
    requires HashOk(hash)
    ensures r.Some? <==> exists v :: IsChecked(v, str, hash)
    ensures r.Some? ==> IsChecked(r.value, str, hash)
  {
    hide Decoded;
    var d := DecodeBase58(str);
    if d.None? || |d.value| < 4 {
      return None;
    }
    var n := |d.value| - 4;
    assert d.value == d.value[..n] + d.value[n..];
    if hash(d.value[..n])[..4] != d.value[n..] {
      forall v
        ensures !IsChecked(v, str, hash)
      {
        CheckedParts(v, str, hash);
      }
      return None;
    }
    assert IsChecked(d.value[..n], str, hash);
    return Some(d.value[..n]);
  }

  ghost predicate IsChecked(v: seq<nat>, str: string, hash: Hasher)
    requires HashOk(hash)
  {
    Decoded(str) == Some(v + hash(v)[..4])
  }

  lemma CheckedParts(v: seq<nat>, str: string, hash: Hasher)
    requires HashOk(hash)
    ensures IsChecked(v, str, hash) ==> var d := Decoded(str).value; |d| >= 4 && v == d[..|d| - 4] && hash(v)[..4] == d[|d| - 4..]
  {
  }

  /** Byte strings survive the way through a checked string. */
  method CheckedRoundTrip(v: seq<nat>, hash: Hasher) returns (r: Option<seq<nat>>)
    requires InBase(v, 256) && HashOk(hash)
    ensures r == Some(v)
  {
    hide Encoded, Decoded;
    var str := EncodeBase58Check(v, hash);
    DecodeEncode(v + hash(v)[..4]);
    assert IsChecked(v, str, hash);
    r := DecodeBase58Check(str, hash);
    SameChecked(v, r.value, hash);
  }

  lemma SameChecked(v: seq<nat>, w: seq<nat>, hash: Hasher)
    requires HashOk(hash) && v + hash(v)[..4] == w + hash(w)[..4]
    ensures v == w
  {
    var x := v + hash(v)[..4];
    assert v == x[..|x| - 4] && w == x[..|x| - 4];
  }
}
