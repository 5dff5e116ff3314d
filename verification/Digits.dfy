/** Numbers as big-endian digits in any base, and the in-place step "number times base plus
    digit" on a fixed buffer (the inner loops of src/base58.cpp:37-44, 94-101). */
module Digits {
  import opened Powers

  function Pow(b: nat, n: nat): (r: nat)
    requires b >= 2
    ensures r >= 1
  {
    if n == 0 then 1 else b * Pow(b, n - 1)
  }

  predicate InBase(s: seq<nat>, base: nat) { forall i | 0 <= i < |s| :: s[i] < base }

  /** The number that the digits stand for. */
  function Num(s: seq<nat>, base: nat): nat
    requires base >= 2
  {
    if s == [] then 0 else Num(s[..|s| - 1], base) * base + s[|s| - 1]
  }

  /** The digits of a number, without leading zeros. */
  function DigitsOf(n: nat, base: nat): (s: seq<nat>)
    requires base >= 2
    ensures InBase(s, base)
    ensures n > 0 ==> s != [] && s[0] != 0
    ensures n == 0 <==> s == []
  {
    if n == 0 then [] else DigitsOf(n / base, base) + [n % base]
  }

  lemma {:induction false} NumOfDigits(n: nat, base: nat)
    requires base >= 2
    ensures Num(DigitsOf(n, base), base) == n
  {
    if n > 0 {
      hide Num;
      var q, d := n / base, n % base;
      SmallerQuotient(n, base);
      NumOfDigits(q, base);
      NumSnoc(DigitsOf(q, base), d, base);
      DivMod(n, base);
    }
  }

  lemma SmallerQuotient(n: nat, base: nat)
    requires base >= 2 && n > 0
    ensures n / base < n
  {
  }

  lemma NumSnoc(s: seq<nat>, d: nat, base: nat)
    requires base >= 2
    ensures Num(s + [d], base) == Num(s, base) * base + d
  {
    assert (s + [d])[..|s|] == s;
  }

  /** A digit string without leading zero is the only one for its number. */
  lemma {:induction false} DigitsOfNum(s: seq<nat>, base: nat)
    requires base >= 2 && InBase(s, base) && (s != [] ==> s[0] != 0)
    ensures DigitsOf(Num(s, base), base) == s
    decreases |s|
  {
    if s != [] {
      var t, d := s[..|s| - 1], s[|s| - 1];
      DigitsOfNum(t, base);
      ModUnique(Num(s, base), Num(t, base), d, base);
      if t == [] {
        assert Num(s, base) == d;
      } else {
        assert Num(t, base) > 0;
        MulMono(1, Num(t, base), base);
      }
    }
  }

  /** The leading digit counts with the highest weight. */
  lemma {:induction false} NumFront(x: nat, s: seq<nat>, base: nat)
    requires base >= 2
    ensures Num([x] + s, base) == x * Pow(base, |s|) + Num(s, base)
    decreases |s|
  {
    if s != [] {
      var t, d := s[..|s| - 1], s[|s| - 1];
      assert ([x] + s)[..|s|] == [x] + t;
      NumFront(x, t, base);
      MulDist(x * Pow(base, |t|), Num(t, base), base);
      MulAssoc(x, Pow(base, |t|), base);
      assert Pow(base, |s|) == Pow(base, |t|) * base;
    } else {
      assert ([x] + s)[..0] == [];
    }
  }

  lemma {:induction false} NumBound(s: seq<nat>, base: nat)
    requires base >= 2 && InBase(s, base)
    ensures Num(s, base) < Pow(base, |s|)
    decreases |s|
  {
    if s != [] {
      hide Num;
      var t := s[..|s| - 1];
      NumBound(t, base);
      assert s == t + [s[|s| - 1]];
      NumSnoc(t, s[|s| - 1], base);
      BoundStep(Num(t, base), s[|s| - 1], Pow(base, |t|), base);
    }
  }

  lemma BoundStep(n: nat, d: nat, p: nat, base: nat)
    requires n < p && d < base
    ensures n * base + d < base * p
  {
    MulMono(n + 1, p, base);
    MulDist(n, 1, base);
  }

  /** How many leading zeros there are. */
  function Zeroes(s: seq<nat>): (n: nat)
    ensures n <= |s| && (forall i | 0 <= i < n :: s[i] == 0) && (n < |s| ==> s[n] != 0)
  {
    if s != [] && s[0] == 0 then 1 + Zeroes(s[1..]) else 0
  }

  lemma {:induction false} NumDropsZeroes(s: seq<nat>, k: nat, base: nat)
    requires base >= 2 && k <= |s| && forall i | 0 <= i < k :: s[i] == 0
    ensures Num(s[k..], base) == Num(s, base)
  {
    if k == 0 {
      assert s[0..] == s;
    } else {
      NumDropsZeroes(s, k - 1, base);
      assert s[k - 1..] == [0] + s[k..];
      NumFront(0, s[k..], base);
    }
  }

  /** Dropping the zeros in front of a buffer leaves the digits of its number. */
  lemma BufferDigits(s: seq<nat>, base: nat)
    requires base >= 2 && InBase(s, base)
    ensures s[Zeroes(s)..] == DigitsOf(Num(s, base), base)
  {
    var t := s[Zeroes(s)..];
    NumDropsZeroes(s, Zeroes(s), base);
    DigitsOfNum(t, base);
  }

  // ----- powers -----

  lemma {:induction false} PowAdd(b: nat, m: nat, n: nat)
    requires b >= 2
    ensures Pow(b, m + n) == Pow(b, m) * Pow(b, n)
  {
    if n > 0 {
      PowAdd(b, m, n - 1);
      calc {
        Pow(b, m + n);
        b * Pow(b, m + (n - 1));
        b * (Pow(b, m) * Pow(b, n - 1));
        { MulAssoc(b, Pow(b, m), Pow(b, n - 1)); MulAssoc(Pow(b, m), b, Pow(b, n - 1)); }
        Pow(b, m) * (b * Pow(b, n - 1));
      }
    }
  }

  lemma {:induction false} PowGrows(b: nat, m: nat, n: nat)
    requires b >= 2 && m <= n
    ensures Pow(b, m) <= Pow(b, n)
  {
    if m < n {
      PowGrows(b, m, n - 1);
      MulMono(1, b, Pow(b, n - 1));
    }
  }

  /** A power raised once more. */
  function Raised(x: nat, k: nat): (r: nat)
    ensures x >= 1 ==> r >= 1
  {
    if k == 0 then 1 else x * Raised(x, k - 1)
  }

  lemma {:induction false} RaisedPow(b: nat, m: nat, k: nat)
    requires b >= 2
    ensures Raised(Pow(b, m), k) == Pow(b, m * k)
  {
    if k == 0 {
      assert m * 0 == 0;
    } else {
      RaisedPow(b, m, k - 1);
      PowAdd(b, m, m * (k - 1));
      MulDist(1, k - 1, m);
      assert m + m * (k - 1) == m * k;
    }
  }

  lemma {:induction false} RaisedGrows(x: nat, y: nat, k: nat)
    requires 1 <= x <= y
    ensures Raised(x, k) <= Raised(y, k) && (x < y && k > 0 ==> Raised(x, k) < Raised(y, k))
  {
    if k > 0 {
      RaisedGrows(x, y, k - 1);
      MulMono(Raised(x, k - 1), Raised(y, k - 1), x);
      MulMono(x, y, Raised(y, k - 1));
      if x < y {
        MulMono(x + 1, y, Raised(y, k - 1));
        MulDist(x, 1, Raised(y, k - 1));
      }
    }
  }

  lemma MulSwap(a: nat, b: nat)
    ensures a * b == b * a
  {
  }

  /** One inequality between powers bounds all of them: if a^p <= b^q, then a^n fits into m digits
      of base b whenever m / n is at least q / p. */
  lemma PowerFits(a: nat, b: nat, p: nat, q: nat, n: nat, m: nat)
    requires a >= 2 && b >= 2 && p > 0 && Pow(a, p) <= Pow(b, q) && p * m >= q * n
    ensures Pow(a, n) <= Pow(b, m)
  {
    hide Pow, Raised;
    if Pow(a, n) > Pow(b, m) {
      RaisedGrows(Pow(b, m), Pow(a, n), p);
      SwapRaised(a, n, p);
      RaisedGrows(Pow(a, p), Pow(b, q), n);
      RaisedBounds(b, m, p, q, n);
    }
  }

  lemma SwapRaised(b: nat, m: nat, k: nat)
    requires b >= 2
    ensures Raised(Pow(b, m), k) == Raised(Pow(b, k), m)
  {
    hide Pow, Raised;
    RaisedPow(b, m, k);
    RaisedPow(b, k, m);
    MulSwap(m, k);
  }

  lemma RaisedBounds(b: nat, m: nat, p: nat, q: nat, n: nat)
    requires b >= 2 && p * m >= q * n
    ensures Raised(Pow(b, q), n) <= Raised(Pow(b, m), p)
  {
    hide Pow, Raised;
    RaisedPow(b, q, n);
    RaisedPow(b, m, p);
    MulSwap(m, p);
    PowGrows(b, q * n, m * p);
  }

  // ----- the buffer -----

  /** buffer = buffer * factor + digit, carried from the end; what does not fit is returned. */
  method MultiplyAdd(a: array<nat>, base: nat, factor: nat, digit: nat) returns (carry: nat)
    requires base >= 2 && InBase(a[..], base)
    modifies a
    ensures InBase(a[..], base)
    ensures carry * Pow(base, a.Length) + Num(a[..], base) == Num(old(a[..]), base) * factor + digit
  {
    hide Num, Pow, Times, Over;
    ghost var was := a[..];
    carry := digit;
    var i := a.Length;
    BufferStart(digit, base, factor);
    assert a[a.Length..] == [] && was[a.Length..] == [];
    while i > 0
      invariant 0 <= i <= a.Length && InBase(a[..], base)
      invariant forall j | 0 <= j < i :: a[j] == was[j]
      invariant carry * Pow(base, a.Length - i) + Num(a[i..], base) == Num(was[i..], base) * factor + digit
    {
      i := i - 1;
      ghost var tail := a[i + 1..];
      var n := carry + Times(factor, a[i]);
      assert was[i..] == [was[i]] + was[i + 1..];
      BufferStep(carry, factor, was[i], base, tail, was[i + 1..], digit);
      a[i] := Rest(n, base);
      assert a[i..] == [Rest(n, base)] + tail;
      carry := Over(n, base);
    }
    assert a[0..] == a[..] && was[0..] == was;
  }

  lemma BufferStart(digit: nat, base: nat, factor: nat)
    requires base >= 2
    ensures digit * Pow(base, 0) + Num([], base) == Num([], base) * factor + digit
  {
  }

  lemma BufferStep(carry: nat, factor: nat, x: nat, base: nat, tail: seq<nat>, was: seq<nat>, digit: nat)
    requires base >= 2 && |tail| == |was|
    requires carry * Pow(base, |tail|) + Num(tail, base) == Num(was, base) * factor + digit
    ensures var n := carry + Times(factor, x);
            Over(n, base) * Pow(base, |tail| + 1) + Num([Rest(n, base)] + tail, base) == Num([x] + was, base) * factor + digit
  {
    hide Num, Pow, Times, Over, Rest;
    var n, p := carry + Times(factor, x), Pow(base, |tail|);
    NumFront(Rest(n, base), tail, base);
    NumFront(x, was, base);
    PowNext(base, |tail|);
    BufferArithmetic(carry, factor, x, base, p, Num(tail, base), Num(was, base), digit);
  }

  lemma PowNext(b: nat, n: nat)
    requires b >= 2
    ensures Pow(b, n + 1) == b * Pow(b, n)
  {
  }

  lemma BufferArithmetic(carry: nat, factor: nat, x: nat, base: nat, p: nat, tail: nat, was: nat, digit: nat)
    requires base >= 2 && carry * p + tail == was * factor + digit
    ensures var n := carry + Times(factor, x);
            Over(n, base) * (base * p) + (Rest(n, base) * p + tail) == (x * p + was) * factor + digit
  {
    var n := carry + factor * x;
    DivMod(n, base);
    MulDist(n / base * base, n % base, p);
    MulAssoc(n / base, base, p);
    MulDist(carry, factor * x, p);
    MulDist(x * p, was, factor);
    MulAssoc(factor, x, p);
  }
}
