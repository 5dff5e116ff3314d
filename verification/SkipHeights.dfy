/** The skip heights of block index entries, and how many steps a walk over them takes
    (src/main.cpp:3850-3890). */
module SkipHeights {
  import opened Powers

  /** `n & (n - 1)`: the lowest one bit is turned off. */
  function InvertLowestOne(n: nat): (r: nat)
    ensures r <= n && (n > 0 ==> r < n)
  {
    if n == 0 then 0 else if n % 2 == 1 then n - 1 else 2 * InvertLowestOne(n / 2)
  }

  predicate Bit(n: nat, i: nat) { if i == 0 then n % 2 == 1 else Bit(n / 2, i - 1) }

  /** Bit by bit it is the conjunction of `n` and `n - 1`. */
  lemma {:induction false} InvertIsAnd(n: nat, i: nat)
    requires n > 0
    ensures Bit(InvertLowestOne(n), i) <==> Bit(n, i) && Bit(n - 1, i)
    decreases i
  {
    if i > 0 {
      if n % 2 == 1 {
        assert (n - 1) / 2 == n / 2;
      } else {
        assert (n - 1) / 2 == n / 2 - 1;
        InvertIsAnd(n / 2, i - 1);
      }
    }
  }

  function SkipHeight(height: nat): (r: nat)
    ensures height > 0 ==> r < height
  {
    if height < 2 then 0
    else if height % 2 == 1 then InvertLowestOne(InvertLowestOne(height - 1)) + 1
    else InvertLowestOne(height)
  }

  // ----- the walk -----

  /** Whether GetAncestor follows the skip pointer at height `w` on its way down to `t`. */
  predicate TakesSkip(w: nat, t: nat)
    requires t < w
  {
    var s, sPrev := SkipHeight(w), SkipHeight(w - 1);
    s == t || (s > t && !(sPrev < s - 2 && sPrev >= t))
  }

  /** The next height on the way. */
  function NextStop(w: nat, t: nat): (r: nat)
    requires t < w
    ensures t <= r < w
  {
    if TakesSkip(w, t) then SkipHeight(w) else w - 1
  }

  /** The number of steps from height `w` down to `t`. */
  function Steps(w: nat, t: nat): nat
    requires t <= w
    decreases w
  {
    if t == w then 0 else 1 + Steps(NextStop(w, t), t)
  }

  lemma StepsUnfold(w: nat, t: nat)
    requires t < w
    ensures Steps(w, t) == 1 + if TakesSkip(w, t) then Steps(SkipHeight(w), t) else Steps(w - 1, t)
    ensures TakesSkip(w, t) ==> SkipHeight(w) >= t
  {
  }

  // ----- multiples of powers of two -----

  /** The lowest `m` bits are zero. */
  predicate Aligned(x: nat, m: nat) { m == 0 || (x % 2 == 0 && Aligned(x / 2, m - 1)) }

  lemma {:induction false} AlignedLess(x: nat, m: nat, n: nat)
    requires n <= m && Aligned(x, m)
    ensures Aligned(x, n)
  {
    if n > 0 {
      AlignedLess(x / 2, m - 1, n - 1);
    }
  }

  /** Adding or taking away a higher power changes none of these bits. */
  lemma {:induction false} AlignedMoves(x: nat, m: nat, n: nat)
    requires m <= n && Aligned(x, m)
    ensures Aligned(x + Pow2(n), m) && (x >= Pow2(n) ==> Aligned(x - Pow2(n), m))
  {
    if m > 0 {
      AlignedMoves(x / 2, m - 1, n - 1);
      assert (x + Pow2(n)) / 2 == x / 2 + Pow2(n - 1);
      if x >= Pow2(n) {
        assert (x - Pow2(n)) / 2 == x / 2 - Pow2(n - 1);
      }
    }
  }

  lemma {:induction false} LowestOneGoes(x: nat, m: nat)
    requires Aligned(x, m + 1)
    ensures InvertLowestOne(x + Pow2(m)) == x
  {
    if m > 0 {
      assert (x + Pow2(m)) / 2 == x / 2 + Pow2(m - 1);
      LowestOneGoes(x / 2, m - 1);
    }
  }

  /** The number is its rest and its lowest one. */
  lemma {:induction false} LowestOne(w: nat) returns (k: nat)
    requires w > 0
    ensures w == InvertLowestOne(w) + Pow2(k) && Aligned(InvertLowestOne(w), k + 1) && (w % 2 == 0 <==> k > 0)
  {
    if w % 2 == 1 {
      k := 0;
    } else {
      var h := LowestOne(w / 2);
      k := h + 1;
      assert InvertLowestOne(w) / 2 == InvertLowestOne(w / 2);
    }
  }

  function Ones(n: nat): nat { if n == 0 then 0 else n % 2 + Ones(n / 2) }

  lemma {:induction false} OneLess(n: nat)
    requires n > 0
    ensures Ones(InvertLowestOne(n)) == Ones(n) - 1
    ensures n % 2 == 0 ==> InvertLowestOne(n) % 2 == 0
  {
    if n % 2 == 0 {
      OneLess(n / 2);
    }
  }

  /** The number of binary digits. */
  function BinaryDigits(n: nat): nat { if n == 0 then 0 else 1 + BinaryDigits(n / 2) }

  lemma {:induction false} DigitsAreEnough(n: nat, k: nat)
    ensures Ones(n) <= BinaryDigits(n)
    ensures Pow2(k) <= n ==> k < BinaryDigits(n)
    decreases n
  {
    if n > 0 {
      DigitsAreEnough(n / 2, if k > 0 then k - 1 else 0);
    }
  }

  // ----- the last stretch: between a height and the end of its skip pointer -----

  /** A bound on the steps there, from a height with `k` trailing zeros. */
  function Deep(k: nat): nat { if k == 0 then 0 else k + 2 + Deep(k - 1) }

  lemma {:induction false} DeepGrows(j: nat, k: nat)
    requires j <= k
    ensures Deep(j) <= Deep(k)
  {
    if j < k {
      DeepGrows(j, k - 1);
    }
  }

  lemma {:induction false} DeepIs(k: nat)
    ensures 2 * Deep(k) == k * k + 5 * k
  {
    if k > 0 {
      DeepIs(k - 1);
    }
  }

  /** The heights `w` - 2^j + 1, for odd j, on the way down from `w`. */
  ghost predicate Stretch(a: nat, k: nat, w: nat, t: nat) { w == a + Pow2(k) && Aligned(a, k + 1) && a < t <= w }

  lemma StretchSkips(a: nat, k: nat, w: nat, t: nat, j: nat)
    requires Stretch(a, k, w, t) && j < k
    ensures Pow2(j + 1) <= Pow2(k) && InvertLowestOne(w - Pow2(j)) == w - Pow2(j + 1) && Aligned(w - Pow2(j + 1), j + 1)
    ensures (w - Pow2(j)) % 2 == 0 <==> j > 0
  {
    Pow2Grows(j + 1, k);
    AlignedLess(a, k + 1, k);
    AlignedMoves(a, k, k);
    AlignedLess(w, k, j + 1);
    AlignedMoves(w, j + 1, j + 1);
    LowestOneGoes(w - Pow2(j + 1), j);
  }

  /** The skip pointer at `w` - 2^j + 1. */
  lemma OddSkip(a: nat, k: nat, w: nat, t: nat, j: nat)
    requires Stretch(a, k, w, t) && 1 <= j < k
    ensures Pow2(j) <= Pow2(k)
    ensures var s := SkipHeight(w - Pow2(j) + 1);
            if j + 2 <= k then Pow2(j + 2) <= Pow2(k) && s == w - Pow2(j + 2) + 1 else s <= a + 1 && (s == a + 1 ==> a == 0)
  {
    StretchSkips(a, k, w, t, j);
    if j + 2 <= k {
      StretchSkips(a, k, w, t, j + 1);
    }
  }

  lemma {:induction false} OddStretch(a: nat, k: nat, w: nat, t: nat, j: nat)
    requires Stretch(a, k, w, t) && 1 <= j <= k && j % 2 == 1 && Pow2(j) <= Pow2(k) && t <= w - Pow2(j) + 1
    ensures Steps(w - Pow2(j) + 1, t) <= k - j + 2 + Deep(k - 1)
    decreases k, k - j
  {
    var q := w - Pow2(j) + 1;
    if t < q {
      Pow2Grows(j, k);
      assert j < k;
      OddSkip(a, k, w, t, j);
      var s := SkipHeight(q);
      if j + 2 <= k && s >= t {
        assert TakesSkip(q, t) by { OddTakesSkip(q, t); }
        OddStretch(a, k, w, t, j + 2);
      } else if s == t {
        assert Steps(t, t) == 0;
      } else {
        assert NextStop(q, t) == q - 1;
        EvenBelow(a, k, w, t, j);
      }
    }
  }

  /** From an odd height the skip pointer is followed whenever it does not lead too far. */
  lemma OddTakesSkip(q: nat, t: nat)
    requires q % 2 == 1 && t < q && t <= SkipHeight(q)
    ensures TakesSkip(q, t)
  {
    if q >= 3 {
      var x := InvertLowestOne(q - 1);
      assert SkipHeight(q - 1) == x;
    }
  }

  /** One step below such a height. */
  lemma EvenBelow(a: nat, k: nat, w: nat, t: nat, j: nat)
    requires Stretch(a, k, w, t) && 1 <= j < k && j % 2 == 1 && Pow2(j) <= Pow2(k) && t <= w - Pow2(j)
    requires j + 2 <= k ==> Pow2(j + 2) <= Pow2(k) && w - Pow2(j + 2) + 1 < t
    ensures Steps(w - Pow2(j), t) <= 1 + Deep(k - 1)
    decreases k, 0
  {
    hide InvertLowestOne, Aligned, TakesSkip;
    StretchSkips(a, k, w, t, j);
    var x, b := w - Pow2(j), w - Pow2(j + 1);
    DeepGrows(j, k - 1);
    if b < t {
      LastStretch(b, j, x, t);
    } else {
      assert j + 2 <= k;
      StretchSkips(a, k, w, t, j + 1);
      EvenTakesSkip(a, k, w, t, j);
      LastStretch(w - Pow2(j + 2), j + 1, b, t);
      DeepGrows(j + 1, k - 1);
    }
  }

  lemma EvenTakesSkip(a: nat, k: nat, w: nat, t: nat, j: nat)
    requires Stretch(a, k, w, t) && 1 <= j && j + 2 <= k && j % 2 == 1 && Pow2(j + 2) <= Pow2(k)
    requires w - Pow2(j + 2) + 1 < t <= w - Pow2(j + 1)
    ensures TakesSkip(w - Pow2(j), t) && SkipHeight(w - Pow2(j)) == w - Pow2(j + 1)
  {
    hide InvertLowestOne, Aligned;
    StretchSkips(a, k, w, t, j);
    var x, b := w - Pow2(j), w - Pow2(j + 1);
    assert SkipHeight(x) == b;
    if j == 1 {
      assert x - 1 == w - Pow2(2) + 1;
      OddSkip(a, k, w, t, 2);
    } else {
      Pow2Grows(3, j);
      FarSkip(b, j, x);
    }
  }

  /** Three trailing zeros, and the skip pointer one below leads but seven back. */
  lemma FarSkip(b: nat, j: nat, x: nat)
    requires j >= 3 && x == b + Pow2(j) && Aligned(b, j + 1)
    ensures x >= 8 && SkipHeight(x - 1) == x - 7
  {
    hide InvertLowestOne, Pow2, Aligned;
    SmallPowers();
    Pow2Grows(3, j);
    Pow2Grows(0, j);
    StretchSkips(b, j, x, x, 1);
    StretchSkips(b, j, x, x, 2);
  }

  lemma SmallPowers()
    ensures Pow2(0) == 1 && Pow2(1) == 2 && Pow2(2) == 4 && Pow2(3) == 8
  {
  }

  /** From `w` down to a height above the end of its skip pointer. */
  lemma LastStretch(a: nat, k: nat, w: nat, t: nat)
    requires Stretch(a, k, w, t) && k > 0
    ensures Steps(w, t) <= Deep(k)
    decreases k, k
  {
    if t < w {
      LowestOneGoes(a, k);
      assert SkipHeight(w) == a;
      Pow2Grows(1, k);
      OddStretch(a, k, w, t, 1);
    }
  }

  // ----- the whole way -----

  /** The skip pointer below an even height is better only next to one or two trailing zeros, and
      then two binary ones are gone after two steps. */
  lemma BetterBelow(w: nat, t: nat)
    requires w > 0 && w % 2 == 0 && InvertLowestOne(w) >= t && t < w && !TakesSkip(w, t)
    ensures var s := SkipHeight(w - 1);
            t <= s < w - 1 && s % 2 == 1 && Ones(s - 1) + 2 <= Ones(w)
  {
    hide Aligned, Ones, Pow2, InvertLowestOne;
    var a := InvertLowestOne(w);
    var k := LowestOne(w);
    OneLess(w);
    SmallPowers();
    assert SkipHeight(w) == a;
    if k >= 3 {
      Pow2Grows(3, k);
      FarSkip(a, k, w);
    } else if k == 2 {
      TwoBelow(a);
      OneLess(a);
    } else {
      OneLess(a);
      var b := InvertLowestOne(a);
      assert SkipHeight(w - 1) == InvertLowestOne(b) + 1;
      if b > 0 {
        OneLess(b);
      }
    }
  }

  lemma TwoBelow(a: nat)
    requires Aligned(a, 3)
    ensures InvertLowestOne(a + 2) == a
  {
    AlignedLess(a, 3, 2);
    LowestOneGoes(a, 1);
    SmallPowers();
  }

  /** From an even height, and from an odd one. */
  lemma {:induction false} EvenWalk(w: nat, t: nat, d: nat)
    requires t <= w && w % 2 == 0 && BinaryDigits(w) <= d
    ensures Steps(w, t) <= 2 * Ones(w) + Deep(d)
    decreases w
  {
    hide Ones, Aligned, TakesSkip, InvertLowestOne, Pow2, Deep, BinaryDigits, SkipHeight;
    if t < w {
      var a := InvertLowestOne(w);
      var k := LowestOne(w);
      OneLess(w);
      if a < t {
        DigitsAreEnough(w, k);
        LastStretch(a, k, w, t);
        DeepGrows(k, d);
      } else if TakesSkip(w, t) {
        assert SkipHeight(w) == a by { EvenSkip(w); }
        DigitsGrow(a, w);
        EvenWalk(a, t, d);
      } else {
        BetterBelow(w, t);
        OddTakesSkip(w - 1, t);
        var s := SkipHeight(w - 1);
        assert Steps(w, t) == 2 + Steps(s, t);
        DigitsGrow(s, w);
        OddWalk(s, t, d);
      }
    }
  }

  lemma EvenSkip(w: nat)
    requires w > 0 && w % 2 == 0
    ensures SkipHeight(w) == InvertLowestOne(w)
  {
  }

  lemma {:induction false} OddWalk(w: nat, t: nat, d: nat)
    requires t <= w && w % 2 == 1 && BinaryDigits(w) <= d
    ensures Steps(w, t) <= 1 + 2 * Ones(w - 1) + Deep(d)
    decreases w
  {
    hide Ones, TakesSkip, InvertLowestOne, Deep, BinaryDigits, SkipHeight;
    if t < w {
      var s := SkipHeight(w);
      if t <= s {
        OddTakesSkip(w, t);
        OddSkipsOnes(w);
        DigitsGrow(s, w);
        if s % 2 == 1 {
          OddWalk(s, t, d);
        } else {
          EvenWalk(s, t, d);
        }
      } else {
        assert NextStop(w, t) == w - 1 by { NotBackTo(w, t); }
        DigitsGrow(w - 1, w);
        EvenWalk(w - 1, t, d);
      }
    }
  }

  lemma NotBackTo(w: nat, t: nat)
    requires t < w && SkipHeight(w) < t
    ensures !TakesSkip(w, t)
  {
  }

  lemma {:induction false} DigitsGrow(m: nat, n: nat)
    requires m <= n
    ensures BinaryDigits(m) <= BinaryDigits(n)
  {
    if m > 0 {
      DigitsGrow(m / 2, n / 2);
    }
  }

  /** From an odd height above 1 the skip pointer leads to an odd height, and takes a one away if there
      is one. */
  lemma OddSkipsOnes(w: nat)
    requires w % 2 == 1
    ensures var s := SkipHeight(w);
            if w == 1 then s == 0 else s % 2 == 1 && s > 0 && Ones(s - 1) + 1 <= Ones(w - 1)
  {
    if w > 1 {
      OneLess(w - 1);
      var x := InvertLowestOne(w - 1);
      if x > 0 {
        OneLess(x);
      }
    }
  }

  /** Quadratic in the number of binary digits of `n`. */
  function MostSteps(n: nat): nat {
    var d := BinaryDigits(n);
    d * (d + 9) / 2 + 1
  }

  /** The walk from height `w` takes no more steps than that, wherever it goes. */
  lemma WalkIsShort(w: nat, t: nat)
    requires t <= w
    ensures Steps(w, t) <= MostSteps(w)
  {
    hide Steps, Ones;
    var d := BinaryDigits(w);
    DeepIs(d);
    DigitsAreEnough(w, 0);
    if w % 2 == 0 {
      EvenWalk(w, t, d);
    } else {
      OddWalk(w, t, d);
      DigitsGrow(w - 1, w);
      DigitsAreEnough(w - 1, 0);
    }
  }
}
