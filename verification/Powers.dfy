/** Powers of two and of the limb base, and numbers as sequences of 32-bit limbs. */
module Powers {

  const B := 0x1_0000_0000

  /** Product and quotient of natural numbers. */
  function Times(a: nat, b: nat): nat { a * b }

  function Over(a: nat, d: nat): nat
    requires d > 0
  {
    a / d
  }

  function Rest(a: nat, d: nat): (r: nat)
    requires d > 0
    ensures r < d
  {
    a % d
  }

  function Pow2(n: nat): (r: nat)
    ensures r >= 1
  {
    if n == 0 then 1 else 2 * Pow2(n - 1)
  }

  function PowB(n: nat): (r: nat)
    ensures r >= 1
  {
    if n == 0 then 1 else B * PowB(n - 1)
  }

  lemma {:induction false} Pow2Add(m: nat, n: nat)
    ensures Pow2(m + n) == Pow2(m) * Pow2(n)
  {
    if n > 0 {
      Pow2Add(m, n - 1);
      calc {
        Pow2(m + n);
        2 * Pow2(m + (n - 1));
        2 * (Pow2(m) * Pow2(n - 1));
        Pow2(m) * (2 * Pow2(n - 1));
      }
    }
  }

  lemma {:induction false} PowBAdd(m: nat, n: nat)
    ensures PowB(m + n) == PowB(m) * PowB(n)
  {
    if n > 0 {
      PowBAdd(m, n - 1);
      calc {
        PowB(m + n);
        B * PowB(m + (n - 1));
        B * (PowB(m) * PowB(n - 1));
        PowB(m) * (B * PowB(n - 1));
      }
    }
  }

  lemma Pow2Of32()
    ensures Pow2(32) == B
  {
    assert Pow2(8) == 256;
    Pow2Add(8, 8);
    Pow2Add(16, 16);
  }

  lemma {:induction false} PowBIsPow2(n: nat)
    ensures PowB(n) == Pow2(32 * n)
  {
    if n > 0 {
      PowBIsPow2(n - 1);
      Pow2Of32();
      Pow2Add(32, 32 * (n - 1));
      assert 32 + 32 * (n - 1) == 32 * n;
    }
  }

  lemma {:induction false} Pow2Grows(m: nat, n: nat)
    requires m <= n
    ensures Pow2(m) <= Pow2(n) && (m < n ==> Pow2(m) < Pow2(n))
  {
    if m < n {
      Pow2Grows(m, n - 1);
    }
  }

  // ----- limbs -----

  predicate Limbs(s: seq<nat>) { forall i | 0 <= i < |s| :: s[i] < B }

  /** The number in the first `k` limbs, lowest first. */
  function Val(s: seq<nat>, k: nat): nat
    requires k <= |s|
  {
    if k == 0 then 0 else Val(s, k - 1) + Times(s[k - 1], PowB(k - 1))
  }

  lemma {:induction false} ValBound(s: seq<nat>, k: nat)
    requires k <= |s| && Limbs(s)
    ensures Val(s, k) < PowB(k)
  {
    if k > 0 {
      ValBound(s, k - 1);
      calc {
        Val(s, k);
      <  PowB(k - 1) + s[k - 1] * PowB(k - 1);
      == (1 + s[k - 1]) * PowB(k - 1);
      <= { MulMono(1 + s[k - 1], B, PowB(k - 1)); }
         B * PowB(k - 1);
      }
    }
  }

  lemma MulAssoc(a: int, b: int, c: int)
    ensures a * b * c == a * (b * c)
  {
  }

  lemma MulDist(a: int, b: int, c: int)
    ensures (a + b) * c == a * c + b * c
  {
  }

  lemma MulMono(a: int, b: int, c: nat)
    requires a <= b
    ensures a * c <= b * c
  {
  }

  lemma {:induction false} ValSame(s: seq<nat>, t: seq<nat>, k: nat)
    requires k <= |s| && k <= |t| && forall i | 0 <= i < k :: s[i] == t[i]
    ensures Val(s, k) == Val(t, k)
  {
    if k > 0 {
      ValSame(s, t, k - 1);
    }
  }

  /** Changing one limb moves the number by the difference. */
  lemma {:induction false} ValSet(s: seq<nat>, i: nat, x: nat, k: nat)
    requires i < |s| && k <= |s|
    ensures Val(s[i := x], k) == if i < k then Val(s, k) + (x - s[i]) * PowB(i) else Val(s, k)
  {
    if k > 0 {
      ValSet(s, i, x, k - 1);
      if i == k - 1 {
        ValSame(s[i := x], s, k - 1);
        assert x * PowB(i) == s[i] * PowB(i) + (x - s[i]) * PowB(i);
      }
    }
  }

  lemma {:induction false} ValZero(s: seq<nat>, j: nat, k: nat)
    requires j <= k <= |s| && forall i | j <= i < k :: s[i] == 0
    ensures Val(s, k) == Val(s, j)
  {
    if j < k {
      ValZero(s, j, k - 1);
    }
  }

  /** The higher limbs count in multiples of a power of the base. */
  lemma {:induction false} ValSplit(s: seq<nat>, j: nat, k: nat) returns (q: nat)
    requires j <= k <= |s|
    ensures Val(s, k) == Val(s, j) + q * PowB(j)
  {
    if j == k {
      q := 0;
    } else {
      hide PowB;
      var q1 := ValSplit(s, j, k - 1);
      PowBAdd(j, k - 1 - j);
      assert j + (k - 1 - j) == k - 1;
      q := q1 + Times(s[k - 1], PowB(k - 1 - j));
      SplitStep(q1, s[k - 1], PowB(j), PowB(k - 1 - j));
    }
  }

  lemma SplitStep(q: nat, a: nat, p: nat, r: nat)
    ensures (q + Times(a, r)) * p == q * p + Times(a, p * r)
  {
    MulDist(q, a * r, p);
    MulAssoc(a, r, p);
  }

  // ----- division facts -----

  lemma SmallMultiple(e: int, d: int)
    requires d > 0 && -d < e * d < d
    ensures e == 0
  {
    if e >= 1 {
      MulMono(1, e, d);
    } else if e <= -1 {
      MulMono(e, -1, d);
    }
  }

  lemma ModUnique(x: int, q: int, r: int, d: nat)
    requires d > 0 && x == q * d + r && 0 <= r < d
    ensures x % d == r && x / d == q
  {
    var q', r' := x / d, x % d;
    assert x == q' * d + r' by { DivMod(x, d); }
    MulDist(q', -q, d);
    SmallMultiple(q' - q, d);
  }

  lemma DivMod(x: int, d: nat)
    requires d > 0
    ensures x == (x / d) * d + x % d && 0 <= x % d < d
  {
  }

  lemma ModPlus(x: int, m: int, d: nat)
    requires d > 0
    ensures (x + m * d) % d == x % d
  {
    DivMod(x, d);
    MulDist(x / d, m, d);
    ModUnique(x + m * d, x / d + m, x % d, d);
  }

  // ----- bits -----

  /** Bitwise or. */
  function Or(a: nat, b: nat): nat {
    if a == 0 then b else if b == 0 then a
    else 2 * Or(a / 2, b / 2) + if a % 2 == 1 || b % 2 == 1 then 1 else 0
  }

  /** Numbers without a common bit: or is the sum. */
  lemma {:induction false} OrDisjoint(a: nat, q: nat, s: nat)
    requires a < Pow2(s)
    ensures Or(a, q * Pow2(s)) == a + q * Pow2(s) && Or(q * Pow2(s), a) == a + q * Pow2(s)
    decreases s
  {
    if a > 0 && q * Pow2(s) > 0 {
      var b := q * Pow2(s);
      assert b == 2 * (q * Pow2(s - 1));
      assert b / 2 == q * Pow2(s - 1) && b % 2 == 0;
      OrDisjoint(a / 2, q, s - 1);
    }
  }

  /** A limb shifted left by `s` bits: what stays in the limb, and what moves on to the next. */
  lemma ShiftSplit(a: nat, s: nat)
    requires a < B && s <= 32
    ensures var hi, lo := a / Pow2(32 - s), (a * Pow2(s)) % B;
            a * Pow2(s) == hi * B + lo && lo == (a % Pow2(32 - s)) * Pow2(s) && hi < Pow2(s) && lo < B
  {
    hide Pow2;
    Pow2Of32();
    Pow2Add(32 - s, s);
    assert 32 - s + s == 32;
    SplitAt(a, Pow2(32 - s), Pow2(s));
  }

  lemma SplitAt(a: nat, d: nat, t: nat)
    requires d >= 1 && t >= 1 && d * t == B && a < B
    ensures a * t == a / d * B + a % d * t && (a * t) % B == a % d * t && a / d < t
  {
    var hi, r := a / d, a % d;
    DivMod(a, d);
    MulDist(hi * d, r, t);
    MulAssoc(hi, d, t);
    MulMono(r + 1, d, t);
    MulDist(r, 1, t);
    ModUnique(a * t, hi, r * t, B);
    if hi >= t {
      MulMono(t, hi, d);
      assert false;
    }
  }

  lemma DivPlus(x: nat, m: nat, d: nat)
    requires d > 0
    ensures (x + m * d) / d == x / d + m
  {
    DivMod(x, d);
    MulDist(x / d, m, d);
    ModUnique(x + m * d, x / d + m, x % d, d);
  }

  /** Dividing by a product, with a small rest. */
  lemma DivBoth(r: nat, a: nat, p: nat, t: nat)
    requires r < p && t > 0
    ensures p * t > 0 && (r + a * p) / (p * t) == a / t
  {
    var q, m := a / t, a % t;
    DivMod(a, t);
    MulDist(q * t, m, p);
    MulAssoc(q, t, p);
    assert t * p == p * t;
    MulMono(m + 1, t, p);
    MulDist(m, 1, p);
    assert p * t > 0;
    ModUnique(r + a * p, q, r + m * p, p * t);
  }

  // ----- single bits -----

  predicate BitOf(x: nat, i: nat) { (x / Pow2(i)) % 2 == 1 }

  lemma TopBit(low: nat, i: nat)
    requires low < Pow2(i)
    ensures BitOf(low + Pow2(i), i) && !BitOf(low, i)
  {
    hide Pow2;
    ModUnique(low + Pow2(i), 1, low, Pow2(i));
    ModUnique(low, 0, low, Pow2(i));
  }

  lemma LowerBit(low: nat, k: nat, i: nat)
    requires i < k
    ensures BitOf(low + Pow2(k), i) <==> BitOf(low, i)
  {
    hide Pow2;
    Pow2Add(k - i, i);
    assert k - i + i == k;
    DivPlus(low, Pow2(k - i), Pow2(i));
    EvenPow(k - i);
    EvenSum(low / Pow2(i), Pow2(k - i));
  }

  lemma EvenPow(n: nat)
    requires n > 0
    ensures Pow2(n) % 2 == 0
  {
  }

  lemma EvenSum(a: nat, b: nat)
    requires b % 2 == 0
    ensures (a + b) % 2 == a % 2
  {
  }
}
