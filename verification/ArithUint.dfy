/** base_uint (src/arith_uint256.h, src/arith_uint256.cpp): fixed-width integers in 32-bit limbs,
    lowest first. Every operation works on the limbs in place, as the source does, and is proved
    against the natural number they stand for, modulo the width. */
module ArithUint {
  import opened Powers

  /** A limb's part of a running sum, and what is carried on. */
  lemma CarryStep(n: nat, p: nat)
    ensures (n % B) * p + (n / B) * (B * p) == n * p
  {
    DivMod(n, B);
    MulDist(n % B, n / B * B, p);
    MulAssoc(n / B, B, p);
  }

  lemma MulDist3(a: int, b: int, c: int, p: int)
    ensures (a + b + c) * p == a * p + b * p + c * p
  {
  }

  lemma AddStep(v: nat, carry: nat, x: nat, y: nat, vx: nat, vy: nat, p: nat)
    requires v + carry * p == vx + vy
    ensures var n := carry + x + y; v + (n % B) * p + (n / B) * (B * p) == vx + x * p + (vy + y * p)
  {
    CarryStep(carry + x + y, p);
    MulDist3(carry, x, y, p);
  }

  lemma MulStep(v: nat, carry: nat, x: nat, y: nat, vx: nat, p: nat)
    requires v + Times(carry, p) == Times(vx, y)
    ensures var n := carry + Times(y, x); v + Times(n % B, p) + Times(n / B, B * p) == Times(vx + Times(x, p), y)
  {
    CarryStep(carry + y * x, p);
    MulDist(carry, y * x, p);
    MulDist(vx, x * p, y);
    assert y * x * p == x * p * y by {
      MulAssoc(y, x, p);
    }
  }

  lemma MulEnd(v: nat, carry: nat, x: nat, y: nat, m: nat)
    requires v + Times(carry, m) == Times(x, y) && v < m
    ensures v == (x * y) % m
  {
    ModUnique(x * y, carry, v, m);
  }

  lemma MulNothing(y: nat, p: nat)
    ensures Times(0, p) == Times(0, y) == 0
  {
  }

  /** One more limb wrapped to zero, or was increased for good. */
  lemma IncrementStep(v: int, x: nat, limb: nat, p: nat, total: int)
    requires limb < B && v + p == total
    ensures var l := (limb + 1) % B; v + (l - limb) * p + (if l == 0 then B * p else 0) == total
  {
    if limb == B - 1 {
      ModUnique(B, 1, 0, B);
      MulDist(-B, 1, p);
    } else {
      ModUnique(limb + 1, 0, limb + 1, B);
    }
  }

  class BaseUint {
    const pn: array<nat>

    ghost predicate Ok() reads pn { pn.Length >= 2 && Limbs(pn[..]) }

    /** The number the limbs stand for. */
    ghost function V(): nat
      reads pn
    {
      Val(pn[..], pn.Length)
    }

    ghost function Modulus(): nat { PowB(pn.Length) }

    lemma InRange()
      requires Ok()
      ensures V() < Modulus()
    {
      ValBound(pn[..], pn.Length);
    }

    constructor Zero(width: nat)
      requires width >= 2
      ensures Ok() && V() == 0 && pn.Length == width && fresh(pn)
    {
      pn := new nat[width](_ => 0);
      new;
      ValZero(pn[..], 0, pn.Length);
    }

    constructor Copy(b: BaseUint)
      requires b.Ok()
      ensures Ok() && V() == b.V() && pn[..] == b.pn[..] && fresh(pn)
    {
      pn := new nat[b.pn.Length](i requires 0 <= i < b.pn.Length reads b.pn => b.pn[i]);
      new;
      assert pn[..] == b.pn[..];
    }

    /** operator=(uint64_t) with zero */
    method SetZero()
      requires Ok()
      modifies pn
      ensures Ok() && V() == 0 && forall i | 0 <= i < pn.Length :: pn[i] == 0
    {
      for i := 0 to pn.Length
        invariant forall j | 0 <= j < i :: pn[j] == 0
      {
        pn[i] := 0;
      }
      ValZero(pn[..], 0, pn.Length);
    }

    /** operator+=; `b` may be this very object. */
    method Add(b: BaseUint)
      requires Ok() && b.Ok() && b.pn.Length == pn.Length
      modifies pn
      ensures Ok() && V() == (old(V()) + old(b.V())) % Modulus()
    {
      ghost var x, y := pn[..], b.pn[..];
      var carry: nat := 0;
      for i := 0 to pn.Length
        invariant carry < B && Limbs(pn[..])
        invariant Val(pn[..], i) + carry * PowB(i) == Val(x, i) + Val(y, i)
        invariant forall j | i <= j < pn.Length :: pn[j] == x[j] && b.pn[j] == y[j]
      {
        var n: nat := carry + pn[i] + b.pn[i];
        ghost var was := pn[..];
        var limb: nat := n % B;
        pn[i] := limb;
        assert pn[..] == was[i := limb];
        ValSame(pn[..], was, i);
        AddStep(Val(was, i), carry, x[i], y[i], Val(x, i), Val(y, i), PowB(i));
        carry := n / B;
      }
      ValBound(pn[..], pn.Length);
      ModUnique(old(V()) + old(b.V()), carry, V(), Modulus());
    }

    /** operator++ */
    method Increment()
      requires Ok()
      modifies pn
      ensures Ok() && V() == (old(V()) + 1) % Modulus()
    {
      ghost var x := pn[..];
      ghost var total := Val(x, pn.Length) + 1;
      var i := 0;
      IncrementStep(Val(x, pn.Length), 0, x[0], PowB(0), total);
      IncrementAt(0);
      while pn[i] == 0 && i < pn.Length - 1
        invariant 0 <= i < pn.Length && Limbs(pn[..])
        invariant V() + (if pn[i] == 0 then PowB(i + 1) else 0) == total
        decreases pn.Length - i
      {
        i := i + 1;
        IncrementStep(V(), 0, pn[i], PowB(i), total);
        IncrementAt(i);
      }
      ValBound(pn[..], pn.Length);
      ValBound(x, pn.Length);
      ModUnique(total, if pn[i] == 0 then 1 else 0, V(), Modulus());
    }

    /** ++pn[i] on 32 bits */
    method IncrementAt(i: nat)
      requires Ok() && i < pn.Length
      modifies pn
      ensures Ok() && pn[i] == (old(pn[i]) + 1) % B
      ensures V() == old(V()) + (pn[i] - old(pn[i])) * PowB(i)
    {
      ghost var was := pn[..];
      var limb: nat := (pn[i] + 1) % B;
      pn[i] := limb;
      assert pn[..] == was[i := limb];
      ValSet(was, i, limb, pn.Length);
    }

    /** operator-: two's complement. */
    method Negate() returns (r: BaseUint)
      requires Ok()
      ensures r.Ok() && fresh(r) && fresh(r.pn) && r.pn.Length == pn.Length
      ensures r.V() == (Modulus() - V()) % Modulus()
    {
      r := new BaseUint.Zero(pn.Length);
      for i := 0 to pn.Length
        invariant Limbs(r.pn[..])
        invariant Val(r.pn[..], i) + Val(pn[..], i) + 1 == PowB(i)
      {
        ghost var was := r.pn[..];
        var limb: nat := B - 1 - pn[i];  // ~pn[i]
        r.pn[i] := limb;
        assert r.pn[..] == was[i := limb];
        ValSame(r.pn[..], was, i);
        MulDist3(B - 1 - pn[i], pn[i], 1, PowB(i));
      }
      r.Increment();
    }

    /** operator-= */
    method Subtract(b: BaseUint)
      requires Ok() && b.Ok() && b.pn.Length == pn.Length
      modifies pn
      ensures Ok() && V() == (old(V()) - old(b.V())) % Modulus()
    {
      hide Val, PowB, Limbs;
      ghost var x, y := V(), b.V();
      b.InRange();
      var minus := b.Negate();
      ghost var z := minus.V();
      Add(minus);
      Subtracted(V(), x, y, z, Modulus());
    }

    /** operator*=(uint32_t): the 64-bit accumulator never overflows. */
    method MulSmall(b32: nat)
      requires Ok() && b32 < B
      modifies pn
      ensures Ok() && V() == (old(V()) * b32) % Modulus()
    {
      hide Times;
      ghost var x := pn[..];
      var carry: nat := 0;
      MulNothing(b32, 1);
      for i := 0 to pn.Length
        invariant carry < B && Limbs(pn[..])
        invariant Val(pn[..], i) + Times(carry, PowB(i)) == Times(Val(x, i), b32)
        invariant forall j | i <= j < pn.Length :: pn[j] == x[j]
      {
        FitsAccumulator(carry, 0, b32, pn[i]);
        var n: nat := carry + Times(b32, pn[i]);
        ghost var was := pn[..];
        var limb: nat := n % B;
        pn[i] := limb;
        assert pn[..] == was[i := limb];
        ValSame(pn[..], was, i);
        MulStep(Val(was, i), carry, x[i], b32, Val(x, i), PowB(i));
        carry := n / B;
      }
      ValBound(pn[..], pn.Length);
      MulEnd(V(), carry, old(V()), b32, Modulus());
    }

    /** CompareTo: the sign of the difference. */
    method CompareTo(b: BaseUint) returns (c: int)
      requires Ok() && b.Ok() && b.pn.Length == pn.Length
      ensures c == if V() < b.V() then -1 else if V() > b.V() then 1 else 0
    {
      var i := pn.Length;
      while i > 0
        invariant 0 <= i <= pn.Length
        invariant forall j | i <= j < pn.Length :: pn[j] == b.pn[j]
      {
        i := i - 1;
        if pn[i] < b.pn[i] {
          HigherLimbDecides(pn[..], b.pn[..], i);
          return -1;
        }
        if pn[i] > b.pn[i] {
          HigherLimbDecides(b.pn[..], pn[..], i);
          return 1;
        }
      }
      assert pn[..] == b.pn[..];
      return 0;
    }

    /** operator*=. The product modulo the width, unless the operand is this very object: it is
        zeroed together with the result, and the outcome is zero. */
    method Multiply(b: BaseUint)
      requires Ok() && b.Ok() && b.pn.Length == pn.Length && (b.pn == pn ==> b == this)
      modifies pn
      ensures Ok() && V() == if b == this then 0 else (old(V()) * old(b.V())) % Modulus()
    {
      hide RowsDone, RowAdded, Val, PowB;
      ghost var x, y := pn[..], b.pn[..];
      var a := new BaseUint.Copy(this);
      SetZero();
      RowsStart(x, y);
      for j := 0 to pn.Length
        invariant Ok() && a.pn[..] == x
        invariant b == this ==> V() == 0 && forall i | 0 <= i < pn.Length :: pn[i] == 0
        invariant b != this ==> b.pn[..] == y && RowsDone(x, y, j, V())
      {
        ghost var before := V();
        AddProduct(b, a.pn[j], j);
        if b != this {
          InRange();
          RowDone(x, y, j, before, V());
        }
      }
      if b != this {
        RowsEnd(x, y, V());
      }
    }

    /** One row of the schoolbook product: `limb` times `b`, from limb `j` on. */
    method AddProduct(b: BaseUint, limb: nat, j: nat)
      requires Ok() && b.Ok() && b.pn.Length == pn.Length && limb < B && j < pn.Length && (b.pn == pn ==> b == this)
      requires b == this ==> forall i | 0 <= i < pn.Length :: pn[i] == 0
      modifies pn
      ensures Ok()
      ensures b == this ==> V() == 0 && forall i | 0 <= i < pn.Length :: pn[i] == 0
      ensures b != this ==> b.pn[..] == old(b.pn[..]) && RowAdded(V(), old(V()), limb, b.pn[..], j)
    {
      hide RowPart, RowAdded, Val, PowB;
      ghost var y, before := b.pn[..], V();
      var carry: nat := 0;
      RowPartStart(before, limb, y, j);
      for i := 0 to pn.Length - j
        invariant Ok() && carry < B
        invariant b == this ==> carry == 0 && forall k | 0 <= k < pn.Length :: pn[k] == 0
        invariant b != this ==> b.pn[..] == y && RowPart(V(), carry, before, limb, y, i, j)
      {
        ghost var v, c, l := V(), carry, pn[i + j];
        carry := AddAt(i + j, carry, limb, b.pn[i]);
        if b != this {
          RowStep(v, V(), before, c, l, limb, y, i, j);
        }
      }
      if b == this {
        ValZero(pn[..], 0, pn.Length);
        ValNothing(pn[..]);
      } else {
        RowPartEnd(V(), carry, before, limb, y, j);
      }
    }

    /** pn[k] += carry + a * y on a 64-bit accumulator, which does not overflow. */
    method AddAt(k: nat, carry: nat, a: nat, y: nat) returns (carry': nat)
      requires Ok() && k < pn.Length && carry < B && a < B && y < B
      modifies pn
      ensures Ok() && carry' < B
      ensures forall i | 0 <= i < pn.Length && i != k :: pn[i] == old(pn[i])
      ensures var n := carry + old(pn[k]) + a * y;
              pn[k] == n % B && carry' == n / B && V() == old(V()) + (n % B - old(pn[k])) * PowB(k)
    {
      FitsAccumulator(carry, pn[k], a, y);
      var n: nat := carry + pn[k] + a * y;
      assert n < B * B;
      ghost var was := pn[..];
      var low: nat := n % B;
      pn[k] := low;
      assert pn[..] == was[k := low];
      ValSet(was, k, low, pn.Length);
      carry' := n / B;
    }

    /** bits: the position of the highest one bit, plus one. */
    method Bits() returns (r: nat)
      requires Ok()
      ensures r <= 32 * pn.Length && V() < Pow2(r) && (r > 0 ==> V() >= Pow2(r - 1))
      ensures r == 0 <==> V() == 0
    {
      var pos := pn.Length;
      while pos > 0
        invariant 0 <= pos <= pn.Length
        invariant forall j | pos <= j < pn.Length :: pn[j] == 0
      {
        pos := pos - 1;
        if pn[pos] != 0 {
          var bits := 31;
          Pow2Of32();
          while bits > 0
            invariant 0 <= bits <= 31 && pn[pos] < Pow2(bits + 1)
          {
            // pn[pos] & 1 << bits
            if (pn[pos] / Pow2(bits)) % 2 == 1 {
              BitFound(pn[..], pos, bits);
              ValZero(pn[..], pos + 1, pn.Length);
              return 32 * pos + bits + 1;
            }
            BitClear(pn[pos], bits);
            bits := bits - 1;
          }
          BitFound(pn[..], pos, 0);
          ValZero(pn[..], pos + 1, pn.Length);
          return 32 * pos + 1;
        }
      }
      ValZero(pn[..], 0, pn.Length);
      return 0;
    }

    /** pn[k] |= x */
    method OrAt(k: nat, x: nat)
      requires Ok() && k < pn.Length && Or(pn[k], x) < B
      modifies pn
      ensures Ok() && pn[k] == Or(old(pn[k]), x)
      ensures forall i | 0 <= i < pn.Length && i != k :: pn[i] == old(pn[i])
      ensures V() == old(V()) + (pn[k] - old(pn[k])) * PowB(k)
    {
      ghost var was := pn[..];
      var limb: nat := Or(pn[k], x);
      pn[k] := limb;
      assert pn[..] == was[k := limb];
      ValSet(was, k, limb, pn.Length);
    }

    /** operator<<= */
    method ShiftLeft(shift: nat)
      requires Ok()
      modifies pn
      ensures Ok() && V() == (old(V()) * Pow2(shift)) % Modulus()
    {
      hide Pow2, PowB, Val, LeftPart, Or;
      ghost var x := pn[..];
      var a := new BaseUint.Copy(this);
      SetZero();
      var k, s := shift / 32, shift % 32;
      LeftStart(x, k, s, pn.Length);
      Pow2AtLeastOne(s);
      for i := 0 to pn.Length
        invariant Ok() && a.pn[..] == x && LeftPart(V(), x, i, k, s, pn.Length)
        invariant forall j | i + k < j < pn.Length :: pn[j] == 0
        invariant i + k < pn.Length ==> pn[i + k] < Pow2(s)
      {
        LeftRound(a.pn[i], i, k, s, x);
      }
      LeftEnd(V(), x, k, s, shift);
    }

    /** One limb of the shift: its low part joins what the limb before left, its high part starts the
        next limb. */
    method LeftRound(limb: nat, i: nat, k: nat, s: nat, ghost x: seq<nat>)
      requires Ok() && |x| == pn.Length && i < |x| && limb == x[i] && Limbs(x) && s < 32
      requires LeftPart(V(), x, i, k, s, pn.Length)
      requires forall j | i + k < j < pn.Length :: pn[j] == 0
      requires i + k < pn.Length ==> pn[i + k] < Pow2(s)
      modifies pn
      ensures Ok() && LeftPart(V(), x, i + 1, k, s, pn.Length)
      ensures forall j | i + 1 + k < j < pn.Length :: pn[j] == 0
      ensures i + 1 + k < pn.Length ==> pn[i + 1 + k] < Pow2(s)
    {
      hide Pow2, PowB, Val, LeftPart, Or;
      ghost var v := V();
      var high: nat := limb / Pow2(32 - s);
      var low: nat := (limb * Pow2(s)) % B;
      if i + k < pn.Length {
        LeftLimb(limb, pn[i + k], s);
      }
      if i + k + 1 < pn.Length && s != 0 {
        OrNothing(high);
        OrAt(i + k + 1, high);
      }
      if i + k < pn.Length {
        OrAt(i + k, low);
        InRange();
        LeftStep(v, V(), x, i, k, s, pn.Length);
      } else {
        LeftIdle(v, x, i, k, s, pn.Length);
      }
    }

    /** operator>>= */
    method ShiftRight(shift: nat)
      requires Ok()
      modifies pn
      ensures Ok() && V() == old(V()) / Pow2(shift)
    {
      hide Pow2, PowB, Val, Or, RightPart, Halves;
      ghost var x := pn[..];
      var a := new BaseUint.Copy(this);
      SetZero();
      var k, s := shift / 32, shift % 32;
      RightStart(x, shift);
      for i := 0 to pn.Length
        invariant Ok() && a.pn[..] == x && RightPart(V(), x, i, shift)
        invariant forall j | 0 <= j < pn.Length && j >= i - k :: pn[j] == 0
        invariant i > k ==> pn[i - k - 1] == x[i - 1] / Pow2(s)
      {
        ghost var v := V();
        if i > k {
          RightLimb(x[i - 1], x[i], s);
        }
        RightLimbAlone(x[i], s);
        var low: nat := (a.pn[i] * Pow2(32 - s)) % B;
        var high: nat := a.pn[i] / Pow2(s);
        if i - k - 1 >= 0 && s != 0 {
          OrAt(i - k - 1, low);
        }
        if i - k >= 0 {
          OrNothing(high);
          OrAt(i - k, high);
        }
        RightStep(v, V(), x, i, k, s, shift, high, low);
      }
      RightEnd(V(), x, shift);
    }

    /** operator/=: the floor quotient. Dividing by zero fails, and leaves zero behind. */
    method Divide(b: BaseUint) returns (ok: bool)
      requires Ok() && b.Ok() && b.pn.Length == pn.Length
      modifies pn
      ensures Ok() && ok == (old(b.V()) != 0)
      ensures V() == if ok then old(V()) / old(b.V()) else 0
    {
      hide Pow2, PowB, Val, Or, QuotientPart, Limbs;
      ghost var n, d := V(), b.V();
      var div := new BaseUint.Copy(b);
      var num := new BaseUint.Copy(this);
      SetZero();
      var numBits := num.Bits();
      var divBits := div.Bits();
      if divBits == 0 {
        return false;
      }
      if divBits > numBits {
        SmallDividend(n, d, numBits, divBits);
        return true;
      }
      var shift := numBits - divBits;
      num.InRange();
      AlignedFits(n, d, numBits, divBits, pn.Length);
      div.ShiftLeft(shift);
      while shift >= 0
        invariant Ok() && num.Ok() && div.Ok() && fresh(num.pn) && fresh(div.pn) && num.pn != div.pn && num.pn != pn && div.pn != pn
        invariant num.pn.Length == div.pn.Length == pn.Length
        invariant -1 <= shift < 32 * pn.Length && QuotientPart(n, d, num.V(), V(), shift)
        invariant shift >= 0 ==> div.V() == d * Pow2(shift)
        decreases shift
      {
        ghost var q := V();
        var c := num.CompareTo(div);
        ghost var r := num.V();
        if c >= 0 {
          num.InRange();
          num.Subtract(div);
          PlainDifference(r, div.V(), num.Modulus());
          SetQuotientBit(shift, n, d, r);
        }
        QuotientStep(n, d, r, q, shift);
        div.ShiftRight(1);
        HalfDivisor(d, shift);
        shift := shift - 1;
      }
      QuotientEnd(n, d, num.V(), V());
      return true;
    }

    /** pn[shift / 32] |= 1 << (shift & 31), on a quotient whose lower bits are still clear. */
    method SetQuotientBit(shift: nat, ghost n: nat, ghost d: nat, ghost r: nat)
      requires Ok() && shift < 32 * pn.Length && QuotientPart(n, d, r, V(), shift)
      modifies pn
      ensures Ok() && V() == old(V()) + Pow2(shift)
    {
      hide Pow2, PowB, Val, Or, QuotientPart;
      ghost var v := V();
      QuotientLimb(pn[..], shift, n, d, r);
      OrAt(shift / 32, Pow2(shift % 32));
      BitValue(shift);
    }
  }

  lemma ValNothing(s: seq<nat>)
    ensures Val(s, 0) == 0
  {
  }

  // ----- the schoolbook product -----

  /** A running row: `v` with the carry still to come. */
  ghost predicate RowPart(v: nat, carry: nat, before: nat, a: nat, y: seq<nat>, i: nat, j: nat)
    requires i <= |y|
  {
    v + carry * PowB(i + j) == before + a * Val(y, i) * PowB(j)
  }

  /** A row is in, up to what was carried out of the width. */
  ghost predicate RowAdded(v: nat, before: nat, a: nat, y: seq<nat>, j: nat)
    requires j <= |y|
  {
    var m, total := PowB(|y|), before + a * Val(y, |y| - j) * PowB(j);
    exists c: nat :: AddsUp(v, c, m, total)
  }

  predicate AddsUp(v: nat, c: nat, m: nat, total: nat) { v + c * m == total }

  /** The first `j` rows are in, modulo the width. */
  ghost predicate RowsDone(x: seq<nat>, y: seq<nat>, j: nat, v: nat)
    requires j <= |x|
  {
    v == (Val(x, j) * Val(y, |y|)) % PowB(|y|)
  }

  lemma RowsStart(x: seq<nat>, y: seq<nat>)
    ensures RowsDone(x, y, 0, 0)
  {
    ModUnique(0, 0, 0, PowB(|y|));
  }

  lemma RowsEnd(x: seq<nat>, y: seq<nat>, v: nat)
    requires |x| == |y| && RowsDone(x, y, |x|, v)
    ensures v == (Val(x, |x|) * Val(y, |y|)) % PowB(|x|)
  {
  }

  lemma RowPartStart(before: nat, a: nat, y: seq<nat>, j: nat)
    ensures RowPart(before, 0, before, a, y, 0, j)
  {
  }

  lemma RowPartEnd(v: nat, carry: nat, before: nat, a: nat, y: seq<nat>, j: nat)
    requires j <= |y| && RowPart(v, carry, before, a, y, |y| - j, j)
    ensures RowAdded(v, before, a, y, j)
  {
    assert |y| - j + j == |y|;
    assert AddsUp(v, carry, PowB(|y|), before + a * Val(y, |y| - j) * PowB(j));
  }

  lemma RowStep(v: nat, v': nat, before: nat, carry: nat, limb: nat, a: nat, y: seq<nat>, i: nat, j: nat)
    requires i < |y| && RowPart(v, carry, before, a, y, i, j)
    requires var n := carry + limb + a * y[i]; v' == v + (n % B - limb) * PowB(i + j)
    ensures RowPart(v', (carry + limb + a * y[i]) / B, before, a, y, i + 1, j)
  {
    var p, r := PowB(i + j), PowB(j);
    assert PowB(i + 1 + j) == B * p;
    PowBAdd(i, j);
    RowStepSums(v, before, carry, limb, a * y[i], p, a * Val(y, i) * r);
    RowStepProduct(a, Val(y, i), y[i], PowB(i), r);
  }

  lemma RowStepSums(v: int, before: int, carry: nat, limb: nat, ay: nat, p: nat, row: nat)
    requires v + carry * p == before + row
    ensures var n := carry + limb + ay;
            v + (n % B - limb) * p + (n / B) * (B * p) == before + row + ay * p
  {
    var n := carry + limb + ay;
    CarryStep(n, p);
    MulDist(n % B - limb, limb, p);
    MulDist3(carry, limb, ay, p);
  }

  lemma RowStepProduct(a: nat, v: nat, y: nat, q: nat, r: nat)
    ensures a * (v + y * q) * r == a * v * r + (a * y) * (q * r)
  {
    assert a * (v + y * q) == a * v + a * (y * q);
    MulDist(a * v, a * (y * q), r);
    MulAssoc(a, y, q);
    MulAssoc(a * y, q, r);
  }

  /** After a row, the product of one more limb is in. */
  lemma RowDone(x: seq<nat>, y: seq<nat>, j: nat, before: nat, v: nat)
    requires |x| == |y| && j < |x| && v < PowB(|y|)
    requires RowsDone(x, y, j, before) && RowAdded(v, before, x[j], y, j)
    ensures RowsDone(x, y, j + 1, v)
  {
    var low := Val(y, |y| - j);
    var total := before + x[j] * low * PowB(j);
    var c: nat :| AddsUp(v, c, PowB(|y|), total);
    var q := ValSplit(y, |y| - j, |y|);
    PowBAdd(|y| - j, j);
    assert |y| - j + j == |y|;
    RowArithmetic(Val(x, j), x[j], PowB(j), Val(y, |y|), low, q, PowB(|y| - j), PowB(|y|), before, v, c);
  }

  lemma RowArithmetic(x: nat, a: nat, r: nat, Y: nat, low: nat, q: nat, p: nat, m: nat, before: nat, v: nat, c: nat)
    requires m > 0 && v < m && Y == low + q * p && m == p * r
    requires before == (x * Y) % m && v + c * m == before + a * low * r
    ensures v == ((x + a * r) * Y) % m
  {
    DivMod(x * Y, m);
    RowTail(a, low, q, p, r, Y, m);
    RowTotal(x, a, r, Y, before, (x * Y) / m, v, c, a * low * r, a * q, m);
    ModUnique((x + a * r) * Y, (x * Y) / m + a * q + c, v, m);
  }

  lemma RowTail(a: nat, low: nat, q: nat, p: nat, r: nat, Y: nat, m: nat)
    requires Y == low + q * p && m == p * r
    ensures a * Y * r == a * low * r + a * q * m
  {
    assert a * Y == a * low + a * (q * p);
    MulDist(a * low, a * (q * p), r);
    MulAssoc(a, q, p);
    MulAssoc(a * q, p, r);
  }

  lemma RowTotal(x: nat, a: nat, r: nat, Y: nat, before: nat, e: nat, v: nat, c: nat, low: nat, aq: nat, m: nat)
    requires x * Y == e * m + before && a * Y * r == low + aq * m && v + c * m == before + low
    ensures (x + a * r) * Y == (e + aq + c) * m + v
  {
    MulDist(x, a * r, Y);
    MulAssoc(a, r, Y);
    MulAssoc(a, Y, r);
    MulDist3(e, aq, c, m);
  }

  lemma BitClear(a: nat, bits: nat)
    requires bits > 0 && a < Pow2(bits + 1) && (a / Pow2(bits)) % 2 != 1
    ensures a < Pow2(bits)
  {
    DivMod(a, Pow2(bits));
    if a / Pow2(bits) >= 2 {
      MulMono(2, a / Pow2(bits), Pow2(bits));
      assert false;
    }
  }

  lemma BitFound(s: seq<nat>, pos: nat, bits: nat)
    requires Limbs(s) && pos < |s| && bits < 32 && s[pos] > 0 && s[pos] < Pow2(bits + 1)
    requires bits > 0 ==> (s[pos] / Pow2(bits)) % 2 == 1
    ensures Pow2(32 * pos + bits) <= Val(s, pos + 1) < Pow2(32 * pos + bits + 1)
  {
    ValBound(s, pos);
    PowBIsPow2(pos);
    Pow2Add(32 * pos, bits);
    Pow2Add(32 * pos, bits + 1);
    assert Pow2(bits) <= s[pos] by {
      if s[pos] < Pow2(bits) {
        ModUnique(s[pos], 0, s[pos], Pow2(bits));
        assert false;
      }
    }
    Between(s[pos], Pow2(bits), Pow2(bits + 1), PowB(pos), Val(s, pos));
  }

  lemma Between(a: nat, low: nat, high: nat, p: nat, rest: nat)
    requires low <= a < high && rest < p
    ensures p * low <= rest + a * p < p * high
  {
    MulMono(low, a, p);
    MulMono(a + 1, high, p);
    MulDist(a, 1, p);
  }

  lemma Subtracted(v: nat, x: nat, y: nat, z: nat, m: nat)
    requires y < m && z == (m - y) % m && v == (x + z) % m
    ensures v == (x - y) % m
  {
    AddNegated(x, y, m);
  }

  lemma AddNegated(x: nat, y: nat, m: nat)
    requires y < m
    ensures m - y >= 0 && (x + (m - y) % m) % m == (x - y) % m
  {
    if y == 0 {
      ModUnique(m, 1, 0, m);
    } else {
      ModUnique(m - y, 0, m - y, m);
      ModPlus(x - y, 1, m);
    }
  }

  lemma FitsAccumulator(carry: nat, limb: nat, a: nat, b: nat)
    requires carry < B && limb < B && a < B && b < B
    ensures carry + limb + Times(a, b) < B * B
  {
    MulMono(a, B - 1, b);
    MulMono(b, B - 1, B - 1);
  }

  /** The highest limb that differs decides. */
  lemma {:induction false} HigherLimbDecides(s: seq<nat>, t: seq<nat>, i: nat)
    requires |s| == |t| && i < |s| && Limbs(s) && Limbs(t) && s[i] < t[i]
    requires forall j | i < j < |s| :: s[j] == t[j]
    ensures Val(s, |s|) < Val(t, |t|)
  {
    ValBound(s, i);
    MulMono(s[i] + 1, t[i], PowB(i));
    MulDist(s[i], 1, PowB(i));
    assert Val(s, i + 1) < Val(t, i + 1);
    SameAbove(s, t, i + 1, |s|);
  }

  lemma {:induction false} SameAbove(s: seq<nat>, t: seq<nat>, i: nat, k: nat)
    requires i <= k <= |s| && |s| == |t| && forall j | i <= j < k :: s[j] == t[j]
    ensures Val(t, k) - Val(s, k) == Val(t, i) - Val(s, i)
  {
    if i < k {
      SameAbove(s, t, i, k - 1);
    }
  }

  // ----- shifting left -----

  /** After `i` limbs: their value shifted, cut to `w` limbs. */
  ghost predicate LeftPart(v: nat, x: seq<nat>, i: nat, k: nat, s: nat, w: nat)
    requires i <= |x| == w
  {
    if i + k < w then v == Val(x, i) * Pow2(s) * PowB(k)
    else if k < w then v == (Val(x, w - k) * Pow2(s) * PowB(k)) % PowB(w)
    else v == 0
  }

  lemma Pow2AtLeastOne(s: nat)
    ensures 0 < Pow2(s)
  {
  }

  lemma OrNothing(x: nat)
    ensures Or(0, x) == x
  {
  }

  lemma LeftStart(x: seq<nat>, k: nat, s: nat, w: nat)
    requires |x| == w
    ensures LeftPart(0, x, 0, k, s, w)
  {
    assert Val(x, 0) == 0;
    ZeroTimes(Pow2(s), PowB(k));
  }

  lemma ZeroTimes(a: nat, b: nat)
    ensures 0 * a * b == 0
  {
  }

  lemma LeftLimb(a: nat, h: nat, s: nat)
    requires a < B && s < 32 && h < Pow2(s)
    ensures var hi, lo := a / Pow2(32 - s), (a * Pow2(s)) % B;
            && hi < B && (s == 0 ==> hi == 0) && hi < Pow2(s)
            && Or(h, lo) == h + lo < B && a * Pow2(s) == hi * B + lo
  {
    ShiftSplit(a, s);
    var q := a % Pow2(32 - s);
    OrDisjoint(h, q, s);
    Pow2Of32();
    Pow2Add(32 - s, s);
    assert 32 - s + s == 32;
    MulMono(q + 1, Pow2(32 - s), Pow2(s));
    MulDist(q, 1, Pow2(s));
    Pow2Grows(s, 32);
    if s == 0 {
      ModUnique(a, 0, a, B);
    }
  }

  /** One more limb within the width. */
  lemma LeftStep(v: nat, v': nat, x: seq<nat>, i: nat, k: nat, s: nat, w: nat)
    requires |x| == w && i < w && i + k < w && s < 32 && x[i] < B && LeftPart(v, x, i, k, s, w)
    requires v' < PowB(w)
    requires var hi, lo := x[i] / Pow2(32 - s), (x[i] * Pow2(s)) % B;
             && x[i] * Pow2(s) == hi * B + lo
             && v' == v + lo * PowB(i + k) + (if i + k + 1 < w then hi * PowB(i + k + 1) else 0)
    ensures LeftPart(v', x, i + 1, k, s, w)
  {
    var hi, lo := x[i] / Pow2(32 - s), (x[i] * Pow2(s)) % B;
    var p := PowB(i + k);
    PowBAdd(i, k);
    assert PowB(i + k + 1) == B * p;
    LeftProduct(Val(x, i), x[i], PowB(i), Pow2(s), PowB(k), hi, lo);
    if i + k + 1 == w {
      assert w - k == i + 1;
      ModUnique(Val(x, i + 1) * Pow2(s) * PowB(k), hi, v', PowB(w));
    }
  }

  lemma LeftProduct(v: nat, a: nat, p: nat, t: nat, r: nat, hi: nat, lo: nat)
    requires a * t == hi * B + lo
    ensures (v + a * p) * t * r == v * t * r + lo * (p * r) + hi * (B * (p * r))
  {
    MulDist(v, a * p, t);
    MulDist(v * t, a * p * t, r);
    assert a * p * t == a * t * p by {
      MulAssoc(a, p, t);
      MulAssoc(a, t, p);
    }
    MulAssoc(a * t, p, r);
    MulDist(hi * B, lo, p * r);
    MulAssoc(hi, B, p * r);
  }

  /** Limbs beyond the width are dropped. */
  lemma LeftIdle(v: nat, x: seq<nat>, i: nat, k: nat, s: nat, w: nat)
    requires |x| == w && i < w && LeftPart(v, x, i, k, s, w) && i + k >= w
    ensures LeftPart(v, x, i + 1, k, s, w)
  {
  }

  lemma LeftEnd(v: nat, x: seq<nat>, k: nat, s: nat, shift: nat)
    requires LeftPart(v, x, |x|, k, s, |x|) && k == shift / 32 && s == shift % 32
    ensures v == (Val(x, |x|) * Pow2(shift)) % PowB(|x|)
  {
    var w, m := |x|, PowB(|x|);
    PowBIsPow2(k);
    Pow2Add(s, 32 * k);
    assert shift == s + 32 * k;
    assert Pow2(shift) == Pow2(s) * PowB(k);
    MulAssoc(Val(x, w), Pow2(s), PowB(k));
    if k < w {
      var q := ValSplit(x, w - k, w);
      PowBAdd(w - k, k);
      assert w - k + k == w;
      DropHigh(Val(x, w - k), q, PowB(w - k), Pow2(s), PowB(k), m);
      ModPlus(Val(x, w - k) * Pow2(s) * PowB(k), q * Pow2(s), m);
    } else {
      PowBAdd(w, k - w);
      assert w + (k - w) == k;
      AllHigh(Val(x, w), Pow2(s), m, PowB(k - w));
      ModUnique(Val(x, w) * Pow2(s) * PowB(k), Val(x, w) * Pow2(s) * PowB(k - w), 0, m);
    }
  }

  lemma DropHigh(low: nat, q: nat, p: nat, t: nat, r: nat, m: nat)
    requires m == p * r
    ensures (low + q * p) * t * r == low * t * r + q * t * m
  {
    MulDist(low, q * p, t);
    MulDist(low * t, q * p * t, r);
    MulAssoc(q, p, t);
    MulAssoc(q, t, p);
    MulAssoc(q * t, p, r);
  }

  lemma AllHigh(v: nat, t: nat, m: nat, e: nat)
    ensures v * t * (m * e) == v * t * e * m
  {
    MulAssoc(v * t, e, m);
  }

  // ----- shifting right -----

  /** What the lowest `i` limbs make after the shift. */
  ghost predicate RightPart(v: nat, x: seq<nat>, i: nat, shift: nat)
    requires i <= |x|
  {
    v == Val(x, i) / Pow2(shift)
  }

  /** The two parts a limb falls into. */
  ghost predicate Halves(limb: nat, s: nat, hi: nat, lo: nat)
    requires s <= 32
  {
    hi == limb / Pow2(s) && limb * Pow2(32 - s) == hi * B + lo && (s == 0 ==> lo == 0)
  }

  lemma RightEnd(v: nat, x: seq<nat>, shift: nat)
    requires RightPart(v, x, |x|, shift)
    ensures v == Val(x, |x|) / Pow2(shift)
  {
  }

  lemma RightStart(x: seq<nat>, shift: nat)
    ensures RightPart(0, x, 0, shift)
  {
    ModUnique(0, 0, 0, Pow2(shift));
  }

  lemma RightLimb(prev: nat, a: nat, s: nat)
    requires prev < B && a < B && s < 32
    ensures s != 0 ==> var lo := (a * Pow2(32 - s)) % B; Or(prev / Pow2(s), lo) == prev / Pow2(s) + lo < B
  {
    if s != 0 {
      ShiftSplit(prev, 32 - s);
      LeftLimb(a, prev / Pow2(s), 32 - s);
    }
  }

  lemma RightLimbAlone(a: nat, s: nat)
    requires a < B && s < 32
    ensures Over(a, Pow2(s)) < B && Halves(a, s, Over(a, Pow2(s)), Times(a, Pow2(32 - s)) % B)
  {
    ShiftSplit(a, 32 - s);
    Pow2Grows(32 - s, 32);
    Pow2Of32();
    if s == 0 {
      ModUnique(a * B, a, 0, B);
    }
  }

  lemma RightStep(v: nat, v': nat, x: seq<nat>, i: nat, k: nat, s: nat, shift: nat, hi: nat, lo: nat)
    requires i < |x| && Limbs(x) && k == shift / 32 && s == shift % 32 && RightPart(v, x, i, shift) && Halves(x[i], s, hi, lo)
    requires v' == v + (if i - k - 1 >= 0 && s != 0 then lo * PowB(i - k - 1) else 0)
                     + (if i - k >= 0 then hi * PowB(i - k) else 0)
    ensures RightPart(v', x, i + 1, shift)
  {
    hide Pow2, PowB, Val, RightPart, Halves, Limbs;
    if i < k {
      RightStepBelow(v, x, i, k, s, shift);
    } else if i == k {
      RightStepFirst(v, v', x, k, s, shift, hi, lo);
    } else {
      RightStepAbove(v, v', x, i, k, s, shift, hi, lo);
    }
  }

  lemma RightStepBelow(v: nat, x: seq<nat>, i: nat, k: nat, s: nat, shift: nat)
    requires i < k && i < |x| && Limbs(x) && shift == 32 * k + s && RightPart(v, x, i, shift)
    ensures RightPart(v, x, i + 1, shift)
  {
    hide Pow2, PowB, Val;
    WholeLimbs(k, s);
    AboveSame(x, i);
    ValBound(x, i + 1);
    RightBelow(Val(x, i), Val(x, i + 1), i + 1, k, s);
  }

  lemma RightStepFirst(v: nat, v': nat, x: seq<nat>, k: nat, s: nat, shift: nat, hi: nat, lo: nat)
    requires k < |x| && Limbs(x) && s < 32 && shift == 32 * k + s && RightPart(v, x, k, shift)
    requires Halves(x[k], s, hi, lo) && v' == v + hi * PowB(0)
    ensures RightPart(v', x, k + 1, shift)
  {
    hide Pow2, PowB, Val;
    WholeLimbs(k, s);
    AboveSame(x, k);
    ValBound(x, k);
    RightFirst(Val(x, k), x[k], k, s);
  }

  lemma RightStepAbove(v: nat, v': nat, x: seq<nat>, i: nat, k: nat, s: nat, shift: nat, hi: nat, lo: nat)
    requires k < i < |x| && Limbs(x) && s < 32 && shift == 32 * k + s && RightPart(v, x, i, shift) && Halves(x[i], s, hi, lo)
    requires v' == v + (if s != 0 then lo * PowB(i - k - 1) else 0) + hi * PowB(i - k)
    ensures RightPart(v', x, i + 1, shift)
  {
    hide Pow2, PowB, Val;
    WholeLimbs(k, s);
    AboveSame(x, i);
    RightAbove(Val(x, i), x[i], i, k, s, hi, lo);
  }

  lemma WholeLimbs(k: nat, s: nat)
    ensures Pow2(32 * k + s) == PowB(k) * Pow2(s)
  {
    PowBIsPow2(k);
    Pow2Add(32 * k, s);
  }

  lemma RightBelow(a: nat, b: nat, i: nat, k: nat, s: nat)
    requires i <= k && a <= b < PowB(i)
    ensures PowB(k) * Pow2(s) > 0 && a / (PowB(k) * Pow2(s)) == 0 && b / (PowB(k) * Pow2(s)) == 0
  {
    PowBAdd(i, k - i);
    assert i + (k - i) == k;
    SmallQuotient(a, b, PowB(i), PowB(k - i), Pow2(s));
  }

  lemma RightFirst(a: nat, limb: nat, k: nat, s: nat)
    requires a < PowB(k)
    ensures PowB(k) * Pow2(s) > 0 && a / (PowB(k) * Pow2(s)) == 0
    ensures (a + limb * PowB(k)) / (PowB(k) * Pow2(s)) == limb / Pow2(s) && PowB(0) == 1
  {
    RightBelow(a, a, k, k, s);
    DivBoth(a, limb, PowB(k), Pow2(s));
  }

  lemma RightAbove(a: nat, limb: nat, i: nat, k: nat, s: nat, hi: nat, lo: nat)
    requires i > k && s < 32 && limb * Pow2(32 - s) == hi * B + lo
    ensures && PowB(k) * Pow2(s) > 0
            && (a + limb * PowB(i)) / (PowB(k) * Pow2(s))
                 == a / (PowB(k) * Pow2(s)) + lo * PowB(i - k - 1) + hi * PowB(i - k)
  {
    hide Pow2, PowB;
    var r := PowB(i - k - 1);
    PowBAdd(i - k - 1, k + 1);
    PowBNext(k);
    PowBNext(i - k - 1);
    assert i - k - 1 + (k + 1) == i;
    Pow2Of32();
    Pow2Add(32 - s, s);
    assert 32 - s + s == 32;
    RightProduct(limb, r, PowB(k), Pow2(32 - s), Pow2(s), hi, lo);
    PositiveProduct(PowB(k), Pow2(s));
    DivPlus(a, (hi * B + lo) * r, PowB(k) * Pow2(s));
    MulDist(hi * B, lo, r);
    MulAssoc(hi, B, r);
  }

  lemma PowBNext(n: nat)
    ensures PowB(n + 1) == B * PowB(n)
  {
  }

  lemma PositiveProduct(a: nat, b: nat)
    requires a >= 1 && b >= 1
    ensures a * b >= 1
  {
    MulMono(1, a, b);
  }

  lemma SmallQuotient(a: nat, b: nat, p: nat, q: nat, t: nat)
    requires a <= b < p && q >= 1 && t >= 1
    ensures p * q * t > 0 && a / (p * q * t) == 0 && b / (p * q * t) == 0
  {
    MulMono(1, q, p);
    MulMono(1, t, p * q);
    assert p * q * t >= p;
    ModUnique(a, 0, a, p * q * t);
    ModUnique(b, 0, b, p * q * t);
  }

  lemma RightProduct(a: nat, r: nat, p: nat, u: nat, t: nat, hi: nat, lo: nat)
    requires B == u * t && a * u == hi * B + lo
    ensures a * (r * (B * p)) == (hi * B + lo) * r * (p * t)
  {
    calc {
      a * (r * (B * p));
      { MulAssoc(u, t, p); }
      a * (r * (u * (t * p)));
      { MulAssoc(r, u, t * p); MulAssoc(u, r, t * p); }
      a * (u * (r * (t * p)));
      { MulAssoc(a, u, r * (t * p)); }
      a * u * (r * (t * p));
      { MulAssoc(a * u, r, t * p); }
      a * u * r * (t * p);
    }
  }

  // ----- division -----

  /** The quotient bits down to `shift + 1` are found, and `r` is what is left. */
  ghost predicate QuotientPart(n: nat, d: nat, r: nat, q: nat, shift: int)
    requires shift >= -1
  {
    n == q * d + r && r < d * Pow2(shift + 1) && q % Pow2(shift + 1) == 0
  }

  lemma SmallDividend(n: nat, d: nat, nb: nat, db: nat)
    requires n < Pow2(nb) && nb < db && d >= Pow2(db - 1)
    ensures d > 0 && n / d == 0
  {
    Pow2Grows(nb, db - 1);
    ModUnique(n, 0, n, d);
  }

  lemma AlignedFits(n: nat, d: nat, nb: nat, db: nat, w: nat)
    requires n < Pow2(nb) && 0 < db <= nb <= 32 * w && Pow2(db - 1) <= d < Pow2(db)
    ensures (d * Pow2(nb - db)) % PowB(w) == d * Pow2(nb - db)
    ensures QuotientPart(n, d, n, 0, nb - db)
  {
    hide Pow2, PowB, QuotientPart;
    PowBIsPow2(w);
    Pow2Grows(nb, 32 * w);
    Pow2Add(db, nb - db);
    assert db + (nb - db) == nb;
    LessTimes(d, Pow2(db), Pow2(nb - db));
    ModUnique(d * Pow2(nb - db), 0, d * Pow2(nb - db), PowB(w));
    NoQuotientYet(n, d, nb, db);
  }

  lemma NoQuotientYet(n: nat, d: nat, nb: nat, db: nat)
    requires n < Pow2(nb) && 0 < db <= nb && Pow2(db - 1) <= d
    ensures QuotientPart(n, d, n, 0, nb - db)
  {
    hide Pow2;
    Pow2Add(db - 1, nb - db + 1);
    assert db - 1 + (nb - db + 1) == nb;
    MulMono(Pow2(db - 1), d, Pow2(nb - db + 1));
    ModUnique(0, 0, 0, Pow2(nb - db + 1));
  }

  lemma LessTimes(a: nat, b: nat, c: nat)
    requires a < b && c > 0
    ensures a * c < b * c
  {
    MulMono(a + 1, b, c);
    MulDist(a, 1, c);
  }

  lemma PlainDifference(a: nat, b: nat, m: nat)
    requires b <= a < m
    ensures (a - b) % m == a - b
  {
    ModUnique(a - b, 0, a - b, m);
  }

  lemma QuotientStep(n: nat, d: nat, r: nat, q: nat, shift: nat)
    requires QuotientPart(n, d, r, q, shift)
    ensures if r >= d * Pow2(shift) then QuotientPart(n, d, r - d * Pow2(shift), q + Pow2(shift), shift - 1)
            else QuotientPart(n, d, r, q, shift - 1)
  {
    var p := Pow2(shift);
    assert d * Pow2(shift + 1) == 2 * (d * p);
    var e := q / Pow2(shift + 1);
    DivMod(q, Pow2(shift + 1));
    assert q == 2 * e * p by {
      MulAssoc(e, 2, p);
    }
    if r >= d * p {
      MulDist(q, p, d);
      MulDist(2 * e, 1, p);
      ModUnique(q + p, 2 * e + 1, 0, p);
    } else {
      ModUnique(q, 2 * e, 0, p);
    }
  }

  lemma HalfDivisor(d: nat, shift: nat)
    ensures shift > 0 ==> (d * Pow2(shift)) / Pow2(1) == d * Pow2(shift - 1)
  {
    if shift > 0 {
      assert d * Pow2(shift) == 2 * (d * Pow2(shift - 1));
      assert Pow2(1) == 2;
    }
  }

  lemma QuotientEnd(n: nat, d: nat, r: nat, q: nat)
    requires d > 0 && QuotientPart(n, d, r, q, -1)
    ensures q == n / d
  {
    assert Pow2(0) == 1;
    ModUnique(n, q, r, d);
  }

  lemma BitValue(shift: nat)
    ensures Pow2(shift % 32) * PowB(shift / 32) == Pow2(shift)
  {
    PowBIsPow2(shift / 32);
    Pow2Add(shift % 32, 32 * (shift / 32));
    assert shift % 32 + 32 * (shift / 32) == shift;
  }

  /** The quotient so far leaves the bit to be set, and all below it, clear. */
  lemma QuotientLimb(x: seq<nat>, shift: nat, n: nat, d: nat, r: nat)
    requires Limbs(x) && shift < 32 * |x| && QuotientPart(n, d, r, Val(x, |x|), shift)
    ensures var k, s := shift / 32, shift % 32; Or(x[k], Pow2(s)) == x[k] + Pow2(s) < B
  {
    hide Pow2, PowB, Val, Or;
    var k, s := shift / 32, shift % 32;
    var p, t := PowB(k), Pow2(s + 1);
    PowBIsPow2(k);
    Pow2Add(32 * k, s + 1);
    assert 32 * k + (s + 1) == shift + 1;
    Pow2Of32();
    Pow2Add(31 - s, s + 1);
    assert 31 - s + (s + 1) == 32;
    var h := ValSplit(x, k + 1, |x|);
    ValBound(x, k);
    var e := Val(x, |x|) / (p * t);
    DivMod(Val(x, |x|), p * t);
    PowBNext(k);
    AboveSame(x, k);
    LimbDivides(Val(x, k), x[k], h, p, t, e, Pow2(31 - s));
    LimbHasRoom(x[k], e - h * Pow2(31 - s), s);
  }

  lemma AboveSame(x: seq<nat>, k: nat)
    requires k < |x|
    ensures Val(x, k + 1) == Val(x, k) + x[k] * PowB(k)
  {
  }

  /** A limb that is a multiple of the next bit has room for this one. */
  lemma LimbHasRoom(limb: nat, f: int, s: nat)
    requires s < 32 && limb < B && limb == f * Pow2(s + 1)
    ensures Or(limb, Pow2(s)) == limb + Pow2(s) < B
  {
    hide Pow2, Or;
    Pow2Of32();
    Pow2Add(31 - s, s + 1);
    assert 31 - s + (s + 1) == 32;
    DoublePow2(s);
    RoomFor(limb, f, Pow2(s), Pow2(31 - s));
    OrDisjoint(Pow2(s), f, s + 1);
  }

  lemma DoublePow2(s: nat)
    ensures Pow2(s + 1) == 2 * Pow2(s)
  {
  }

  lemma RoomFor(limb: nat, f: int, t: nat, u: nat)
    requires t >= 1 && u * (2 * t) == B && limb < B && limb == f * (2 * t)
    ensures f >= 0 && limb + t < B
  {
    if f < 0 {
      MulMono(f, -1, 2 * t);
      assert false;
    }
    if f >= u {
      MulMono(u, f, 2 * t);
      assert false;
    }
    MulMono(f + 1, u, 2 * t);
    MulDist(f, 1, 2 * t);
  }

  lemma LimbDivides(low: nat, limb: nat, h: nat, p: nat, t: nat, e: nat, u: nat)
    requires low < p && low + limb * p + h * (B * p) == e * (p * t) && B == u * t
    ensures limb == (e - h * u) * t
  {
    assert h * (B * p) == h * u * t * p by {
      MulAssoc(h, u * t, p);
      MulAssoc(h, u, t);
    }
    assert e * (p * t) == e * t * p by {
      MulAssoc(e, t, p);
    }
    MulDist(e * t, 0 - h * u * t, p);
    MulDist(e * t - h * u * t, 0 - limb, p);
    assert low == (e * t - h * u * t - limb) * p;
    SmallMultiple(e * t - h * u * t - limb, p);
    MulDist(e, 0 - h * u, t);
  }
}
