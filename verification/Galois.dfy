/** The field of 256 elements over which bytes are erasure-coded: bytes as polynomials over two elements
    modulo x^8 + x^4 + x^3 + x^2 + 1. Addition and subtraction are XOR; products add logarithms to base x. */
module Galois {
  import opened Fields

  /** Multiplication by x. */
  function Double(a: bv8): bv8 {
    if a & 0x80 == 0 then a << 1 else (a << 1) ^ 0x1D
  }

  /** Division by x. */
  function Half(a: bv8): bv8 {
    if a & 1 == 0 then a >> 1 else (a >> 1) ^ 0x8E
  }

  lemma HalfDoubled(a: bv8)
    ensures Double(Half(a)) == a
    ensures Double(a) == 0 <==> a == 0
  {
  }

  lemma HighBit(a: bv8, b: bv8)
    ensures (a ^ b) << 1 == (a << 1) ^ (b << 1)
    ensures (a ^ b) & 0x80 == (a & 0x80) ^ (b & 0x80) && (a & 0x80 == 0 || a & 0x80 == 0x80)
  {
  }

  lemma DoubleSum(a: bv8, b: bv8)
    ensures Double(a ^ b) == Double(a) ^ Double(b)
  {
    HighBit(a, b);
    HighBit(b, a);
    if a & 0x80 == 0 {
      assert (a ^ b) & 0x80 == b & 0x80;
    } else if b & 0x80 == 0 {
      assert (a ^ b) & 0x80 != 0;
    } else {
      assert (a ^ b) & 0x80 == 0;
    }
  }

  // ---------- repeated steps ----------

  function Iterate<E>(step: E -> E, a: E, n: nat): E {
    if n == 0 then a else step(Iterate(step, a, n - 1))
  }

  lemma {:induction false} IterateAdd<E>(step: E -> E, a: E, m: nat, n: nat)
    ensures Iterate(step, Iterate(step, a, m), n) == Iterate(step, a, m + n)
  {
    if n > 0 {
      IterateAdd(step, a, m, n - 1);
    }
  }

  ghost predicate Additive<E>(add: (E, E) -> E, step: E -> E, a: E, b: E) {
    step(add(a, b)) == add(step(a), step(b))
  }

  lemma {:induction false} IterateSum<E(!new)>(add: (E, E) -> E, step: E -> E, a: E, b: E, n: nat)
    requires forall x, y :: Additive(add, step, x, y)
    ensures Iterate(step, add(a, b), n) == add(Iterate(step, a, n), Iterate(step, b, n))
  {
    if n > 0 {
      IterateSum(add, step, a, b, n - 1);
      assert Additive(add, step, Iterate(step, a, n - 1), Iterate(step, b, n - 1));
    }
  }

  /** a times x^n. */
  function Doubles(a: bv8, n: nat): bv8 {
    Iterate(Double, a, n)
  }

  function Exp(n: nat): bv8 {
    Doubles(1, n)
  }

  function Sum(a: bv8, b: bv8): bv8 {
    a ^ b
  }

  lemma DoublesSum(a: bv8, b: bv8, n: nat)
    ensures Doubles(Sum(a, b), n) == Sum(Doubles(a, n), Doubles(b, n))
  {
    forall x, y
      ensures Additive(Sum, Double, x, y)
    {
      DoubleSum(x, y);
    }
    IterateSum(Sum, Double, a, b, n);
  }

  lemma {:induction false} DoublesZero(a: bv8, n: nat)
    ensures Doubles(a, n) == 0 <==> a == 0
  {
    if n > 0 {
      DoublesZero(a, n - 1);
      HalfDoubled(Doubles(a, n - 1));
    }
  }

  // ---------- x generates all non-zero elements ----------

  function Four(a: bv8): bv8 {
    Double(Double(Double(Double(a))))
  }

  function Sixteen(a: bv8): bv8 {
    Four(Four(Four(Four(a))))
  }

  lemma FourMore(n: nat)
    ensures Exp(n + 4) == Four(Exp(n))
  {
    assert Exp(n + 1) == Double(Exp(n)) && Exp(n + 2) == Double(Exp(n + 1)) && Exp(n + 3) == Double(Exp(n + 2));
  }

  lemma SixteenMore(n: nat)
    ensures Exp(n + 16) == Sixteen(Exp(n))
  {
    FourMore(n);
    FourMore(n + 4);
    FourMore(n + 8);
    FourMore(n + 12);
  }

  /** The powers x^(16 n) with n < 16. */
  predicate IsLandmark(a: bv8) {
    || a == 1 || a == 76 || a == 157 || a == 70 || a == 95 || a == 253 || a == 217 || a == 129
    || a == 133 || a == 168 || a == 230 || a == 227 || a == 130 || a == 81 || a == 18 || a == 44
  }

  /** n for the landmark x^(16 n), 16 for other elements. */
  function Landmark(a: bv8): nat {
    if a == 1 then 0 else if a == 76 then 1 else if a == 157 then 2 else if a == 70 then 3
    else if a == 95 then 4 else if a == 253 then 5 else if a == 217 then 6 else if a == 129 then 7
    else if a == 133 then 8 else if a == 168 then 9 else if a == 230 then 10 else if a == 227 then 11
    else if a == 130 then 12 else if a == 81 then 13 else if a == 18 then 14 else if a == 44 then 15 else 16
  }

  lemma FirstLandmarks(a: bv8)
    requires Landmark(a) < 5
    ensures Landmark(Sixteen(a)) == Landmark(a) + 1
  {
  }

  lemma MiddleLandmarks(a: bv8)
    requires 5 <= Landmark(a) < 10
    ensures Landmark(Sixteen(a)) == Landmark(a) + 1
  {
  }

  lemma LastLandmarks(a: bv8)
    requires 10 <= Landmark(a) < 15
    ensures Landmark(Sixteen(a)) == Landmark(a) + 1
  {
  }

  lemma LandmarkStep(a: bv8)
    requires Landmark(a) < 15
    ensures Landmark(Sixteen(a)) == Landmark(a) + 1
  {
    if Landmark(a) < 5 {
      FirstLandmarks(a);
    } else if Landmark(a) < 10 {
      MiddleLandmarks(a);
    } else {
      LastLandmarks(a);
    }
  }

  lemma LandmarkIsOne(a: bv8, b: bv8)
    requires Landmark(a) == Landmark(b) && IsLandmark(a)
    ensures a == b && Landmark(a) < 16
  {
  }

  lemma {:induction false} LandmarkPower(n: nat)
    requires n < 16
    ensures Landmark(Exp(16 * n)) == n
  {
    if n > 0 {
      LandmarkPower(n - 1);
      SixteenMore(16 * (n - 1));
      LandmarkStep(Exp(16 * (n - 1)));
    }
  }

  lemma LandmarkLog(a: bv8)
    requires IsLandmark(a)
    ensures Exp(16 * Landmark(a)) == a && Landmark(a) < 16
  {
    LandmarkIsOne(a, a);
    LandmarkPower(Landmark(a));
    LandmarkIsOne(a, Exp(16 * Landmark(a)));
  }

  /** Fewer than four halvings lead to a landmark. */
  predicate Near(a: bv8) {
    IsLandmark(a) || IsLandmark(Half(a)) || IsLandmark(Half(Half(a))) || IsLandmark(Half(Half(Half(a))))
  }

  function FourBack(a: bv8): bv8 {
    Half(Half(Half(Half(a))))
  }

  /** Every non-zero element comes to a landmark after at most 15 halvings. */
  lemma Reached(a: bv8)
    requires a != 0
    ensures Near(a) || Near(FourBack(a)) || Near(FourBack(FourBack(a))) || Near(FourBack(FourBack(FourBack(a))))
  {
  }

  function LogNear(a: bv8): nat {
    if IsLandmark(a) then 16 * Landmark(a)
    else if IsLandmark(Half(a)) then 16 * Landmark(Half(a)) + 1
    else if IsLandmark(Half(Half(a))) then 16 * Landmark(Half(Half(a))) + 2
    else 16 * Landmark(Half(Half(Half(a)))) + 3
  }

  predicate NearIn(a: bv8, k: nat)
    decreases k
  {
    Near(a) || (k > 0 && NearIn(FourBack(a), k - 1))
  }

  /** The logarithm: the landmark reached and the halvings on the way. */
  function LogFrom(a: bv8, k: nat): nat
    decreases k
  {
    if Near(a) || k == 0 then LogNear(a) else LogFrom(FourBack(a), k - 1) + 4
  }

  function Log(a: bv8): nat {
    LogFrom(a, 3)
  }

  /** From the logarithm of the half to that of the whole. */
  lemma HalfLog(a: bv8, n: nat)
    requires Exp(n) == Half(a)
    ensures Exp(n + 1) == a
  {
    HalfDoubled(a);
  }

  lemma FourBackLog(a: bv8, n: nat)
    requires Exp(n) == FourBack(a)
    ensures Exp(n + 4) == a
  {
    HalfLog(Half(Half(Half(a))), n);
    HalfLog(Half(Half(a)), n + 1);
    HalfLog(Half(a), n + 2);
    HalfLog(a, n + 3);
  }

  lemma LogNearOf(a: bv8)
    requires Near(a)
    ensures Exp(LogNear(a)) == a && LogNear(a) <= 243
  {
    var h1 := Half(a);
    var h2 := Half(h1);
    var h3 := Half(h2);
    if IsLandmark(a) {
      LandmarkLog(a);
    } else if IsLandmark(h1) {
      LandmarkLog(h1);
      HalfLog(a, 16 * Landmark(h1));
    } else if IsLandmark(h2) {
      LandmarkLog(h2);
      HalfLog(h1, 16 * Landmark(h2));
      HalfLog(a, 16 * Landmark(h2) + 1);
    } else {
      LandmarkLog(h3);
      HalfLog(h2, 16 * Landmark(h3));
      HalfLog(h1, 16 * Landmark(h3) + 1);
      HalfLog(a, 16 * Landmark(h3) + 2);
    }
  }

  lemma {:induction false} LogFromOf(a: bv8, k: nat)
    requires NearIn(a, k)
    ensures Exp(LogFrom(a, k)) == a && LogFrom(a, k) <= 243 + 4 * k
    decreases k
  {
    if Near(a) {
      LogNearOf(a);
    } else {
      LogFromOf(FourBack(a), k - 1);
      FourBackLog(a, LogFrom(FourBack(a), k - 1));
    }
  }

  lemma LogOf(a: bv8)
    requires a != 0
    ensures Exp(Log(a)) == a && Log(a) <= 255
  {
    Reached(a);
    LogFromOf(a, 3);
  }

  /** x^255 == 1. */
  lemma Period()
    ensures Exp(255) == 1
  {
    LandmarkPower(15);
    LandmarkIsOne(44, Exp(240));
    FourMore(240);
    FourMore(244);
    FourMore(248);
    assert Exp(253) == Double(Exp(252)) && Exp(254) == Double(Exp(253)) && Exp(255) == Double(Exp(254));
  }

  // ---------- the field ----------

  function Mul(a: bv8, b: bv8): bv8 {
    if a == 0 || b == 0 then 0 else Exp(Log(a) + Log(b))
  }

  function Inverse(a: bv8): bv8 {
    if Log(a) <= 255 then Exp(255 - Log(a)) else 0
  }

  lemma ExpAdd(i: nat, m: nat, n: nat)
    requires Exp(m) == Exp(n)
    ensures Exp(i + m) == Doubles(Exp(i), n)
  {
    IterateAdd(Double, 1, m, i);
    IterateAdd(Double, 1, n, i);
    IterateAdd(Double, 1, i, n);
  }

  /** A product adds exponents. */
  lemma MulAdds(a: bv8, b: bv8) returns (i: nat, j: nat)
    requires a != 0 && b != 0
    ensures Exp(i) == a && Exp(j) == b && Mul(a, b) == Exp(i + j)
  {
    LogOf(a);
    LogOf(b);
    i, j := Log(a), Log(b);
  }

  /** Times x^n is n doublings. */
  lemma MulExp(a: bv8, n: nat)
    ensures Mul(a, Exp(n)) == Doubles(a, n)
  {
    DoublesZero(1, n);
    if a == 0 {
      DoublesZero(a, n);
    } else {
      var i, j := MulAdds(a, Exp(n));
      ExpAdd(i, j, n);
    }
  }

  // ---------- the laws ----------

  lemma SumLaws(a: bv8, b: bv8, c: bv8)
    ensures Sum(Sum(a, b), c) == Sum(a, Sum(b, c)) && Sum(a, b) == Sum(b, a) && Sum(a, 0) == a && Sum(a, a) == 0
  {
  }

  lemma MulCommutes(a: bv8, b: bv8)
    ensures Mul(a, b) == Mul(b, a)
  {
  }

  ghost predicate TimesPower<E>(mul: (E, E) -> E, step: E -> E, one: E, a: E, n: nat) {
    mul(a, Iterate(step, one, n)) == Iterate(step, a, n)
  }

  /** Products by powers associate. */
  lemma PowersAssociate<E(!new)>(mul: (E, E) -> E, step: E -> E, one: E, a: E, m: nat, n: nat)
    requires forall b, k: nat :: TimesPower(mul, step, one, b, k)
    ensures var b, c := Iterate(step, one, m), Iterate(step, one, n);
            mul(mul(a, b), c) == mul(a, mul(b, c))
  {
    assert TimesPower(mul, step, one, a, m) && TimesPower(mul, step, one, Iterate(step, a, m), n);
    assert TimesPower(mul, step, one, Iterate(step, one, m), n) && TimesPower(mul, step, one, a, m + n);
    IterateAdd(step, a, m, n);
    IterateAdd(step, one, m, n);
  }

  lemma MulAssociates(a: bv8, b: bv8, c: bv8)
    ensures Mul(Mul(a, b), c) == Mul(a, Mul(b, c))
  {
    if b != 0 && c != 0 {
      forall x, k: nat
        ensures TimesPower(Mul, Double, 1, x, k)
      {
        MulExp(x, k);
      }
      LogOf(b);
      LogOf(c);
      PowersAssociate(Mul, Double, 1, a, Log(b), Log(c));
    }
  }

  lemma MulDistributes(a: bv8, b: bv8, c: bv8)
    ensures Mul(a, Sum(b, c)) == Sum(Mul(a, b), Mul(a, c))
  {
    if a != 0 {
      LogOf(a);
      MulExp(b, Log(a));
      MulExp(c, Log(a));
      MulExp(Sum(b, c), Log(a));
      DoublesSum(b, c, Log(a));
      MulCommutes(a, b);
      MulCommutes(a, c);
      MulCommutes(a, Sum(b, c));
    }
  }

  lemma MulOne(a: bv8)
    ensures Mul(a, 1) == a
  {
    MulExp(a, 0);
  }

  lemma ComplementPowers(i: nat, j: nat)
    requires i + j == 255
    ensures Mul(Exp(i), Exp(j)) == 1
  {
    MulExp(Exp(i), j);
    IterateAdd(Double, 1, i, j);
    Period();
  }

  lemma MulInverse(a: bv8)
    requires a != 0
    ensures Mul(a, Inverse(a)) == 1
  {
    LogOf(a);
    ComplementPowers(Log(a), 255 - Log(a));
  }

  function GF256(): Field<bv8> {
    Field(0, 1, Sum, Mul, Inverse)
  }

  lemma GF256IsField()
    ensures IsField(GF256())
  {
    forall a, b, c
      ensures Laws(GF256(), a, b, c)
    {
      SumLaws(a, b, c);
      MulCommutes(a, b);
      MulAssociates(a, b, c);
      MulDistributes(a, b, c);
      MulOne(a);
      if a != 0 {
        MulInverse(a);
      }
    }
  }
}
