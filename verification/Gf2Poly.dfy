/** Polynomials over GF(2), written as natural numbers: bit i of the number is the
    coefficient of x^i.  Sums are exclusive ors and products are carry-less, so the number
    2 is the polynomial x.  This is the reference that the word-level field code is held to. */
module Gf2Poly {

  type Poly = nat

  /** Coefficientwise sum: the exclusive or of the two numbers. */
  function Xor(a: Poly, b: Poly): Poly
    decreases a + b
  {
    if a == 0 && b == 0 then 0 else BitSum(a % 2, b % 2) + 2 * Xor(a / 2, b / 2)
  }

  /** The sum of two coefficients. */
  function BitSum(i: nat, j: nat): nat {
    if i == j then 0 else 1
  }

  /** The coefficient of x^i. */
  predicate Bit(a: Poly, i: nat) {
    if i == 0 then a % 2 == 1 else Bit(a / 2, i - 1)
  }

  /** x^k * a. */
  function Shl(a: Poly, k: nat): Poly {
    if k == 0 then a else 2 * Shl(a, k - 1)
  }

  function Pow2(k: nat): (r: nat)
    ensures r > 0
  {
    if k == 0 then 1 else 2 * Pow2(k - 1)
  }

  /** Number of significant bits: one more than the degree, and 0 for the zero polynomial. */
  function Len(a: Poly): nat {
    if a == 0 then 0 else 1 + Len(a / 2)
  }

  /** The product of two polynomials. */
  function Clmul(a: Poly, b: Poly): Poly
    decreases b
  {
    if b == 0 then 0 else Xor(if b % 2 == 1 then a else 0, 2 * Clmul(a, b / 2))
  }

  ghost predicate Divides(d: Poly, a: Poly) {
    exists q: Poly :: Clmul(d, q) == a
  }

  /** The remainder of a modulo m, cancelling leading terms. */
  function Rem(a: Poly, m: Poly): (r: Poly)
    requires m > 0
    ensures Len(r) < Len(m)
    decreases Len(a)
  {
    if Len(a) < Len(m) then a
    else
      CancelTop(a, m);
      Rem(Xor(a, Shl(m, Len(a) - Len(m))), m)
  }

  // ----- the additive group -----

  lemma {:induction false} XorComm(a: Poly, b: Poly)
    ensures Xor(a, b) == Xor(b, a)
    decreases a + b
  {
    if a != 0 || b != 0 { XorComm(a / 2, b / 2); }
  }

  /** The sum splits into its low bit and its upper bits. */
  lemma XorParts(a: Poly, b: Poly)
    ensures Xor(a, b) / 2 == Xor(a / 2, b / 2) && Xor(a, b) % 2 == BitSum(a % 2, b % 2)
  {
  }

  /** Adding the lowest coefficient. */
  lemma XorLow(a: Poly, b: Poly, i: nat, j: nat)
    requires i < 2 && j < 2
    ensures Xor(i + 2 * a, j + 2 * b) == BitSum(i, j) + 2 * Xor(a, b)
  {
    assert (i + 2 * a) / 2 == a && (j + 2 * b) / 2 == b && (i + 2 * a) % 2 == i && (j + 2 * b) % 2 == j;
  }

  lemma {:induction false} XorAssoc(a: Poly, b: Poly, c: Poly)
    ensures Xor(Xor(a, b), c) == Xor(a, Xor(b, c))
    decreases a + b + c
  {
    if a != 0 || b != 0 || c != 0 {
      XorAssoc(a / 2, b / 2, c / 2);
      XorParts(a, b);
      XorParts(b, c);
      var left, right := Xor(Xor(a, b), c), Xor(a, Xor(b, c));
      assert left / 2 == right / 2 && left % 2 == right % 2 by {
        XorParts(Xor(a, b), c);
        XorParts(a, Xor(b, c));
      }
    }
  }

  lemma {:induction false} XorSelf(a: Poly)
    ensures Xor(a, a) == 0
  {
    if a != 0 { XorSelf(a / 2); }
  }

  lemma {:induction false} XorZero(a: Poly)
    ensures Xor(a, 0) == a && Xor(0, a) == a
  {
    if a != 0 { XorZero(a / 2); }
  }

  /** a + b == 0 only when the two are equal. */
  lemma {:induction false} XorZeroEqual(a: Poly, b: Poly)
    requires Xor(a, b) == 0
    ensures a == b
    decreases a + b
  {
    if a != 0 || b != 0 { XorZeroEqual(a / 2, b / 2); }
  }

  /** (a + b) + (c + d) == (a + c) + (b + d). */
  lemma XorSwap(a: Poly, b: Poly, c: Poly, d: Poly)
    ensures Xor(Xor(a, b), Xor(c, d)) == Xor(Xor(a, c), Xor(b, d))
  {
    XorAssoc(a, b, Xor(c, d));
    XorAssoc(b, c, d); XorComm(b, c); XorAssoc(c, b, d);
    XorAssoc(a, c, Xor(b, d));
  }

  /** (a + b) + (b + c) == a + c. */
  lemma XorCancel(a: Poly, b: Poly, c: Poly)
    ensures Xor(Xor(a, b), Xor(b, c)) == Xor(a, c)
    ensures Xor(Xor(a, b), b) == a
  {
    XorAssoc(a, b, Xor(b, c)); XorAssoc(b, b, c); XorSelf(b); XorZero(c);
    XorAssoc(a, b, b); XorZero(a);
  }

  // ----- sizes -----

  lemma {:induction false} LenPow2(a: Poly, k: nat)
    ensures a < Pow2(k) <==> Len(a) <= k
    decreases k
  {
    if k > 0 { LenPow2(a / 2, k - 1); }
  }

  lemma {:induction false} LenXor(a: Poly, b: Poly, k: nat)
    requires Len(a) <= k && Len(b) <= k
    ensures Len(Xor(a, b)) <= k
    decreases k
  {
    if k > 0 { LenXor(a / 2, b / 2, k - 1); }
  }

  lemma {:induction false} LenXorEq(a: Poly, b: Poly)
    requires Len(a) > Len(b)
    ensures Len(Xor(a, b)) == Len(a) && Len(Xor(b, a)) == Len(a)
    decreases a
  {
    XorComm(a, b);
    if b == 0 { XorZero(a); } else { LenXorEq(a / 2, b / 2); }
  }

  lemma {:induction false} LenXorTop(a: Poly, b: Poly)
    requires Len(a) == Len(b) > 0
    ensures Len(Xor(a, b)) < Len(a)
    decreases a
  {
    if a > 1 { LenXorTop(a / 2, b / 2); }
  }

  lemma {:induction false} LenTopBit(a: Poly, k: nat)
    requires Len(a) <= k + 1
    ensures Bit(a, k) <==> Len(a) == k + 1
    decreases k
  {
    if k > 0 { LenTopBit(a / 2, k - 1); }
  }

  lemma {:induction false} LenShl(a: Poly, k: nat)
    ensures a > 0 ==> Len(Shl(a, k)) == Len(a) + k
    ensures a == 0 ==> Shl(a, k) == 0
  {
    if k > 0 { LenShl(a, k - 1); }
  }

  lemma CancelTop(a: Poly, m: Poly)
    requires 0 < Len(m) <= Len(a)
    ensures Len(Xor(a, Shl(m, Len(a) - Len(m)))) < Len(a)
  {
    LenShl(m, Len(a) - Len(m));
    LenXorTop(a, Shl(m, Len(a) - Len(m)));
  }

  // ----- the ring -----

  lemma {:induction false} ClmulZero(a: Poly)
    ensures Clmul(0, a) == 0
  {
    if a != 0 { ClmulZero(a / 2); }
  }

  lemma {:induction false} ClmulOne(a: Poly)
    ensures Clmul(a, 1) == a && Clmul(1, a) == a
  {
    XorZero(a);
    assert Clmul(a, 1) == Xor(a, 2 * Clmul(a, 0));
    if a != 0 {
      ClmulOne(a / 2);
      XorDouble(a % 2, a / 2);
    }
  }

  lemma {:induction false} ClmulDouble(a: Poly, b: Poly)
    ensures Clmul(2 * a, b) == 2 * Clmul(a, b)
    ensures Clmul(a, 2 * b) == 2 * Clmul(a, b)
    decreases b
  {
    XorZero(2 * Clmul(a, b));
    assert Clmul(a, 2 * b) == if b == 0 then 0 else Xor(0, 2 * Clmul(a, b));
    if b != 0 {
      ClmulDouble(a, b / 2);
      XorTwice(if b % 2 == 1 then a else 0, 2 * Clmul(a, b / 2));
    }
  }

  lemma XorTwice(a: Poly, b: Poly)
    ensures Xor(2 * a, 2 * b) == 2 * Xor(a, b)
  {
    XorParts(2 * a, 2 * b);
  }

  /** a times a constant polynomial. */
  function Times(a: Poly, bit: nat): Poly {
    if bit == 1 then a else 0
  }

  lemma ClmulStep(a: Poly, b: Poly)
    ensures Clmul(a, b) == Xor(Times(a, b % 2), 2 * Clmul(a, b / 2))
  {
  }

  lemma {:induction false} ClmulXorLeft(a: Poly, b: Poly, c: Poly)
    ensures Clmul(Xor(a, b), c) == Xor(Clmul(a, c), Clmul(b, c))
    decreases c
  {
    if c != 0 {
      ClmulXorLeft(a, b, c / 2);
      ClmulStep(a, c);
      ClmulStep(b, c);
      ClmulStep(Xor(a, b), c);
      XorSwap(Times(a, c % 2), 2 * Clmul(a, c / 2), Times(b, c % 2), 2 * Clmul(b, c / 2));
      XorTwice(Clmul(a, c / 2), Clmul(b, c / 2));
      assert Xor(Times(a, c % 2), Times(b, c % 2)) == Times(Xor(a, b), c % 2);
    }
  }

  lemma {:induction false} ClmulXorRight(a: Poly, b: Poly, c: Poly)
    ensures Clmul(a, Xor(b, c)) == Xor(Clmul(a, b), Clmul(a, c))
    decreases b + c
  {
    if b != 0 || c != 0 {
      ClmulXorRight(a, b / 2, c / 2);
      XorParts(b, c);
      ClmulStep(a, b);
      ClmulStep(a, c);
      ClmulStep(a, Xor(b, c));
      var p, q := Times(a, b % 2), Times(a, c % 2);
      XorSwap(p, 2 * Clmul(a, b / 2), q, 2 * Clmul(a, c / 2));
      XorTwice(Clmul(a, b / 2), Clmul(a, c / 2));
      assert Xor(p, q) == Times(a, BitSum(b % 2, c % 2)) by { XorSelf(a); XorZero(a); }
    }
  }

  lemma {:induction false} ClmulComm(a: Poly, b: Poly)
    ensures Clmul(a, b) == Clmul(b, a)
    decreases b
  {
    if b == 0 {
      ClmulZero(a);
    } else {
      var low := b % 2;
      XorDouble(low, b / 2);
      ClmulXorLeft(low, 2 * (b / 2), a);
      ClmulDouble(b / 2, a);
      ClmulComm(a, b / 2);
      ClmulOne(a); ClmulZero(a);
    }
  }

  /** A number splits into its low bit and the rest. */
  lemma XorDouble(low: nat, rest: nat)
    requires low < 2
    ensures Xor(low, 2 * rest) == low + 2 * rest
  {
    XorZero(rest);
  }

  lemma {:induction false} ClmulAssoc(a: Poly, b: Poly, c: Poly)
    ensures Clmul(Clmul(a, b), c) == Clmul(a, Clmul(b, c))
    decreases c
  {
    if c != 0 {
      ClmulAssoc(a, b, c / 2);
      ClmulXorRight(a, if c % 2 == 1 then b else 0, 2 * Clmul(b, c / 2));
      ClmulDouble(a, Clmul(b, c / 2));
    }
  }

  lemma {:induction false} ClmulShl(a: Poly, b: Poly, k: nat)
    ensures Clmul(a, Shl(b, k)) == Shl(Clmul(a, b), k)
    ensures Clmul(Shl(a, k), b) == Shl(Clmul(a, b), k)
  {
    if k > 0 {
      ClmulShl(a, b, k - 1);
      ClmulDouble(a, Shl(b, k - 1));
      ClmulDouble(Shl(a, k - 1), b);
    }
  }

  lemma {:induction false} LenClmul(a: Poly, b: Poly)
    requires a > 0 && b > 0
    ensures Len(Clmul(a, b)) == Len(a) + Len(b) - 1
    decreases b
  {
    if b == 1 {
      ClmulOne(a);
    } else {
      hide Xor;
      LenClmul(a, b / 2);
      LenClmulStep(a, b);
    }
  }

  lemma LenClmulStep(a: Poly, b: Poly)
    requires a > 0 && b > 1 && Len(Clmul(a, b / 2)) == Len(a) + Len(b / 2) - 1
    ensures Len(Clmul(a, b)) == Len(a) + Len(b) - 1
  {
    hide Xor;
    var low, rest := if b % 2 == 1 then a else 0, 2 * Clmul(a, b / 2);
    LenXorEq(rest, low);
  }

  // ----- divisibility and remainders -----

  lemma DividesSelf(d: Poly)
    ensures Divides(d, d) && Divides(d, 0) && Divides(1, d)
  {
    ClmulOne(d);
    assert Clmul(d, 0) == 0;
  }

  lemma DividesXor(d: Poly, a: Poly, b: Poly)
    requires Divides(d, a) && Divides(d, b)
    ensures Divides(d, Xor(a, b))
  {
    var p: Poly :| Clmul(d, p) == a;
    var q: Poly :| Clmul(d, q) == b;
    ClmulXorRight(d, p, q);
  }

  lemma DividesClmul(d: Poly, a: Poly, c: Poly)
    requires Divides(d, a)
    ensures Divides(d, Clmul(a, c)) && Divides(d, Clmul(c, a))
  {
    var p: Poly :| Clmul(d, p) == a;
    ClmulAssoc(d, p, c);
    ClmulComm(a, c);
  }

  lemma DividesTrans(d: Poly, a: Poly, b: Poly)
    requires Divides(d, a) && Divides(a, b)
    ensures Divides(d, b)
  {
    var q: Poly :| Clmul(a, q) == b;
    DividesClmul(d, a, q);
  }

  /** A multiple of m that is shorter than m is zero. */
  lemma DividesShort(m: Poly, a: Poly)
    requires Divides(m, a) && Len(a) < Len(m)
    ensures a == 0
  {
    var q: Poly :| Clmul(m, q) == a;
    if q != 0 { LenClmul(m, q); }
  }

  /** Two polynomials are congruent modulo m when m divides their difference. */
  ghost predicate Congruent(a: Poly, b: Poly, m: Poly) {
    Divides(m, Xor(a, b))
  }

  lemma CongruentRefl(a: Poly, m: Poly)
    ensures Congruent(a, a, m)
  {
    XorSelf(a); DividesSelf(m);
  }

  lemma CongruentSym(a: Poly, b: Poly, m: Poly)
    requires Congruent(a, b, m)
    ensures Congruent(b, a, m)
  {
    XorComm(a, b);
  }

  lemma CongruentTrans(a: Poly, b: Poly, c: Poly, m: Poly)
    requires Congruent(a, b, m) && Congruent(b, c, m)
    ensures Congruent(a, c, m)
  {
    DividesXor(m, Xor(a, b), Xor(b, c));
    XorCancel(a, b, c);
  }

  lemma CongruentXor(a: Poly, b: Poly, c: Poly, d: Poly, m: Poly)
    requires Congruent(a, b, m) && Congruent(c, d, m)
    ensures Congruent(Xor(a, c), Xor(b, d), m)
  {
    DividesXor(m, Xor(a, b), Xor(c, d));
    XorSwap(a, b, c, d);
  }

  lemma CongruentClmul(a: Poly, b: Poly, c: Poly, m: Poly)
    requires Congruent(a, b, m)
    ensures Congruent(Clmul(a, c), Clmul(b, c), m)
    ensures Congruent(Clmul(c, a), Clmul(c, b), m)
  {
    DividesClmul(m, Xor(a, b), c);
    ClmulXorLeft(a, b, c);
    ClmulXorRight(c, a, b);
  }

  /** Reduced polynomials are canonical representatives. */
  lemma CongruentReduced(a: Poly, b: Poly, m: Poly)
    requires Congruent(a, b, m) && Len(a) < Len(m) && Len(b) < Len(m)
    ensures a == b
  {
    LenXor(a, b, Len(m) - 1);
    DividesShort(m, Xor(a, b));
    XorZeroEqual(a, b);
  }

  lemma {:induction false} RemCongruent(a: Poly, m: Poly)
    requires m > 0
    ensures Congruent(a, Rem(a, m), m)
    decreases Len(a)
  {
    if Len(a) < Len(m) {
      CongruentRefl(a, m);
    } else {
      var t := Shl(m, Len(a) - Len(m));
      CancelTop(a, m);
      RemCongruent(Xor(a, t), m);
      ClmulShl(m, 1, Len(a) - Len(m)); ClmulOne(m);
      assert Divides(m, t);
      XorComm(Xor(a, t), a); XorAssoc(t, a, a); XorComm(a, t); XorSelf(a); XorZero(t);
      assert Xor(Xor(a, t), a) == t;
      CongruentSym(Xor(a, t), a, m);
      CongruentTrans(a, Xor(a, t), Rem(a, m), m);
    }
  }

  /** Rem(a, m) is the only polynomial shorter than m that is congruent to a. */
  lemma RemUnique(a: Poly, r: Poly, m: Poly)
    requires m > 0
    ensures Congruent(a, r, m) && Len(r) < Len(m) <==> r == Rem(a, m)
  {
    RemCongruent(a, m);
    if Congruent(a, r, m) && Len(r) < Len(m) {
      CongruentSym(a, r, m);
      CongruentTrans(r, a, Rem(a, m), m);
      CongruentReduced(r, Rem(a, m), m);
    }
  }

  lemma RemEqual(a: Poly, b: Poly, m: Poly)
    requires m > 0
    ensures Congruent(a, b, m) <==> Rem(a, m) == Rem(b, m)
  {
    RemCongruent(a, m); RemCongruent(b, m);
    if Congruent(a, b, m) {
      CongruentTrans(a, b, Rem(b, m), m);
      RemUnique(a, Rem(b, m), m);
    }
    if Rem(a, m) == Rem(b, m) {
      CongruentSym(b, Rem(b, m), m);
      CongruentTrans(a, Rem(a, m), b, m);
    }
  }

  /** Quotient and remainder are determined by the division equation. */
  lemma DivisionUnique(a: Poly, b: Poly, q: Poly, r: Poly, q': Poly, r': Poly)
    requires a == Xor(Clmul(b, q), r) && a == Xor(Clmul(b, q'), r')
    requires Len(r) < Len(b) && Len(r') < Len(b)
    ensures q == q' && r == r'
  {
    XorSelf(a);
    XorSwap(Clmul(b, q), r, Clmul(b, q'), r');
    ClmulXorRight(b, q, q');
    XorZeroEqual(Clmul(b, Xor(q, q')), Xor(r, r'));
    LenXor(r, r', Len(b) - 1);
    if Xor(q, q') != 0 { LenClmul(b, Xor(q, q')); assert false; }
    XorZeroEqual(q, q');
    XorSelf(r); XorZeroEqual(r, r');
  }
}
