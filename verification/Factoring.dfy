/** When a polynomial has no proper factor.  Squaring is linear modulo p; if it fixes no element but
    0 and 1 and sends only 0 to 0, then p is irreducible. */
module Factoring {
  import opened Gf2Poly
  import opened Field

  ghost predicate Irreducible(p: Poly) {
    Len(p) >= 2 && forall d: Poly :: Divides(d, p) ==> d == 1 || d == p
  }

  /** What squaring modulo p does to h. */
  ghost predicate SquareTells(h: Poly, p: Poly)
    requires p > 0
  {
    (MulMod(h, h, p) == h ==> h <= 1) && (MulMod(h, h, p) == 0 ==> h == 0)
  }

  /** a divided by b leaves r, in two equations. */
  lemma DivisionEquation(a: Poly, b: Poly) returns (q: Poly, r: Poly)
    requires b > 0
    ensures r == Xor(a, Clmul(b, q)) && a == Xor(Clmul(b, q), r) && Len(r) < Len(b)
  {
    r := Rem(a, b);
    RemCongruent(a, b);
    q :| Clmul(b, q) == Xor(a, r);
    XorCancel(a, r, 0);
    XorComm(a, Xor(a, r));
    XorComm(a, r);
    XorCancel(r, a, 0);
    XorComm(r, a);
  }

  /** A greatest common divisor and its cofactors. */
  lemma {:induction false} Bezout(a: Poly, b: Poly) returns (g: Poly, u: Poly, v: Poly)
    ensures Xor(Clmul(u, a), Clmul(v, b)) == g && Divides(g, a) && Divides(g, b)
    decreases Len(b)
  {
    if b == 0 {
      g, u, v := a, 1, 0;
      ClmulOne(a);
      ClmulZero(b);
      XorZero(a);
      DividesSelf(a);
    } else {
      hide Xor, Clmul;
      var q, r := DivisionEquation(a, b);
      var s, t;
      g, s, t := Bezout(b, r);
      u, v := t, Xor(s, Clmul(t, q));
      CofactorsBack(a, b, q, r, s, t);
      DividesClmul(g, b, q);
      DividesXor(g, Clmul(b, q), r);
    }
  }

  /** s*b + t*r, with r = a + b*q, is t*a + (s + t*q)*b. */
  lemma CofactorsBack(a: Poly, b: Poly, q: Poly, r: Poly, s: Poly, t: Poly)
    requires r == Xor(a, Clmul(b, q))
    ensures Xor(Clmul(t, a), Clmul(Xor(s, Clmul(t, q)), b)) == Xor(Clmul(s, b), Clmul(t, r))
  {
    hide Xor, Clmul;
    ClmulXorRight(t, a, Clmul(b, q));
    ClmulComm(b, q);
    ClmulAssoc(t, q, b);
    ClmulXorLeft(s, Clmul(t, q), b);
    var ta, sb, w := Clmul(t, a), Clmul(s, b), Clmul(Clmul(t, q), b);
    XorAssoc(ta, sb, w);
    XorComm(ta, sb);
    XorAssoc(sb, ta, w);
  }

  /** The square of a multiple of g that, times g, is p. */
  lemma SquareFactor(p: Poly, g: Poly, d: Poly, e: Poly)
    requires p == Clmul(Clmul(g, d), Clmul(g, e)) && Len(g) >= 2 && d > 0 && e > 0
    ensures exists n: Poly :: 0 < n && Len(n) < Len(p) && Divides(p, Clmul(n, n))
  {
    hide Clmul, Xor;
    var n := Clmul(g, Clmul(d, e));
    LenClmul(d, e);
    if g == 0 || Clmul(d, e) == 0 { assert false; }
    LenClmul(g, Clmul(d, e));
    assert p == Clmul(g, n) by {
      ClmulAssoc(g, d, Clmul(g, e));
      ClmulComm(d, Clmul(g, e));
      ClmulAssoc(g, e, d);
      ClmulComm(e, d);
    }
    LenClmul(g, n);
    assert Divides(p, Clmul(n, n)) by {
      DividesSelf(p);
      DividesClmul(p, p, Clmul(d, e));
      ClmulComm(g, n);
      ClmulAssoc(n, g, Clmul(d, e));
    }
  }

  lemma ZeroRemainder(a: Poly, p: Poly)
    requires p > 0
    ensures Divides(p, a) <==> Rem(a, p) == 0
  {
    XorZero(a);
    RemUnique(a, 0, p);
  }

  /** With w + w' = 1 and p a divisor of w * w', the square of w is w modulo p. */
  lemma Idempotent(w: Poly, w': Poly, p: Poly)
    requires p > 0 && Xor(w, w') == 1 && Divides(p, Clmul(w, w'))
    ensures var h := Rem(w, p); MulMod(h, h, p) == h
  {
    hide Clmul, Xor;
    var h := Rem(w, p);
    XorComm(w, w');
    XorCancel(w', w, 0);
    XorZero(w');
    assert Xor(1, w') == w by { XorCancel(w, w', 0); }
    ClmulXorRight(w, 1, w');
    ClmulOne(w);
    assert Clmul(w, w) == Xor(w, Clmul(w, w'));
    XorComm(w, Clmul(w, w'));
    XorCancel(Clmul(w, w'), w, 0);
    assert Congruent(Clmul(w, w), w, p);
    RemEqual(Clmul(w, w), w, p);
    MulModRem(w, w, p);
    MulModRem(h, w, p);
  }

  /** Coprime factors d and e are not both proper. */
  lemma CoprimeFactors(p: Poly, d: Poly, e: Poly, u: Poly, v: Poly)
    requires p > 0 && p == Clmul(d, e) && Xor(Clmul(u, d), Clmul(v, e)) == 1
    requires forall h: Poly :: Len(h) < Len(p) ==> SquareTells(h, p)
    ensures d == 1 || e == 1
  {
    hide Clmul, Xor, SquareTells;
    var w, w' := Clmul(u, d), Clmul(v, e);
    var h := Rem(w, p);
    assert Divides(p, Clmul(w, w')) by { CrossProduct(p, d, e, u, v); }
    Idempotent(w, w', p);
    assert SquareTells(h, p);
    SquareFixed(h, p);
    ClmulComm(d, e);
    if h == 0 {
      ZeroRemainder(w, p);
      OnlyFactor(p, e, v, d, w);
    } else {
      RemCongruent(w, p);
      OtherPart(w, w', p);
      XorComm(w, w');
      OnlyFactor(p, d, u, e, w');
    }
  }

  /** e divides v * e, and p = e * d divides w; the two add up to 1. */
  lemma OnlyFactor(p: Poly, e: Poly, v: Poly, d: Poly, w: Poly)
    requires p == Clmul(e, d) && Divides(p, w) && Xor(w, Clmul(v, e)) == 1
    ensures e == 1
  {
    hide Clmul, Xor;
    DividesSelf(e);
    DividesClmul(e, e, v);
    DividesClmul(e, e, d);
    DividesTrans(e, p, w);
    DividesXor(e, w, Clmul(v, e));
    DividesOne(e);
  }

  lemma SquareFixed(h: Poly, p: Poly)
    requires p > 0 && SquareTells(h, p) && MulMod(h, h, p) == h
    ensures h <= 1
  {
  }

  lemma OtherPart(w: Poly, w': Poly, p: Poly)
    requires p > 0 && Xor(w, w') == 1 && Congruent(w, 1, p)
    ensures Divides(p, w')
  {
    hide Xor;
    XorComm(w, w');
    XorCancel(w', w, 0);
    XorComm(1, w);
    assert Xor(1, w) == w' by { XorCancel(w', w, 0); }
  }

  lemma CrossProduct(p: Poly, d: Poly, e: Poly, u: Poly, v: Poly)
    requires p == Clmul(d, e)
    ensures Divides(p, Clmul(Clmul(u, d), Clmul(v, e)))
  {
    hide Clmul;
    DividesSelf(p);
    DividesClmul(p, p, u);
    ClmulAssoc(u, d, e);
    assert Divides(p, Clmul(Clmul(u, d), e));
    DividesClmul(p, Clmul(Clmul(u, d), e), v);
    ClmulAssoc(Clmul(u, d), e, v);
    ClmulComm(e, v);
  }

  /** The criterion. */
  lemma SquaresDecide(p: Poly)
    requires Len(p) >= 2 && forall h: Poly :: Len(h) < Len(p) ==> SquareTells(h, p)
    ensures Irreducible(p)
  {
    hide SquareTells, Clmul, Xor;
    forall d: Poly | Divides(d, p) ensures d == 1 || d == p {
      var e: Poly :| Clmul(d, e) == p;
      var g, u, v := Bezout(d, e);
      SharedFactor(p, d, e, g);
      CoprimeFactors(p, d, e, u, v);
      ClmulOne(d);
    }
  }

  /** Factors of p have no factor in common. */
  lemma SharedFactor(p: Poly, d: Poly, e: Poly, g: Poly)
    requires p > 0 && p == Clmul(d, e) && Divides(g, d) && Divides(g, e)
    requires forall h: Poly :: Len(h) < Len(p) ==> SquareTells(h, p)
    ensures g == 1
  {
    hide Clmul, SquareTells;
    var d': Poly :| Clmul(g, d') == d;
    var e': Poly :| Clmul(g, e') == e;
    NotZero(d, e);
    NotZero(g, d');
    NotZero(g, e');
    if g > 1 {
      assert Len(g) >= 2 by { if Len(g) <= 1 { LenOne(g); } }
      SquareFactor(p, g, d', e');
      var n: Poly :| 0 < n && Len(n) < Len(p) && Divides(p, Clmul(n, n));
      ZeroRemainder(Clmul(n, n), p);
      assert SquareTells(n, p);
      NoRoot(n, p);
      assert false;
    }
  }

  lemma NoRoot(n: Poly, p: Poly)
    requires p > 0 && SquareTells(n, p) && MulMod(n, n, p) == 0
    ensures n == 0
  {
  }

  lemma NotZero(a: Poly, b: Poly)
    requires Clmul(a, b) > 0
    ensures a > 0 && b > 0
  {
    ClmulZero(b);
  }

  /** For an irreducible polynomial coprimality is decided by one division. */
  lemma CoprimeIff(c: Poly, p: Poly)
    requires Irreducible(p)
    ensures Coprime(c, p) <==> Rem(c, p) != 0
  {
    hide Clmul, Rem;
    ZeroRemainder(c, p);
    DividesSelf(p);
    if Divides(p, c) {
      assert CommonDivisor(p, c, p);
    }
  }

  /** An element below p that has no inverse tells p is reducible, and the other way round. */
  lemma FieldIff(p: Poly)
    requires Len(p) >= 2
    ensures Irreducible(p) <==> forall a: Poly :: 0 < a && Len(a) < Len(p) ==> Coprime(a, p)
  {
    hide Coprime;
    if Irreducible(p) {
      forall a: Poly | 0 < a && Len(a) < Len(p) ensures Coprime(a, p) { CoprimeIff(a, p); }
    }
    if forall a: Poly :: 0 < a && Len(a) < Len(p) ==> Coprime(a, p) {
      forall d: Poly | Divides(d, p) ensures d == 1 || d == p { ProperFactor(d, p); }
    }
  }

  lemma ProperFactor(d: Poly, p: Poly)
    requires Len(p) >= 2 && Divides(d, p) && (0 < d && Len(d) < Len(p) ==> Coprime(d, p))
    ensures d == 1 || d == p
  {
    hide Clmul;
    var e: Poly :| Clmul(d, e) == p;
    NotZero(d, e);
    LenClmul(d, e);
    if Len(d) < Len(p) {
      DividesSelf(d);
      assert CommonDivisor(d, d, p);
    } else {
      assert Len(e) == 1;
      LenOne(e);
      ClmulOne(d);
    }
  }

  lemma LenOne(e: Poly)
    ensures Len(e) == 1 ==> e == 1
  {
    if e > 1 { assert Len(e) == 1 + Len(e / 2) && e / 2 > 0; }
  }
}
