/** The field GF(2^n) of common/os_galoisField: shift-and-xor multiplication, carry-less long
    division and the extended Euclidean algorithm, each proved against Gf2Poly. */
module Field {
  import opened Gf2Poly
  import opened MachineWords
  import opened Words

  /** primTable without its leading terms: entry n holds the terms of degree below n. */
  const PRIM_LOW: seq<nat> := [
    0x0, 0x1, 0x3, 0x3, 0x3, 0x5, 0x3, 0x9, 0x1D, 0x11, 0x9, 0x5, 0x53, 0x1B, 0x443, 0x3, 0x100B,
    0x9, 0x81, 0x27, 0x9, 0x5, 0x3, 0x21, 0x87, 0x9, 0x47, 0x27, 0x9, 0x3, 0x53, 0x9, 0xC5]

  /** primTable[n], a polynomial of degree n. */
  function PrimTable(n: nat): (r: uint64)
    requires n <= 32
    ensures Len(r) == n + 1
  {
    PrimLowSmall(n);
    TopDegree(PRIM_LOW[n], n);
    Pow2(n) + PRIM_LOW[n]
  }

  lemma TopDegree(low: nat, n: nat)
    requires low < Pow2(n)
    ensures Len(Pow2(n) + low) == n + 1 && (n <= 62 ==> Pow2(n) + low < TWO_TO_THE_63)
  {
    LenPow2(Pow2(n) + low, n);
    LenPow2(Pow2(n) + low, n + 1);
    hide Len;
    WordLen(Pow2(n) + low);
  }

  lemma PrimLowSmall(n: nat)
    requires n <= 32
    ensures PRIM_LOW[n] < Pow2(n)
  {
    assert Pow2(1) == 0x2 && Pow2(2) == 0x4 && Pow2(3) == 0x8 && Pow2(4) == 0x10;
    assert Pow2(5) == 0x20 && Pow2(6) == 0x40 && Pow2(7) == 0x80 && Pow2(8) == 0x100;
    assert Pow2(9) == 0x200 && Pow2(10) == 0x400 && Pow2(11) == 0x800 && Pow2(12) == 0x1000;
    assert PRIM_LOW[n] < 0x2000;
    if n >= 13 { Pow2Monotone(13, n); assert Pow2(13) == 0x2000; }
  }

  lemma {:induction false} Pow2Monotone(i: nat, j: nat)
    requires i <= j
    ensures Pow2(i) <= Pow2(j)
    decreases j
  {
    if i < j { Pow2Monotone(i, j - 1); }
  }

  /** The product of two field elements: the polynomial product, reduced. */
  function MulMod(a: Poly, b: Poly, prim: Poly): (r: Poly)
    requires prim > 0
    ensures Len(r) < Len(prim)
  {
    Rem(Clmul(a, b), prim)
  }

  ghost predicate CommonDivisor(d: Poly, a: Poly, b: Poly) {
    Divides(d, a) && Divides(d, b)
  }

  ghost predicate IsGcd(g: Poly, a: Poly, b: Poly) {
    CommonDivisor(g, a, b) && forall d: Poly :: CommonDivisor(d, a, b) ==> Divides(d, g)
  }

  ghost predicate Coprime(a: Poly, b: Poly) {
    forall d: Poly :: CommonDivisor(d, a, b) ==> d == 1
  }

  // ----- laws of the field product -----

  lemma MulModComm(a: Poly, b: Poly, prim: Poly)
    requires prim > 0
    ensures MulMod(a, b, prim) == MulMod(b, a, prim)
  {
    ClmulComm(a, b);
  }

  /** Reducing an operand first does not change the product. */
  lemma MulModRem(a: Poly, b: Poly, prim: Poly)
    requires prim > 0
    ensures MulMod(Rem(a, prim), b, prim) == MulMod(a, b, prim) == MulMod(a, Rem(b, prim), prim)
  {
    RemCongruent(a, prim); RemCongruent(b, prim);
    CongruentClmul(a, Rem(a, prim), b, prim);
    CongruentClmul(b, Rem(b, prim), a, prim);
    RemEqual(Clmul(a, b), Clmul(Rem(a, prim), b), prim);
    RemEqual(Clmul(a, b), Clmul(a, Rem(b, prim)), prim);
  }

  lemma MulModAssoc(a: Poly, b: Poly, c: Poly, prim: Poly)
    requires prim > 0
    ensures MulMod(MulMod(a, b, prim), c, prim) == MulMod(a, MulMod(b, c, prim), prim)
  {
    MulModRem(Clmul(a, b), c, prim);
    MulModRem(a, Clmul(b, c), prim);
    ClmulAssoc(a, b, c);
  }

  lemma RemXor(a: Poly, b: Poly, prim: Poly)
    requires prim > 0
    ensures Rem(Xor(a, b), prim) == Xor(Rem(a, prim), Rem(b, prim))
  {
    RemCongruent(a, prim); RemCongruent(b, prim);
    CongruentXor(a, Rem(a, prim), b, Rem(b, prim), prim);
    LenXor(Rem(a, prim), Rem(b, prim), Len(prim) - 1);
    RemUnique(Xor(a, b), Xor(Rem(a, prim), Rem(b, prim)), prim);
  }

  lemma MulModXor(a: Poly, b: Poly, c: Poly, prim: Poly)
    requires prim > 0
    ensures MulMod(Xor(a, b), c, prim) == Xor(MulMod(a, c, prim), MulMod(b, c, prim))
    ensures MulMod(c, Xor(a, b), prim) == Xor(MulMod(c, a, prim), MulMod(c, b, prim))
  {
    ClmulXorLeft(a, b, c);
    ClmulXorRight(c, a, b);
    RemXor(Clmul(a, c), Clmul(b, c), prim);
    RemXor(Clmul(c, a), Clmul(c, b), prim);
  }

  lemma MulModOne(a: Poly, prim: Poly)
    requires Len(a) < Len(prim)
    ensures MulMod(a, 1, prim) == a == MulMod(1, a, prim)
  {
    ClmulOne(a);
  }

  /** An element with an inverse shares no factor with the modulus. */
  lemma InverseMeansCoprime(a: Poly, u: Poly, prim: Poly)
    requires Len(prim) >= 2 && MulMod(u, a, prim) == 1
    ensures Coprime(a, prim)
  {
    forall d: Poly | CommonDivisor(d, a, prim) ensures d == 1 {
      RemCongruent(Clmul(u, a), prim);
      DividesTrans(d, prim, Xor(Clmul(u, a), 1));
      DividesClmul(d, a, u);
      DividesXor(d, Clmul(u, a), Xor(Clmul(u, a), 1));
      XorAssoc(Clmul(u, a), Clmul(u, a), 1); XorSelf(Clmul(u, a)); XorZero(1);
      DividesOne(d);
    }
  }

  lemma DividesOne(d: Poly)
    requires Divides(d, 1)
    ensures d == 1
  {
    var q: Poly :| Clmul(d, q) == 1;
    if d == 0 { ClmulZero(q); assert false; }
    LenClmul(d, q);
    assert Len(1) == 1;
  }

  // ----- one step of each loop -----

  /** What the multiplication loop keeps: r plus p times the bits of b still to come is the
      product wanted, and r and p stay reduced. */
  ghost predicate MulInvariant(r: Poly, p: Poly, b: Poly, total: Poly, prim: Poly) {
    Len(r) < Len(prim) && Len(p) < Len(prim) && Congruent(Xor(r, Clmul(p, b)), total, prim)
  }

  lemma MulStart(a: Poly, b: Poly, prim: Poly)
    requires Len(a) < Len(prim)
    ensures MulInvariant(0, a, b, Clmul(a, b), prim)
  {
    XorZero(Clmul(a, b));
    CongruentRefl(Clmul(a, b), prim);
  }

  function NextProduct(r: Poly, p: Poly, b: Poly): Poly {
    if b % 2 == 1 then Xor(r, p) else r
  }

  lemma MulShift(r: Poly, p: Poly, b: Poly)
    ensures Xor(NextProduct(r, p, b), Clmul(2 * p, b / 2)) == Xor(r, Clmul(p, b))
  {
    ClmulDouble(p, b / 2);
    XorAssoc(r, p, 2 * Clmul(p, b / 2));
    XorZero(2 * Clmul(p, b / 2));
  }

  lemma MulStep(r: Poly, p: Poly, b: Poly, total: Poly, n: nat, prim: Poly)
    requires Len(prim) == n + 1 && MulInvariant(r, p, b, total, prim)
    ensures var p' := if Bit(2 * p, n) then Xor(2 * p, prim) else 2 * p;
            MulInvariant(NextProduct(r, p, b), p', b / 2, total, prim)
  {
    LenXor(r, p, n);
    LenTopBit(2 * p, n);
    MulShift(r, p, b);
    if Bit(2 * p, n) {
      LenXorTop(2 * p, prim);
      MulReduce(NextProduct(r, p, b), 2 * p, b / 2, total, prim);
    }
  }

  lemma MulReduce(r: Poly, p: Poly, b: Poly, total: Poly, prim: Poly)
    requires prim > 0 && Congruent(Xor(r, Clmul(p, b)), total, prim)
    ensures Congruent(Xor(r, Clmul(Xor(p, prim), b)), total, prim)
  {
    DividesSelf(prim);
    XorComm(p, prim); XorCancel(prim, p, p); XorZero(prim);
    assert Congruent(Xor(p, prim), p, prim);
    CongruentClmul(Xor(p, prim), p, b, prim);
    CongruentRefl(r, prim);
    CongruentXor(r, r, Clmul(Xor(p, prim), b), Clmul(p, b), prim);
    CongruentTrans(Xor(r, Clmul(Xor(p, prim), b)), Xor(r, Clmul(p, b)), total, prim);
  }

  lemma MulDone(r: Poly, p: Poly, a: Poly, b: Poly, prim: Poly)
    requires MulInvariant(r, p, 0, Clmul(a, b), prim)
    ensures r == MulMod(a, b, prim)
  {
    XorZero(r);
    CongruentSym(r, Clmul(a, b), prim);
    RemUnique(Clmul(a, b), r, prim);
  }

  lemma DivStep(b: Poly, q: Poly, r: Poly, i: nat)
    ensures Xor(Clmul(b, Shl(2 * q, i)), r) == Xor(Clmul(b, Shl(q, i + 1)), r)
    ensures Xor(Clmul(b, Shl(2 * q + 1, i)), Xor(r, Shl(b, i))) == Xor(Clmul(b, Shl(q, i + 1)), r)
  {
    ShlTwice(q, i);
    var s, t := Shl(q, i + 1), Shl(b, i);
    assert Shl(2 * q + 1, i) == Xor(s, Shl(1, i)) by {
      XorDouble(1, q); XorComm(1, 2 * q);
      ShlXor(2 * q, 1, i);
    }
    assert Clmul(b, Xor(s, Shl(1, i))) == Xor(Clmul(b, s), t) by {
      ClmulXorRight(b, s, Shl(1, i));
      ClmulShl(b, 1, i); ClmulOne(b);
    }
    XorComm(r, t);
    XorCancel(Clmul(b, s), t, r);
  }

  /** What long division keeps while the quotient bits above position i are known. */
  ghost predicate DivInvariant(a: Poly, b: Poly, q: Poly, r: Poly, i: int) {
    -1 <= i && Len(q) <= Len(a) - Len(b) - i && Len(r) <= Len(b) + i && a == Xor(Clmul(b, Shl(q, i + 1)), r)
  }

  lemma DivStart(a: Poly, b: Poly)
    requires 0 < Len(b) <= Len(a) + 1
    ensures DivInvariant(a, b, 0, a, Len(a) - Len(b))
  {
    XorZero(a);
    LenShl(0, Len(a) - Len(b) + 1);
  }

  lemma DivIteration(a: Poly, b: Poly, q: Poly, r: Poly, i: nat)
    requires b > 0 && DivInvariant(a, b, q, r, i)
    ensures if Bit(r, Len(b) - 1 + i)
            then DivInvariant(a, b, 2 * q + 1, Xor(r, Shl(b, i)), i - 1)
            else DivInvariant(a, b, 2 * q, r, i - 1)
  {
    hide Xor, Clmul, Shl, Bit, Len;
    LenOneMore(q);
    DivStep(b, q, r, i);
    TopCancels(b, r, i);
  }

  lemma LenOneMore(q: Poly)
    ensures Len(2 * q) <= Len(q) + 1 == Len(2 * q + 1)
  {
  }

  lemma TopCancels(b: Poly, r: Poly, i: nat)
    requires b > 0 && Len(r) <= Len(b) + i
    ensures Len(b) > 0
    ensures if Bit(r, Len(b) - 1 + i) then Len(Xor(r, Shl(b, i))) <= Len(b) + i - 1 else Len(r) <= Len(b) + i - 1
  {
    hide Xor, Shl;
    LenTopBit(r, Len(b) - 1 + i);
    if Bit(r, Len(b) - 1 + i) {
      LenShl(b, i);
      LenXorTop(r, Shl(b, i));
    }
  }

  lemma NoQuotient(a: Poly, b: Poly)
    requires Len(a) < Len(b)
    ensures a == Xor(Clmul(b, 0), a)
  {
    XorZero(a);
  }

  lemma DivDone(a: Poly, b: Poly, q: Poly, r: Poly)
    requires DivInvariant(a, b, q, r, -1)
    ensures a == Xor(Clmul(b, q), r) && Len(r) < Len(b)
  {
  }

  lemma OnlyDivision(a: Poly, b: Poly, q: Poly, r: Poly)
    requires b > 0 && a == Xor(Clmul(b, q), r) && Len(r) < Len(b)
    ensures forall q': Poly, r': Poly :: a == Xor(Clmul(b, q'), r') && Len(r') < Len(b) ==> q == q' && r == r'
  {
    forall q': Poly, r': Poly | a == Xor(Clmul(b, q'), r') && Len(r') < Len(b) ensures q == q' && r == r' {
      DivisionUnique(a, b, q, r, q', r');
    }
  }

  lemma GcdStep(g0: Poly, g1: Poly, q: Poly, r: Poly)
    requires g0 == Xor(Clmul(g1, q), r)
    ensures forall d: Poly :: CommonDivisor(d, g1, r) <==> CommonDivisor(d, g0, g1)
  {
    var t := Clmul(g1, q);
    XorAssoc(t, t, r); XorSelf(t); XorZero(r);
    assert Xor(t, g0) == r;
    forall d: Poly ensures CommonDivisor(d, g1, r) <==> CommonDivisor(d, g0, g1) {
      if Divides(d, g1) {
        DividesClmul(d, g1, q);
        if Divides(d, r) { DividesXor(d, t, r); }
        if Divides(d, g0) { DividesXor(d, t, g0); }
      }
    }
  }

  /** u*a + v*b == g in the quotient ring. */
  ghost predicate Bezout(u: Poly, a: Poly, v: Poly, b: Poly, g: Poly, prim: Poly) {
    Congruent(Xor(Clmul(u, a), Clmul(v, b)), g, prim)
  }

  lemma BezoutStep(u0: Poly, u1: Poly, v0: Poly, v1: Poly, a: Poly, b: Poly, g0: Poly, g1: Poly, q: Poly, r: Poly,
          prim: Poly)
    requires prim > 0 && g0 == Xor(Clmul(g1, q), r)
    requires Bezout(u0, a, v0, b, g0, prim) && Bezout(u1, a, v1, b, g1, prim)
    ensures Bezout(Xor(u0, MulMod(u1, q, prim)), a, Xor(v0, MulMod(v1, q, prim)), b, r, prim)
  {
    var e0 := Xor(Clmul(u0, a), Clmul(v0, b));
    var e1 := Xor(Clmul(u1, a), Clmul(v1, b));
    var e2 := Xor(Clmul(MulMod(u1, q, prim), a), Clmul(MulMod(v1, q, prim), b));
    ScaledCofactor(u1, q, a, prim);
    ScaledCofactor(v1, q, b, prim);
    CongruentXor(Clmul(MulMod(u1, q, prim), a), Clmul(Clmul(u1, a), q),
                 Clmul(MulMod(v1, q, prim), b), Clmul(Clmul(v1, b), q), prim);
    ClmulXorLeft(Clmul(u1, a), Clmul(v1, b), q);
    assert Congruent(e2, Clmul(e1, q), prim);
    CongruentClmul(e1, g1, q, prim);
    CongruentTrans(e2, Clmul(e1, q), Clmul(g1, q), prim);
    CongruentXor(e0, g0, e2, Clmul(g1, q), prim);
    XorComm(Clmul(g1, q), r); XorCancel(r, Clmul(g1, q), 0);
    assert Xor(g0, Clmul(g1, q)) == r;
    ClmulXorLeft(u0, MulMod(u1, q, prim), a);
    ClmulXorLeft(v0, MulMod(v1, q, prim), b);
    XorSwap(Clmul(u0, a), Clmul(v0, b), Clmul(MulMod(u1, q, prim), a), Clmul(MulMod(v1, q, prim), b));
  }

  lemma ScaledCofactor(u: Poly, q: Poly, a: Poly, prim: Poly)
    requires prim > 0
    ensures Congruent(Clmul(MulMod(u, q, prim), a), Clmul(Clmul(u, a), q), prim)
  {
    RemCongruent(Clmul(u, q), prim);
    CongruentSym(Clmul(u, q), MulMod(u, q, prim), prim);
    CongruentClmul(MulMod(u, q, prim), Clmul(u, q), a, prim);
    ClmulAssoc(u, q, a); ClmulComm(q, a); ClmulAssoc(u, a, q);
  }

  class GaloisField {
    const n: nat
    const prim: uint64

    ghost predicate Valid() {
      1 <= n <= 32 && Len(prim) == n + 1
    }

    constructor (arg_n: nat)
      requires 1 <= arg_n <= 32
      ensures n == arg_n && prim == PrimTable(arg_n) && Valid()
    {
      n := arg_n;
      prim := PrimTable(arg_n);
    }

    /** Any two words may be multiplied; the result is the field product when the first
        operand is reduced.  An unreduced one comes back unreduced from a product by 1. */
    method Mul(a: uint64, b: uint64) returns (r: uint64)
      requires Valid()
      ensures a < Pow2(n) ==> r == MulMod(a, b, prim) && r < Pow2(n)
      ensures b == 1 ==> r == a
    {
      var p: uint64, rest: uint64 := a, b;
      r := 0;
      LenPow2(a, n);
      if a < Pow2(n) { MulStart(a, b, prim); }
      while rest != 0
        invariant a < Pow2(n) ==> MulInvariant(r, p, rest, Clmul(a, b), prim)
        invariant b == 1 ==> if rest == 1 then r == 0 && p == a else rest == 0 && r == a
        decreases rest
      {
        if a < Pow2(n) { MulStep(r, p, rest, Clmul(a, b), n, prim); }
        XorZero(p);
        if rest % 2 == 1 { r := XorWord(r, p); }
        rest := rest / 2;
        p := Double(p);
        if Bit(p, n) { p := XorWord(p, prim); }
      }
      if a < Pow2(n) {
        MulDone(r, p, a, b, prim);
        LenPow2(r, n);
      }
    }

    /** Counts the bits of a, as the opening loops of LongDiv do. */
    method BitLength(a: uint64) returns (len: nat)
      requires a < TWO_TO_THE_63
      ensures len == Len(a) <= 63
    {
      WordLen(a);
      len := 0;
      while ShiftLeft(1, len) <= a
        invariant len <= Len(a)
        decreases 64 - len
      {
        OneShifted(len);
        LenPow2(a, len);
        len := len + 1;
      }
      OneShifted(len);
      LenPow2(a, len);
    }

    /** One turn of long division: another quotient bit, and the leading term of r cancelled
        when it stands at position i above the divisor. */
    method CancelLeading(ghost a: Poly, b: uint64, q: uint64, r: uint64, i: nat, blen: nat)
      returns (q': uint64, r': uint64)
      requires 0 < b && a < TWO_TO_THE_63 && Len(b) == blen + 1 && DivInvariant(a, b, q, r, i)
      ensures DivInvariant(a, b, q', r', i - 1)
    {
      hide Xor, Clmul, Shl, Bit;
      DivIteration(a, b, q, r, i);
      WordLen(q);
      WordLen(a);
      q', r' := Double(q), r;
      if Bit(r, blen + i) {
        r' := XorWord(r, ShiftLeft(b, i));
        q' := q' + 1;
      }
    }

    /** Long division.  The dividend and divisor must stay below 2^63: the opening loops
        would otherwise shift a 64-bit word by 64. */
    method LongDiv(a: uint64, b: uint64) returns (q: uint64, r: uint64)
      requires b != 0 && a < TWO_TO_THE_63 && b < TWO_TO_THE_63
      ensures a == Xor(Clmul(b, q), r) && Len(r) < Len(b)
      ensures forall q': Poly, r': Poly :: a == Xor(Clmul(b, q'), r') && Len(r') < Len(b) ==> q == q' && r == r'
    {
      var alen: int := BitLength(a);
      var blen: int := BitLength(b);
      alen, blen := alen - 1, blen - 1;
      q, r := 0, a;
      var i := alen - blen;
      if i >= -1 { DivStart(a, b); } else { NoQuotient(a, b); }
      while i >= 0
        invariant i >= -1 ==> DivInvariant(a, b, q, r, i)
        invariant i < -1 ==> a == Xor(Clmul(b, q), r) && Len(r) < Len(b)
      {
        q, r := CancelLeading(a, b, q, r, i, blen);
        i := i - 1;
      }
      if i == -1 { DivDone(a, b, q, r); }
      OnlyDivision(a, b, q, r);
    }

    method Div(a: uint64, b: uint64) returns (q: uint64)
      requires b != 0 && a < TWO_TO_THE_63 && b < TWO_TO_THE_63
      ensures a == Xor(Clmul(b, q), Rem(a, b))
    {
      var r;
      q, r := LongDiv(a, b);
      QuotientRemainder(a, b, q, r);
    }

    method Mod(a: uint64, b: uint64) returns (r: uint64)
      requires b != 0 && a < TWO_TO_THE_63 && b < TWO_TO_THE_63
      ensures r == Rem(a, b)
    {
      var q;
      q, r := LongDiv(a, b);
      QuotientRemainder(a, b, q, r);
    }

    /** g is the greatest common divisor of a and b, and u, v are reduced cofactors of it in
        the field. */
    method ExtendedEuclid(a: uint64, b: uint64) returns (g: uint64, u: uint64, v: uint64)
      requires Valid() && a < TWO_TO_THE_63 && b < TWO_TO_THE_63
      ensures IsGcd(g, a, b)
      ensures u < Pow2(n) && v < Pow2(n)
      ensures Xor(MulMod(u, a, prim), MulMod(v, b, prim)) == Rem(g, prim)
    {
      var g0: uint64, g1: uint64 := a, b;
      var u0: uint64, u1: uint64 := 1, 0;
      var v0: uint64, v1: uint64 := 0, 1;
      BezoutStart(a, b, prim);
      while g1 != 0
        invariant g0 < TWO_TO_THE_63 && g1 < TWO_TO_THE_63
        invariant Len(u0) <= n && Len(u1) <= n && Len(v0) <= n && Len(v1) <= n
        invariant Bezout(u0, a, v0, b, g0, prim) && Bezout(u1, a, v1, b, g1, prim)
        invariant forall d: Poly :: CommonDivisor(d, g0, g1) <==> CommonDivisor(d, a, b)
        decreases Len(g1)
      {
        var q, r := LongDiv(g0, g1);
        GcdStep(g0, g1, q, r);
        BezoutStep(u0, u1, v0, v1, a, b, g0, g1, q, r, prim);
        LenPow2(u1, n);
        LenPow2(v1, n);
        WordLen(g1);
        WordLen(r);
        g0, g1 := g1, r;
        var uq := Mul(u1, q);
        var vq := Mul(v1, q);
        LenXor(u0, uq, n);
        LenXor(v0, vq, n);
        u0, u1 := u1, XorWord(u0, uq);
        v0, v1 := v1, XorWord(v0, vq);
      }
      g, u, v := g0, u0, v0;
      GcdDone(g, a, b);
      LenPow2(u, n);
      LenPow2(v, n);
      BezoutDone(u, a, v, b, g, prim);
    }

    /** The inverse of a, which may be any word below 2^63: it is an inverse exactly when a
        shares no factor with the field polynomial. */
    method Inv(a: uint64) returns (u: uint64)
      requires Valid() && a < TWO_TO_THE_63
      ensures u < Pow2(n)
      ensures MulMod(u, a, prim) == 1 <==> Coprime(a, prim)
    {
      var g, v;
      WordLen(prim);
      g, u, v := ExtendedEuclid(a, prim);
      InverseByBezout(g, u, v, a, prim);
    }
  }

  lemma OneShifted(k: nat)
    requires k <= 63
    ensures ShiftLeft(1, k) == Pow2(k)
  {
    assert Len(1) == 1;
    OneShl(k);
  }

  lemma {:induction false} OneShl(k: nat)
    ensures Shl(1, k) == Pow2(k)
  {
    if k > 0 { OneShl(k - 1); }
  }

  lemma QuotientRemainder(a: Poly, b: Poly, q: Poly, r: Poly)
    requires a == Xor(Clmul(b, q), r) && Len(r) < Len(b)
    ensures r == Rem(a, b)
  {
    XorCancel(Clmul(b, q), r, 0);
    RemUnique(a, r, b);
  }

  lemma BezoutStart(a: Poly, b: Poly, prim: Poly)
    ensures Bezout(1, a, 0, b, a, prim) && Bezout(0, a, 1, b, b, prim)
  {
    ClmulOne(a); ClmulOne(b); ClmulZero(a); ClmulZero(b);
    XorZero(a); XorZero(b);
    CongruentRefl(a, prim); CongruentRefl(b, prim);
  }

  lemma GcdDone(g: Poly, a: Poly, b: Poly)
    requires forall d: Poly :: CommonDivisor(d, g, 0) <==> CommonDivisor(d, a, b)
    ensures IsGcd(g, a, b)
  {
    DividesSelf(g);
    assert CommonDivisor(g, g, 0);
    forall d: Poly | CommonDivisor(d, a, b) ensures Divides(d, g) {
      assert CommonDivisor(d, g, 0);
    }
  }

  lemma BezoutDone(u: Poly, a: Poly, v: Poly, b: Poly, g: Poly, prim: Poly)
    requires prim > 0 && Bezout(u, a, v, b, g, prim)
    ensures Xor(MulMod(u, a, prim), MulMod(v, b, prim)) == Rem(g, prim)
  {
    RemEqual(Xor(Clmul(u, a), Clmul(v, b)), g, prim);
    RemXor(Clmul(u, a), Clmul(v, b), prim);
  }

  lemma InverseByBezout(g: Poly, u: Poly, v: Poly, a: Poly, prim: Poly)
    requires Len(prim) >= 2 && IsGcd(g, a, prim)
    requires Xor(MulMod(u, a, prim), MulMod(v, prim, prim)) == Rem(g, prim)
    ensures MulMod(u, a, prim) == 1 <==> Coprime(a, prim)
  {
    if Coprime(a, prim) {
      assert g == 1;
      assert Len(1) == 1;
      MultipleIsZero(v, prim);
      XorZero(MulMod(u, a, prim));
    }
    if MulMod(u, a, prim) == 1 {
      InverseMeansCoprime(a, u, prim);
    }
  }

  lemma MultipleIsZero(v: Poly, prim: Poly)
    requires prim > 0
    ensures MulMod(v, prim, prim) == 0
  {
    DividesSelf(prim);
    DividesClmul(prim, prim, v);
    XorZero(Clmul(v, prim));
    RemUnique(Clmul(v, prim), 0, prim);
  }

  // ----- a table entry without a field -----

  /** The quotient of x^(3k+2) + x + 1 by x^2 + x + 1. */
  function QuotientBySeven(k: nat): nat {
    if k == 0 then 1 else 8 * QuotientBySeven(k - 1) + 5
  }

  lemma {:induction false} SevenDivides(k: nat)
    ensures Clmul(7, QuotientBySeven(k)) == 4 * Pow2(3 * k) + 3
  {
    if k == 0 {
      XorZero(7);
    } else {
      var q, m := QuotientBySeven(k - 1), Pow2(3 * (k - 1));
      SevenDivides(k - 1);
      SevenStep(q, m);
      Pow2Thrice(3 * (k - 1));
      hide Pow2, Clmul;
    }
  }

  lemma Pow2Thrice(j: nat)
    ensures Pow2(j + 3) == 8 * Pow2(j)
  {
    assert Pow2(j + 3) == 2 * Pow2(j + 2) && Pow2(j + 2) == 2 * Pow2(j + 1);
  }

  lemma SevenStep(q: nat, m: nat)
    requires Clmul(7, q) == 4 * m + 3
    ensures Clmul(7, 8 * q + 5) == 32 * m + 3
  {
    hide Clmul, Xor;
    SevenSums(m);
    ClmulBit(7, q, 1);
    ClmulBit(7, 2 * q + 1, 0);
    ClmulBit(7, 4 * q + 2, 1);
    XorZero(16 * m + 2);
  }

  /** One more bit of a factor. */
  lemma ClmulBit(a: Poly, b: Poly, i: nat)
    requires i < 2
    ensures Clmul(a, 2 * b + i) == Xor(if i == 1 then a else 0, 2 * Clmul(a, b))
  {
    assert (2 * b + i) / 2 == b && (2 * b + i) % 2 == i;
    if 2 * b + i == 0 { XorZero(0); }
  }

  lemma SevenSums(m: nat)
    ensures Xor(7, 8 * m + 6) == 8 * m + 1 && Xor(7, 32 * m + 4) == 32 * m + 3
  {
    hide Xor;
    XorZero(m);
    XorZero(4 * m);
    XorLow(0, m, 1, 1);
    XorLow(1, 2 * m + 1, 1, 1);
    XorLow(3, 4 * m + 3, 1, 0);
    XorLow(0, 4 * m, 1, 1);
    XorLow(1, 8 * m + 1, 1, 0);
    XorLow(3, 16 * m + 2, 1, 0);
  }

  /** The polynomial that the table gives for n = 29 is a multiple of x^2 + x + 1, so that
      GaloisField(29) is not a field: 7 has no inverse in it. */
  lemma NoField29()
    ensures Divides(7, PrimTable(29)) && !Coprime(7, PrimTable(29))
    ensures forall u: Poly :: MulMod(u, 7, PrimTable(29)) != 1
  {
    hide MulMod, Clmul;
    SevenDivides(9);
    assert Pow2(29) == 2 * Pow2(28) == 4 * Pow2(27);
    assert PrimTable(29) == Pow2(29) + 3;
    DividesSelf(7);
    hide PrimTable, Pow2;
    assert Divides(7, PrimTable(29));
    assert CommonDivisor(7, 7, PrimTable(29));
    forall u: Poly | MulMod(u, 7, PrimTable(29)) == 1 ensures false {
      InverseMeansCoprime(7, u, PrimTable(29));
    }
  }
}
