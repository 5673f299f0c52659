/** Which entries of primTable are irreducible.  Squaring modulo an entry is computed on bit vectors,
    by spreading the bits and folding back what stands above the degree; the solver then decides
    what Factoring asks, entry by entry. */
module FieldTable {
  import opened Gf2Poly
  import opened MachineWords
  import opened Field
  import opened Factoring
  import opened Bits

  // ----- squaring -----

  /** h with a zero between any two bits. */
  function Spread(h: bv64): bv64 {
    var a := (h | (h << 16)) & 0x0000_FFFF_0000_FFFF;
    var b := (a | (a << 8)) & 0x00FF_00FF_00FF_00FF;
    var c := (b | (b << 4)) & 0x0F0F_0F0F_0F0F_0F0F;
    var d := (c | (c << 2)) & 0x3333_3333_3333_3333;
    (d | (d << 1)) & 0x5555_5555_5555_5555
  }

  function Low(h: bv64): bv64 {
    h & 1
  }

  lemma SpreadStep(h: bv64)
    requires h < 0x1_0000_0000
    ensures var s := Spread(Half(h));
            Half(h) < 0x1_0000_0000 && Fits(s) && Fits(Twice(s)) && Spread(h) == Plus(Twice(Twice(s)), Low(h))
  {
  }

  lemma LowIsBit(h: bv64)
    ensures Low(h) <= 1 && LowBit(h) == if Low(h) == 1 then 1 else 0
    ensures Spread(0) == 0
  {
  }

  /** Squaring a polynomial spreads its coefficients. */
  lemma {:induction false} SpreadSquare(h: bv64)
    requires h < 0x1_0000_0000
    ensures Val(Spread(h)) == Clmul(Val(h), Val(h))
    decreases h
  {
    hide *;
    LowIsBit(h);
    if h == 0 {
      ValZero(0);
      ClmulZero(0);
    } else {
      HalfFalls(h);
      SpreadStep(h);
      SpreadSquare(Half(h));
      var s := Spread(Half(h));
      ValTwice(s);
      PlusLow(Twice(s), Low(h));
      ValParts(Spread(h));
      ValParts(h);
      SquareBit(Val(Half(h)), LowBit(h));
    }
  }

  lemma HalfFalls(h: bv64)
    ensures h != 0 ==> Half(h) < h
  {
  }

  lemma SquareBit(a: Poly, low: nat)
    requires low < 2
    ensures Clmul(low + 2 * a, low + 2 * a) == low + 4 * Clmul(a, a)
  {
    hide Clmul, Xor;
    SquareLow(low);
    var b := 2 * a;
    XorDouble(low, a);
    ClmulXorLeft(low, b, Xor(low, b));
    ClmulXorRight(low, low, b);
    ClmulXorRight(b, low, b);
    ClmulComm(low, b);
    XorCancel(Clmul(low, low), Clmul(low, b), Clmul(b, b));
    ClmulDouble(a, b);
    ClmulDouble(a, a);
    XorDouble(low, 2 * Clmul(a, a));
  }

  lemma SquareLow(low: nat)
    requires low < 2
    ensures Clmul(low, low) == low
  {
    ClmulOne(1);
  }

  lemma ValSame(x: bv64, y: bv64)
    requires Val(x) == Val(y)
    ensures x == y
  {
    hide *;
    ValPlus(x, y);
    XorSelf(Val(x));
    ValNone(Plus(x, y));
    PlusNone(x, y);
  }

  lemma ValNone(x: bv64)
    requires Val(x) == 0
    ensures x == 0
  {
    if x != 0 { ValFalls(x); }
  }

  lemma PlusNone(x: bv64, y: bv64)
    ensures Plus(x, y) == 0 ==> x == y
  {
  }

  // ----- folding -----

  // Exclusive or, spelled out so that the solver does not rearrange the terms.
  function Mix4(s: bv64, t: bv64, x: bv64, w: bv64): bv64 {
    ((s ^ w) | (t ^ x)) & !((s ^ w) & (t ^ x))
  }

  function Mix6(s: bv64, t: bv64, x: bv64, y: bv64, z: bv64, w: bv64): bv64 {
    ((s ^ w ^ x) | (y ^ z ^ t)) & !((s ^ w ^ x) & (y ^ z ^ t))
  }

  /** What stands above degree n is replaced with what the polynomial x^n + x^a + 1 makes of it. */
  function Fold3(s: bv64, n: bv64, a: bv64): bv64
    requires n <= 32 && a <= 32
  {
    Mix4(s, s >> n, (s >> n) << a, (s >> n) << n)
  }

  /** The same for x^n + x^c + x^b + x^a + 1. */
  function Fold5(s: bv64, n: bv64, a: bv64, b: bv64, c: bv64): bv64
    requires n <= 32 && a <= 32 && b <= 32 && c <= 32
  {
    Mix6(s, s >> n, (s >> n) << a, (s >> n) << b, (s >> n) << c, (s >> n) << n)
  }

  predicate Small(s: bv64, n: bv64)
    requires n <= 32
  {
    s >> n < 0x8000_0000
  }

  /** r, which stands for the square of h, is reduced and tells what is asked of it. */
  predicate Tells(h: bv64, r: bv64, n: bv64)
    requires n <= 32
  {
    Below(r, n) && (r == h ==> h <= 1) && (r == 0 ==> h == 0)
  }

  predicate Passes3(h: bv64, n: bv64, a: bv64)
    requires n <= 32 && a <= 32
  {
    var s := Spread(h);
    var r := Fold3(s, n, a);
    Small(s, n) && Small(r, n) && Tells(h, Fold3(r, n, a), n)
  }

  /** Two folds are enough for most polynomials of five terms, and four for the others. */
  predicate Passes5(h: bv64, n: bv64, a: bv64, b: bv64, c: bv64, more: bool)
    requires n <= 32 && a <= 32 && b <= 32 && c <= 32
  {
    var s := Spread(h);
    var r := Fold5(s, n, a, b, c);
    var u := Fold5(r, n, a, b, c);
    && Small(s, n) && Small(r, n)
    && if more then
         var v := Fold5(u, n, a, b, c);
         Small(u, n) && Small(v, n) && Tells(h, Fold5(v, n, a, b, c), n)
       else Tells(h, u, n)
  }

  // ----- the polynomials -----

  function Three(n: nat, a: nat): Poly {
    1 + Pow2(a) + Pow2(n)
  }

  function Five(n: nat, a: nat, b: nat, c: nat): Poly {
    1 + Pow2(a) + Pow2(b) + Pow2(c) + Pow2(n)
  }

  /** One more term on top. */
  lemma AddTerm(low: Poly, k: nat, n: nat)
    requires low < Pow2(k) && k <= n
    ensures Xor(low, Shl(1, n)) == low + Pow2(n) < Pow2(n + 1)
  {
    hide Xor;
    Pow2Monotone(k, n);
    OneShl(n);
    XorJoin(low, 1, n);
  }

  lemma NextTerm(t: Poly, low: Poly, k: nat, n: nat)
    requires low < Pow2(k) && k <= n
    ensures Xor(Clmul(t, low), Shl(t, n)) == Clmul(t, low + Pow2(n)) && low + Pow2(n) < Pow2(n + 1)
  {
    hide Xor, Clmul, Pow2, Shl;
    AddTerm(low, k, n);
    ClmulXorRight(t, low, Shl(1, n));
    ClmulShl(t, 1, n);
    ClmulOne(t);
  }

  lemma FirstTerm(t: Poly)
    ensures 1 < Pow2(1) && Clmul(t, 1) == t
  {
    ClmulOne(t);
  }

  lemma Terms3(t: Poly, n: nat, a: nat)
    requires 0 < a < n
    ensures Xor(Xor(t, Shl(t, a)), Shl(t, n)) == Clmul(t, Three(n, a))
  {
    hide Xor, Clmul, Pow2, Shl;
    FirstTerm(t);
    NextTerm(t, 1, 1, a);
    NextTerm(t, 1 + Pow2(a), a + 1, n);
  }

  lemma Terms5(t: Poly, n: nat, a: nat, b: nat, c: nat)
    requires 0 < a < b < c < n
    ensures Xor(Xor(Xor(Xor(t, Shl(t, a)), Shl(t, b)), Shl(t, c)), Shl(t, n)) == Clmul(t, Five(n, a, b, c))
  {
    hide Xor, Clmul, Pow2, Shl;
    FirstTerm(t);
    NextTerm(t, 1, 1, a);
    NextTerm(t, 1 + Pow2(a), a + 1, b);
    NextTerm(t, 1 + Pow2(a) + Pow2(b), b + 1, c);
    NextTerm(t, 1 + Pow2(a) + Pow2(b) + Pow2(c), c + 1, n);
  }

  /** Adding a multiple of p. */
  lemma SameClass(x: Poly, t: Poly, p: Poly)
    ensures Congruent(Xor(x, Clmul(t, p)), x, p)
  {
    hide Xor, Clmul;
    XorComm(x, Clmul(t, p));
    XorCancel(Clmul(t, p), x, 0);
    DividesSelf(p);
    DividesClmul(p, p, t);
  }

  lemma PlusIs(x: bv64, y: bv64)
    ensures Plus(x, y) == x ^ y
  {
  }

  lemma ValXor(x: bv64, y: bv64, m: bv64)
    requires m == x ^ y
    ensures Val(m) == Xor(Val(x), Val(y))
  {
    hide *;
    PlusIs(x, y);
    ValPlus(x, y);
  }

  lemma PlusThree(x: bv64, y: bv64, z: bv64)
    ensures Plus(Plus(x, y), z) == x ^ y ^ z
  {
  }

  lemma ValXor3(x: bv64, y: bv64, z: bv64, m: bv64)
    requires m == x ^ y ^ z
    ensures Val(m) == Xor(Xor(Val(x), Val(y)), Val(z))
  {
    hide *;
    PlusThree(x, y, z);
    ValPlus(x, y);
    ValPlus(Plus(x, y), z);
  }

  lemma MixIs4(s: bv64, t: bv64, x: bv64, w: bv64, p: bv64, q: bv64)
    requires p == s ^ w && q == t ^ x
    ensures Mix4(s, t, x, w) == p ^ q
  {
  }

  lemma MixIs6(s: bv64, t: bv64, x: bv64, y: bv64, z: bv64, w: bv64, p: bv64, q: bv64)
    requires p == s ^ w ^ x && q == y ^ z ^ t
    ensures Mix6(s, t, x, y, z, w) == p ^ q
  {
  }

  lemma ValMix4(s: bv64, t: bv64, x: bv64, w: bv64, p: bv64, q: bv64)
    requires p == s ^ w && q == t ^ x
    ensures Val(Mix4(s, t, x, w)) == Xor(Xor(Val(s), Val(w)), Xor(Val(t), Val(x)))
  {
    hide *;
    MixIs4(s, t, x, w, p, q);
    ValXor(s, w, p);
    ValXor(t, x, q);
    ValXor(p, q, Mix4(s, t, x, w));
  }

  lemma ValMix6(s: bv64, t: bv64, x: bv64, y: bv64, z: bv64, w: bv64, p: bv64, q: bv64)
    requires p == s ^ w ^ x && q == y ^ z ^ t
    ensures Val(Mix6(s, t, x, y, z, w)) == Xor(Xor(Xor(Val(s), Val(w)), Val(x)), Xor(Xor(Val(y), Val(z)), Val(t)))
  {
    hide *;
    MixIs6(s, t, x, y, z, w, p, q);
    ValXor3(s, w, x, p);
    ValXor3(y, z, t, q);
    ValXor(p, q, Mix6(s, t, x, y, z, w));
  }

  lemma ValShift(t: bv64, i: bv64, k: nat, r: bv64)
    requires t < 0x8000_0000 && i <= 32 && i as nat == k && r == t << i
    ensures Val(r) == Shl(Val(t), k)
  {
    UpIs(t, i, r);
    hide *;
    ValUp(t, i, k);
  }

  lemma UpIs(t: bv64, i: bv64, r: bv64)
    requires i <= 32 && r == t << i
    ensures Up(t, i) == r
  {
  }

  /** t times the polynomial is added to s. */
  function Add3(s: bv64, t: bv64, n: bv64, a: bv64): bv64
    requires n <= 32 && a <= 32
  {
    Mix4(s, t, t << a, t << n)
  }

  function Add5(s: bv64, t: bv64, n: bv64, a: bv64, b: bv64, c: bv64): bv64
    requires n <= 32 && a <= 32 && b <= 32 && c <= 32
  {
    Mix6(s, t, t << a, t << b, t << c, t << n)
  }

  lemma AddIs3(s: bv64, t: bv64, n: bv64, a: bv64, x: bv64, w: bv64)
    requires n <= 32 && a <= 32 && x == t << a && w == t << n
    ensures Add3(s, t, n, a) == Mix4(s, t, x, w)
  {
    hide Mix4;
  }

  lemma AddIs5(s: bv64, t: bv64, n: bv64, a: bv64, b: bv64, c: bv64, x: bv64, y: bv64, z: bv64, w: bv64)
    requires n <= 32 && a <= 32 && b <= 32 && c <= 32
    requires x == t << a && y == t << b && z == t << c && w == t << n
    ensures Add5(s, t, n, a, b, c) == Mix6(s, t, x, y, z, w)
  {
    hide Mix6;
  }

  lemma AddKeeps3(s: bv64, t: bv64, i: bv64, n: nat, j: bv64, a: nat)
    requires i <= 32 && j <= 32 && i as nat == n && j as nat == a && 0 < a < n && t < 0x8000_0000
    ensures Congruent(Val(Add3(s, t, i, j)), Val(s), Three(n, a))
  {
    var x, w := t << j, t << i;
    hide Add3, Mix4, Congruent, Val, Three, Shl;
    AddIs3(s, t, i, j, x, w);
    ValShift(t, j, a, x);
    ValShift(t, i, n, w);
    MixKeeps3(s, t, x, w, n, a);
  }

  lemma FoldIs3(s: bv64, n: bv64, a: bv64)
    requires n <= 32 && a <= 32
    ensures Fold3(s, n, a) == Add3(s, s >> n, n, a)
  {
    hide Mix4;
  }

  lemma FoldIs5(s: bv64, n: bv64, a: bv64, b: bv64, c: bv64)
    requires n <= 32 && a <= 32 && b <= 32 && c <= 32
    ensures Fold5(s, n, a, b, c) == Add5(s, s >> n, n, a, b, c)
  {
    hide Mix6;
  }

  /** A fold adds a multiple of the polynomial. */
  lemma FoldKeeps3(s: bv64, i: bv64, n: nat, j: bv64, a: nat)
    requires i <= 32 && j <= 32 && i as nat == n && j as nat == a && 0 < a < n && Small(s, i)
    ensures Congruent(Val(Fold3(s, i, j)), Val(s), Three(n, a))
  {
    hide Fold3, Add3, Congruent, Val, Three;
    FoldIs3(s, i, j);
    AddKeeps3(s, s >> i, i, n, j, a);
  }

  lemma MixKeeps3(s: bv64, t: bv64, x: bv64, w: bv64, n: nat, a: nat)
    requires 0 < a < n && Val(x) == Shl(Val(t), a) && Val(w) == Shl(Val(t), n)
    ensures Congruent(Val(Mix4(s, t, x, w)), Val(s), Three(n, a))
  {
    hide *;
    ValMix4(s, t, x, w, s ^ w, t ^ x);
    Terms3(Val(t), n, a);
    Regroup4(Val(s), Val(t), Val(x), Val(w));
    SameClass(Val(s), Val(t), Three(n, a));
  }

  lemma Regroup4(s: Poly, t: Poly, x: Poly, w: Poly)
    ensures Xor(Xor(s, w), Xor(t, x)) == Xor(s, Xor(Xor(t, x), w))
  {
    hide Xor;
    XorAssoc(s, w, Xor(t, x));
    XorComm(w, Xor(t, x));
  }

  lemma Regroup6(s: Poly, t: Poly, x: Poly, y: Poly, z: Poly, w: Poly)
    ensures Xor(Xor(Xor(s, w), x), Xor(Xor(y, z), t)) == Xor(s, Xor(Xor(Xor(Xor(t, x), y), z), w))
  {
    hide Xor;
    XorAssoc(s, w, x);
    XorAssoc(s, Xor(w, x), Xor(Xor(y, z), t));
    XorComm(Xor(y, z), t);
    XorComm(w, x);
    XorComm(Xor(x, w), Xor(t, Xor(y, z)));
    XorSwap(t, Xor(y, z), x, w);
    XorAssoc(Xor(t, x), y, z);
    XorAssoc(Xor(t, x), Xor(y, z), w);
  }

  lemma AddKeeps5(s: bv64, t: bv64, i: bv64, n: nat, j: bv64, a: nat, k: bv64, b: nat, l: bv64, c: nat)
    requires i <= 32 && j <= 32 && k <= 32 && l <= 32 && t < 0x8000_0000
    requires i as nat == n && j as nat == a && k as nat == b && l as nat == c && 0 < a < b < c < n
    ensures Congruent(Val(Add5(s, t, i, j, k, l)), Val(s), Five(n, a, b, c))
  {
    var x, y, z, w := t << j, t << k, t << l, t << i;
    hide Add5, Mix6, Congruent, Val, Five, Shl;
    AddIs5(s, t, i, j, k, l, x, y, z, w);
    ValShift(t, j, a, x);
    ValShift(t, k, b, y);
    ValShift(t, l, c, z);
    ValShift(t, i, n, w);
    MixKeeps5(s, t, x, y, z, w, n, a, b, c);
  }

  lemma FoldKeeps5(s: bv64, i: bv64, n: nat, j: bv64, a: nat, k: bv64, b: nat, l: bv64, c: nat)
    requires i <= 32 && j <= 32 && k <= 32 && l <= 32
    requires i as nat == n && j as nat == a && k as nat == b && l as nat == c && 0 < a < b < c < n && Small(s, i)
    ensures Congruent(Val(Fold5(s, i, j, k, l)), Val(s), Five(n, a, b, c))
  {
    hide Fold5, Add5, Congruent, Val, Five;
    FoldIs5(s, i, j, k, l);
    AddKeeps5(s, s >> i, i, n, j, a, k, b, l, c);
  }

  lemma MixKeeps5(s: bv64, t: bv64, x: bv64, y: bv64, z: bv64, w: bv64, n: nat, a: nat, b: nat, c: nat)
    requires 0 < a < b < c < n && Val(x) == Shl(Val(t), a) && Val(y) == Shl(Val(t), b)
    requires Val(z) == Shl(Val(t), c) && Val(w) == Shl(Val(t), n)
    ensures Congruent(Val(Mix6(s, t, x, y, z, w)), Val(s), Five(n, a, b, c))
  {
    hide *;
    ValMix6(s, t, x, y, z, w, s ^ w ^ x, y ^ z ^ t);
    Terms5(Val(t), n, a, b, c);
    Regroup6(Val(s), Val(t), Val(x), Val(y), Val(z), Val(w));
    SameClass(Val(s), Val(t), Five(n, a, b, c));
  }

  // ----- from bit vectors to polynomials -----

  lemma BelowIsSmall(h: bv64, i: bv64)
    requires i <= 32 && Below(h, i)
    ensures h < 0x1_0000_0000
  {
  }

  /** r is the square of h, reduced. */
  lemma SquareIs(h: bv64, r: bv64, i: bv64, n: nat, p: Poly)
    requires i <= 32 && i as nat == n && Len(p) == n + 1 && Below(h, i) && Tells(h, r, i)
    requires Congruent(Val(r), Val(Spread(h)), p)
    ensures MulMod(Val(h), Val(h), p) == Val(r)
    ensures SquareTells(Val(h), p)
  {
    hide Val, Spread, Clmul, Xor, Below, Rem;
    BelowIsSmall(h, i);
    SpreadSquare(h);
    ValBelow(r, i, n);
    CongruentSym(Val(r), Val(Spread(h)), p);
    RemUnique(Val(Spread(h)), Val(r), p);
    if Val(r) == Val(h) { ValSame(r, h); }
    ValZero(0);
    if Val(r) == 0 { ValSame(r, 0); }
    ValConstant(h);
  }

  lemma ValConstant(h: bv64)
    ensures h <= 1 ==> Val(h) <= 1
    ensures h == 0 ==> Val(h) == 0
  {
    if h == 1 { assert Half(h) == 0; }
  }

  function Folded3(h: bv64, i: bv64, j: bv64): bv64
    requires i <= 32 && j <= 32
  {
    var s := Spread(h);
    var r := Fold3(s, i, j);
    Fold3(r, i, j)
  }

  lemma AllFolds3(h: bv64, i: bv64, n: nat, j: bv64, a: nat)
    requires i <= 32 && j <= 32 && i as nat == n && j as nat == a && 0 < a < n && Passes3(h, i, j)
    ensures Tells(h, Folded3(h, i, j), i)
    ensures Congruent(Val(Folded3(h, i, j)), Val(Spread(h)), Three(n, a))
  {
    hide Congruent, Val, Spread, Three, Fold3, Tells, Small;
    var s := Spread(h);
    var r := Fold3(s, i, j);
    FoldKeeps3(s, i, n, j, a);
    FoldKeeps3(r, i, n, j, a);
    CongruentTrans(Val(Fold3(r, i, j)), Val(r), Val(s), Three(n, a));
  }

  function Twice5(s: bv64, i: bv64, j: bv64, k: bv64, l: bv64): bv64
    requires i <= 32 && j <= 32 && k <= 32 && l <= 32
  {
    var r := Fold5(s, i, j, k, l);
    Fold5(r, i, j, k, l)
  }

  lemma TwoFolds5(s: bv64, i: bv64, n: nat, j: bv64, a: nat, k: bv64, b: nat, l: bv64, c: nat)
    requires i <= 32 && j <= 32 && k <= 32 && l <= 32
    requires i as nat == n && j as nat == a && k as nat == b && l as nat == c && 0 < a < b < c < n
    requires Small(s, i) && Small(Fold5(s, i, j, k, l), i)
    ensures Congruent(Val(Twice5(s, i, j, k, l)), Val(s), Five(n, a, b, c))
  {
    hide Congruent, Val, Five, Fold5, Small;
    var r := Fold5(s, i, j, k, l);
    FoldKeeps5(s, i, n, j, a, k, b, l, c);
    FoldKeeps5(r, i, n, j, a, k, b, l, c);
    CongruentTrans(Val(Fold5(r, i, j, k, l)), Val(r), Val(s), Five(n, a, b, c));
  }

  function Folded5(h: bv64, i: bv64, j: bv64, k: bv64, l: bv64, more: bool): bv64
    requires i <= 32 && j <= 32 && k <= 32 && l <= 32
  {
    var u := Twice5(Spread(h), i, j, k, l);
    if more then Twice5(u, i, j, k, l) else u
  }

  lemma AllFolds5(h: bv64, i: bv64, n: nat, j: bv64, a: nat, k: bv64, b: nat, l: bv64, c: nat, more: bool)
    requires i <= 32 && j <= 32 && k <= 32 && l <= 32
    requires i as nat == n && j as nat == a && k as nat == b && l as nat == c && 0 < a < b < c < n
    requires Passes5(h, i, j, k, l, more)
    ensures Tells(h, Folded5(h, i, j, k, l, more), i)
    ensures Congruent(Val(Folded5(h, i, j, k, l, more)), Val(Spread(h)), Five(n, a, b, c))
  {
    hide Congruent, Val, Spread, Five, Fold5, Tells, Small;
    var u := Twice5(Spread(h), i, j, k, l);
    TwoFolds5(Spread(h), i, n, j, a, k, b, l, c);
    if more {
      TwoFolds5(u, i, n, j, a, k, b, l, c);
      CongruentTrans(Val(Folded5(h, i, j, k, l, more)), Val(u), Val(Spread(h)), Five(n, a, b, c));
    }
  }

  lemma Shape3(n: nat, a: nat)
    requires n <= 32 && PRIM_LOW[n] == 1 + Pow2(a)
    ensures PrimTable(n) == Three(n, a)
  {
    hide Pow2;
  }

  lemma Shape5(n: nat, a: nat, b: nat, c: nat)
    requires n <= 32 && PRIM_LOW[n] == 1 + Pow2(a) + Pow2(b) + Pow2(c)
    ensures PrimTable(n) == Five(n, a, b, c)
  {
    hide Pow2;
  }

  lemma FromBits3(i: bv64, n: nat, j: bv64, a: nat)
    requires i <= 32 && j <= 32 && i as nat == n && j as nat == a && 0 < a < n
    requires PRIM_LOW[n] == 1 + Pow2(a)
    requires forall h: bv64 :: Below(h, i) ==> Passes3(h, i, j)
    ensures Irreducible(PrimTable(n))
  {
    hide SquareTells, Three, Pow2, PrimTable, Below, Congruent, Val, Spread, Folded3, Tells, Passes3;
    var p := PrimTable(n);
    Shape3(n, a);
    forall x: Poly | Len(x) < Len(p) ensures SquareTells(x, p) {
      var h := BitsOf(x, i, n);
      AllFolds3(h, i, n, j, a);
      SquareIs(h, Folded3(h, i, j), i, n, p);
    }
    SquaresDecide(p);
  }

  lemma FromBits5(i: bv64, n: nat, j: bv64, a: nat, k: bv64, b: nat, l: bv64, c: nat, more: bool)
    requires i <= 32 && j <= 32 && k <= 32 && l <= 32
    requires i as nat == n && j as nat == a && k as nat == b && l as nat == c && 0 < a < b < c < n
    requires PRIM_LOW[n] == 1 + Pow2(a) + Pow2(b) + Pow2(c)
    requires forall h: bv64 :: Below(h, i) ==> Passes5(h, i, j, k, l, more)
    ensures Irreducible(PrimTable(n))
  {
    hide SquareTells, Five, Pow2, PrimTable, Below, Congruent, Val, Spread, Folded5, Tells, Passes5;
    var p := PrimTable(n);
    Shape5(n, a, b, c);
    forall x: Poly | Len(x) < Len(p) ensures SquareTells(x, p) {
      var h := BitsOf(x, i, n);
      AllFolds5(h, i, n, j, a, k, b, l, c, more);
      SquareIs(h, Folded5(h, i, j, k, l, more), i, n, p);
    }
    SquaresDecide(p);
  }

  // ----- the entries -----

  lemma Squares2()
    ensures forall h: bv64 :: Below(h, 2) ==> Passes3(h, 2, 1)
  {
  }

  lemma Squares3()
    ensures forall h: bv64 :: Below(h, 3) ==> Passes3(h, 3, 1)
  {
  }

  lemma Squares4()
    ensures forall h: bv64 :: Below(h, 4) ==> Passes3(h, 4, 1)
  {
  }

  lemma Squares5()
    ensures forall h: bv64 :: Below(h, 5) ==> Passes3(h, 5, 2)
  {
  }

  lemma Squares6()
    ensures forall h: bv64 :: Below(h, 6) ==> Passes3(h, 6, 1)
  {
  }

  lemma Squares7()
    ensures forall h: bv64 :: Below(h, 7) ==> Passes3(h, 7, 3)
  {
  }

  lemma Squares8()
    ensures forall h: bv64 :: Below(h, 8) ==> Passes5(h, 8, 2, 3, 4, false)
  {
  }

  lemma Squares9()
    ensures forall h: bv64 :: Below(h, 9) ==> Passes3(h, 9, 4)
  {
  }

  lemma Squares10()
    ensures forall h: bv64 :: Below(h, 10) ==> Passes3(h, 10, 3)
  {
  }

  lemma Squares11()
    ensures forall h: bv64 :: Below(h, 11) ==> Passes3(h, 11, 2)
  {
  }

  lemma Squares12()
    ensures forall h: bv64 :: Below(h, 12) ==> Passes5(h, 12, 1, 4, 6, false)
  {
  }

  lemma Squares13()
    ensures forall h: bv64 :: Below(h, 13) ==> Passes5(h, 13, 1, 3, 4, false)
  {
  }

  lemma Squares14()
    ensures forall h: bv64 :: Below(h, 14) ==> Passes5(h, 14, 1, 6, 10, true)
  {
  }

  lemma Squares15()
    ensures forall h: bv64 :: Below(h, 15) ==> Passes3(h, 15, 1)
  {
  }

  lemma Squares16()
    ensures forall h: bv64 :: Below(h, 16) ==> Passes5(h, 16, 1, 3, 12, true)
  {
  }

  lemma Squares17()
    ensures forall h: bv64 :: Below(h, 17) ==> Passes3(h, 17, 3)
  {
  }

  lemma Squares18()
    ensures forall h: bv64 :: Below(h, 18) ==> Passes3(h, 18, 7)
  {
  }

  lemma Squares19()
    ensures forall h: bv64 :: Below(h, 19) ==> Passes5(h, 19, 1, 2, 5, false)
  {
  }

  lemma Squares20()
    ensures forall h: bv64 :: Below(h, 20) ==> Passes3(h, 20, 3)
  {
  }

  lemma Squares21()
    ensures forall h: bv64 :: Below(h, 21) ==> Passes3(h, 21, 2)
  {
  }

  lemma Squares22()
    ensures forall h: bv64 :: Below(h, 22) ==> Passes3(h, 22, 1)
  {
  }

  lemma Squares23()
    ensures forall h: bv64 :: Below(h, 23) ==> Passes3(h, 23, 5)
  {
  }

  lemma Squares24()
    ensures forall h: bv64 :: Below(h, 24) ==> Passes5(h, 24, 1, 2, 7, false)
  {
  }

  lemma Squares25()
    ensures forall h: bv64 :: Below(h, 25) ==> Passes3(h, 25, 3)
  {
  }

  lemma Squares26()
    ensures forall h: bv64 :: Below(h, 26) ==> Passes5(h, 26, 1, 2, 6, false)
  {
  }

  lemma Squares27()
    ensures forall h: bv64 :: Below(h, 27) ==> Passes5(h, 27, 1, 2, 5, false)
  {
  }

  lemma Squares28()
    ensures forall h: bv64 :: Below(h, 28) ==> Passes3(h, 28, 3)
  {
  }

  lemma Squares30()
    ensures forall h: bv64 :: Below(h, 30) ==> Passes5(h, 30, 1, 4, 6, false)
  {
  }

  lemma Squares31()
    ensures forall h: bv64 :: Below(h, 31) ==> Passes3(h, 31, 3)
  {
  }

  lemma Squares32()
    ensures forall h: bv64 :: Below(h, 32) ==> Passes5(h, 32, 2, 6, 7, false)
  {
  }

  lemma Degree1()
    ensures Irreducible(PrimTable(1))
  {
    hide Clmul;
    assert Pow2(1) == 2 && PrimTable(1) == 3 && Len(3) == 2;
    forall d: Poly | Divides(d, 3) ensures d == 1 || d == 3 {
      var e: Poly :| Clmul(d, e) == 3;
      NotZero(d, e);
      LenClmul(d, e);
      if Len(d) == 1 { LenOne(d); } else { LenOne(e); ClmulOne(d); }
    }
  }

  lemma TapPowers()
    ensures Pow2(1) == 2 && Pow2(2) == 4 && Pow2(3) == 8 && Pow2(4) == 0x10 && Pow2(5) == 0x20
    ensures Pow2(6) == 0x40 && Pow2(7) == 0x80 && Pow2(10) == 0x400 && Pow2(12) == 0x1000
  {
    assert Pow2(6) == 4 * Pow2(4);
    assert Pow2(8) == 4 * Pow2(6);
    assert Pow2(10) == 4 * Pow2(8);
    assert Pow2(12) == 4 * Pow2(10);
  }

  // The entries without their leading terms, in groups that are quick to look up.

  lemma EntriesTo6()
    ensures PRIM_LOW[2] == 0x3 && PRIM_LOW[3] == 0x3 && PRIM_LOW[4] == 0x3 && PRIM_LOW[5] == 0x5 && PRIM_LOW[6] == 0x3
  {
  }

  lemma EntriesTo11()
    ensures PRIM_LOW[7] == 0x9 && PRIM_LOW[8] == 0x1D && PRIM_LOW[9] == 0x11 && PRIM_LOW[10] == 0x9
    ensures PRIM_LOW[11] == 0x5
  {
  }

  lemma EntriesTo16()
    ensures PRIM_LOW[12] == 0x53 && PRIM_LOW[13] == 0x1B && PRIM_LOW[14] == 0x443 && PRIM_LOW[15] == 0x3
    ensures PRIM_LOW[16] == 0x100B
  {
  }

  lemma EntriesTo32()
    ensures PRIM_LOW[17] == 0x9 && PRIM_LOW[18] == 0x81 && PRIM_LOW[19] == 0x27 && PRIM_LOW[20] == 0x9
    ensures PRIM_LOW[21] == 0x5
    ensures PRIM_LOW[22] == 0x3 && PRIM_LOW[23] == 0x21 && PRIM_LOW[24] == 0x87 && PRIM_LOW[25] == 0x9
    ensures PRIM_LOW[26] == 0x47
    ensures PRIM_LOW[27] == 0x27 && PRIM_LOW[28] == 0x9 && PRIM_LOW[30] == 0x53 && PRIM_LOW[31] == 0x9
    ensures PRIM_LOW[32] == 0xC5
  {
  }

  /** The entries of three terms. */
  lemma ThreeTerms(n: nat)
    requires n in {2, 3, 4, 5, 6, 7, 9, 10, 11, 15, 17, 18, 20, 21, 22, 23, 25, 28, 31}
    ensures Irreducible(PrimTable(n))
  {
    hide *;
    TapPowers();
    EntriesTo6();
    EntriesTo11();
    EntriesTo16();
    EntriesTo32();
    match n
    case 2 => Squares2(); FromBits3(2, 2, 1, 1);
    case 3 => Squares3(); FromBits3(3, 3, 1, 1);
    case 4 => Squares4(); FromBits3(4, 4, 1, 1);
    case 5 => Squares5(); FromBits3(5, 5, 2, 2);
    case 6 => Squares6(); FromBits3(6, 6, 1, 1);
    case 7 => Squares7(); FromBits3(7, 7, 3, 3);
    case 9 => Squares9(); FromBits3(9, 9, 4, 4);
    case 10 => Squares10(); FromBits3(10, 10, 3, 3);
    case 11 => Squares11(); FromBits3(11, 11, 2, 2);
    case 15 => Squares15(); FromBits3(15, 15, 1, 1);
    case 17 => Squares17(); FromBits3(17, 17, 3, 3);
    case 18 => Squares18(); FromBits3(18, 18, 7, 7);
    case 20 => Squares20(); FromBits3(20, 20, 3, 3);
    case 21 => Squares21(); FromBits3(21, 21, 2, 2);
    case 22 => Squares22(); FromBits3(22, 22, 1, 1);
    case 23 => Squares23(); FromBits3(23, 23, 5, 5);
    case 25 => Squares25(); FromBits3(25, 25, 3, 3);
    case 28 => Squares28(); FromBits3(28, 28, 3, 3);
    case 31 => Squares31(); FromBits3(31, 31, 3, 3);
  }

  /** The entries of five terms. */
  lemma FiveTerms(n: nat)
    requires n in {8, 12, 13, 14, 16, 19, 24, 26, 27, 30, 32}
    ensures Irreducible(PrimTable(n))
  {
    hide *;
    TapPowers();
    EntriesTo6();
    EntriesTo11();
    EntriesTo16();
    EntriesTo32();
    match n
    case 8 => Squares8(); FromBits5(8, 8, 2, 2, 3, 3, 4, 4, false);
    case 12 => Squares12(); FromBits5(12, 12, 1, 1, 4, 4, 6, 6, false);
    case 13 => Squares13(); FromBits5(13, 13, 1, 1, 3, 3, 4, 4, false);
    case 14 => Squares14(); FromBits5(14, 14, 1, 1, 6, 6, 10, 10, true);
    case 16 => Squares16(); FromBits5(16, 16, 1, 1, 3, 3, 12, 12, true);
    case 19 => Squares19(); FromBits5(19, 19, 1, 1, 2, 2, 5, 5, false);
    case 24 => Squares24(); FromBits5(24, 24, 1, 1, 2, 2, 7, 7, false);
    case 26 => Squares26(); FromBits5(26, 26, 1, 1, 2, 2, 6, 6, false);
    case 27 => Squares27(); FromBits5(27, 27, 1, 1, 2, 2, 5, 5, false);
    case 30 => Squares30(); FromBits5(30, 30, 1, 1, 4, 4, 6, 6, false);
    case 32 => Squares32(); FromBits5(32, 32, 2, 2, 6, 6, 7, 7, false);
  }

  /** The entries of the table are irreducible, but for the one of degree 29. */
  lemma IrreducibleIff(n: nat)
    requires 1 <= n <= 32
    ensures Irreducible(PrimTable(n)) <==> n != 29
  {
    hide Irreducible;
    if n == 1 {
      Degree1();
    } else if n == 29 {
      Reducible29();
    } else if n in {8, 12, 13, 14, 16, 19, 24, 26, 27, 30, 32} {
      FiveTerms(n);
    } else {
      ThreeTerms(n);
    }
  }

  lemma Reducible29()
    ensures !Irreducible(PrimTable(29))
  {
    hide Divides, Coprime;
    NoField29();
    assert Len(7) == 3;
  }

  /** So galoisField(n) is a field, in which every element but 0 has an inverse, exactly for n other
      than 29. */
  lemma FieldUnless29(n: nat)
    requires 1 <= n <= 32
    ensures n != 29 <==> forall a: Poly :: 0 < a && Len(a) <= n ==> Coprime(a, PrimTable(n))
  {
    hide Coprime, Irreducible;
    IrreducibleIff(n);
    FieldIff(PrimTable(n));
  }

  /** Then one division tells whether a word, reduced or not, has an inverse. */
  lemma InvertibleIff(c: Poly, n: nat)
    requires 1 <= n <= 32 && n != 29
    ensures Coprime(c, PrimTable(n)) <==> Rem(c, PrimTable(n)) != 0
  {
    IrreducibleIff(n);
    hide Coprime, Irreducible, Rem;
    CoprimeIff(c, PrimTable(n));
  }
}
