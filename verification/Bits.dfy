/** Bit vectors as polynomials: what the solver can compute on 64 bits, said of Gf2Poly. */
module Bits {
  import opened Gf2Poly

  /** The polynomial that the bits of x stand for. */
  function Val(x: bv64): nat
    decreases x
  {
    if x == 0 then 0 else LowBit(x) + 2 * Val(Half(x))
  }

  function LowBit(x: bv64): (i: nat)
    ensures i < 2
  {
    if x & 1 == 1 then 1 else 0
  }

  function Half(x: bv64): (h: bv64)
    ensures x != 0 ==> h < x
    ensures x == 0 ==> h == 0
  {
    x >> 1
  }

  function Twice(x: bv64): bv64 {
    x << 1
  }

  function Plus(x: bv64, y: bv64): bv64 {
    x ^ y
  }

  lemma ValParts(x: bv64)
    ensures Val(x) == LowBit(x) + 2 * Val(Half(x))
  {
    hide Half;
    if x == 0 { assert LowBit(x) == 0; }
  }

  lemma PlusParts(x: bv64, y: bv64)
    ensures Half(Plus(x, y)) == Plus(Half(x), Half(y))
    ensures LowBit(Plus(x, y)) == BitSum(LowBit(x), LowBit(y))
    ensures x == 0 ==> Plus(x, y) == y
  {
  }

  lemma ValZero(y: bv64)
    ensures Val(0) == 0 && Plus(0, y) == y
  {
  }

  /** The sum of x and y, from the sum of their halves. */
  lemma PlusUp(x: bv64, y: bv64)
    requires Val(Plus(Half(x), Half(y))) == Xor(Val(Half(x)), Val(Half(y)))
    ensures Val(Plus(x, y)) == Xor(Val(x), Val(y))
  {
    hide *;
    PlusParts(x, y);
    ValParts(x);
    ValParts(y);
    ValParts(Plus(x, y));
    XorLow(Val(Half(x)), Val(Half(y)), LowBit(x), LowBit(y));
  }

  lemma HalfLeft(x: bv64)
    ensures x != 0 && LowBit(x) == 0 ==> Half(x) != 0
  {
  }

  lemma {:induction false} ValFalls(x: bv64)
    requires x != 0
    ensures Val(Half(x)) < Val(x)
    decreases x
  {
    HalfLeft(x);
    if LowBit(x) == 0 { ValFalls(Half(x)); }
  }

  lemma {:induction false} ValPlus(x: bv64, y: bv64)
    ensures Val(Plus(x, y)) == Xor(Val(x), Val(y))
    decreases Val(x)
  {
    hide *;
    if x == 0 {
      ValZero(y);
      XorZero(Val(y));
    } else {
      ValFalls(x);
      ValPlus(Half(x), Half(y));
      PlusUp(x, y);
    }
  }

  // ----- shifts -----

  predicate Fits(y: bv64) {
    y < 0x8000_0000_0000_0000
  }

  lemma TwiceParts(y: bv64)
    requires Fits(y)
    ensures LowBit(Twice(y)) == 0 && Half(Twice(y)) == y
  {
  }

  lemma ValTwice(y: bv64)
    requires Fits(y)
    ensures Val(Twice(y)) == 2 * Val(y)
  {
    hide *;
    TwiceParts(y);
    ValParts(Twice(y));
  }

  function Up(t: bv64, i: bv64): bv64
    requires i <= 32
  {
    t << i
  }

  lemma UpFits(t: bv64, i: bv64)
    requires t < 0x8000_0000 && i < 32
    ensures Fits(Up(t, i))
  {
  }

  lemma UpByte(t: bv64, i: bv64)
    requires 0 < i <= 8
    ensures Up(t, i) == Twice(Up(t, i - 1))
  {
  }

  lemma UpShort(t: bv64, i: bv64)
    requires 8 < i <= 16
    ensures Up(t, i) == Twice(Up(t, i - 1))
  {
  }

  lemma UpLong(t: bv64, i: bv64)
    requires 16 < i <= 24
    ensures Up(t, i) == Twice(Up(t, i - 1))
  {
  }

  lemma UpWord(t: bv64, i: bv64)
    requires 24 < i <= 32
    ensures Up(t, i) == Twice(Up(t, i - 1))
  {
  }

  lemma OneLess(i: bv64)
    requires i <= 32
    ensures i > 0 ==> (i - 1) as nat == i as nat - 1
    ensures i as nat > 0 ==> i > 0
  {
  }

  lemma UpNone(t: bv64, i: bv64)
    requires i <= 32 && i as nat == 0
    ensures Up(t, i) == t
  {
  }

  /** A shift by i, which as a number is k. */
  lemma {:induction false} ValUp(t: bv64, i: bv64, k: nat)
    requires t < 0x8000_0000 && i <= 32 && i as nat == k
    ensures Val(Up(t, i)) == Shl(Val(t), k)
    decreases k
  {
    hide Val, Up, Twice, Fits;
    OneLess(i);
    if k == 0 {
      UpNone(t, i);
    } else {
      ValUp(t, i - 1, k - 1);
      UpFits(t, i - 1);
      ValTwice(Up(t, i - 1));
      if i <= 8 {
        UpByte(t, i);
      } else if i <= 16 {
        UpShort(t, i);
      } else if i <= 24 {
        UpLong(t, i);
      } else {
        UpWord(t, i);
      }
    }
  }

  // ----- numbers below a power of two -----

  predicate Below(y: bv64, i: bv64)
    requires i <= 32
  {
    y < 1 << i
  }

  lemma BelowHalf(y: bv64, i: bv64)
    requires 0 < i <= 32 && Below(y, i)
    ensures Below(Half(y), i - 1)
  {
  }

  lemma BelowNone(y: bv64, i: bv64)
    requires i <= 32 && i as nat == 0
    ensures (Below(y, i) ==> y == 0) && Below(0, i)
  {
  }

  lemma {:induction false} ValBelow(y: bv64, i: bv64, k: nat)
    requires i <= 32 && i as nat == k && Below(y, i)
    ensures Len(Val(y)) <= k
    decreases k
  {
    hide Below, Half;
    OneLess(i);
    if k == 0 {
      BelowNone(y, i);
    } else {
      BelowHalf(y, i);
      ValBelow(Half(y), i - 1, k - 1);
      ValParts(y);
      hide Val, LowBit;
      LenParts(Val(y), LowBit(y), Val(Half(y)));
    }
  }

  lemma LenParts(a: Poly, low: nat, rest: Poly)
    requires low < 2 && a == low + 2 * rest
    ensures Len(a) <= Len(rest) + 1 && a / 2 == rest && a % 2 == low
  {
  }

  lemma BelowUp(y: bv64, i: bv64, low: bv64)
    requires 0 < i <= 32 && Below(y, i - 1) && low <= 1
    ensures Below(Plus(Twice(y), low), i) && Fits(y)
  {
  }

  lemma PlusLow(y: bv64, low: bv64)
    requires Fits(y) && low <= 1
    ensures Half(Plus(Twice(y), low)) == y && LowBit(Plus(Twice(y), low)) == if low == 1 then 1 else 0
  {
  }

  /** Every polynomial of fewer than 33 terms is the value of a bit vector. */
  lemma {:induction false} BitsOf(a: Poly, i: bv64, k: nat) returns (y: bv64)
    requires i <= 32 && i as nat == k && Len(a) <= k
    ensures Below(y, i) && Val(y) == a
    decreases k
  {
    OneLess(i);
    if k == 0 {
      y := 0;
      BelowNone(0, i);
    } else {
      var half := BitsOf(a / 2, i - 1, k - 1);
      var low: bv64 := if a % 2 == 1 then 1 else 0;
      hide Val, Below, Half, Twice, Plus, LowBit, Fits;
      BelowUp(half, i, low);
      PlusLow(half, low);
      y := Plus(Twice(half), low);
      ValParts(y);
    }
  }

  // ----- literals -----

  /** The four lowest bits as a number. */
  function Digit(x: bv64): nat {
    LowBit(x) + 2 * LowBit(Half(x)) + 4 * LowBit(Half(Half(x))) + 8 * LowBit(Half(Half(Half(x))))
  }

  function Rest(x: bv64): bv64 {
    Half(Half(Half(Half(x))))
  }

  /** One more hexadecimal digit. */
  lemma NextDigit(x: bv64, high: bv64, d: nat)
    requires Rest(x) == high && Digit(x) == d
    ensures Val(x) == 16 * Val(high) + d
  {
    hide Val, LowBit, Half;
    ValParts(x);
    ValParts(Half(x));
    ValParts(Half(Half(x)));
    ValParts(Half(Half(Half(x))));
  }
}
