/** Word arithmetic of the field code.  Shifts to the left drop the bits that
    leave the word; exclusive or and shifts to the right stay inside it. */
module MachineWords {
  import opened Gf2Poly
  import opened Words

  lemma Pow2Words()
    ensures Pow2(8) == 0x100 && Pow2(16) == 0x1_0000 && Pow2(24) == 0x100_0000
    ensures Pow2(32) == WORD && Pow2(63) == TWO_TO_THE_63 && Pow2(64) == TWO_TO_THE_64
  {
    hide Pow2;
    Pow2Low();
    Pow2High();
  }

  lemma Pow2Low()
    ensures Pow2(8) == 0x100 && Pow2(16) == 0x1_0000 && Pow2(24) == 0x100_0000 && Pow2(32) == WORD
  {
    assert Pow2(0) == 1;
    hide Pow2;
    Pow2Byte(0);
    Pow2Byte(8);
    Pow2Byte(16);
    Pow2Byte(24);
  }

  lemma Pow2High()
    ensures Pow2(63) == TWO_TO_THE_63 && Pow2(64) == TWO_TO_THE_64
  {
    assert Pow2(64) == 2 * Pow2(63);
    hide Pow2;
    Pow2Low();
    Pow2Byte(32);
    Pow2Byte(40);
    Pow2Byte(48);
    Pow2Byte(56);
  }

  lemma Pow2Byte(k: nat)
    ensures Pow2(k + 8) == 0x100 * Pow2(k)
  {
    assert Pow2(k + 2) == 4 * Pow2(k);
    assert Pow2(k + 4) == 4 * Pow2(k + 2);
    assert Pow2(k + 6) == 4 * Pow2(k + 4);
    assert Pow2(k + 8) == 4 * Pow2(k + 6);
  }

  lemma WordLen(a: Poly)
    ensures a < TWO_TO_THE_64 <==> Len(a) <= 64
    ensures a < TWO_TO_THE_63 <==> Len(a) <= 63
    ensures a < WORD <==> Len(a) <= 32
  {
    Pow2Words();
    LenPow2(a, 64); LenPow2(a, 63); LenPow2(a, 32);
  }

  /** The C expression a << k on 64-bit words. */
  function ShiftLeft(a: uint64, k: nat): (r: uint64)
    ensures Len(a) + k <= 64 ==> r == Shl(a, k)
  {
    LenShl(a, k);
    WordLen(Shl(a, k));
    Shl(a, k) % TWO_TO_THE_64
  }

  /** The C expression a << 1 on 64-bit words. */
  function Double(a: uint64): (r: uint64)
    ensures Len(a) <= 63 ==> r == 2 * a
  {
    WordLen(a);
    2 * a % TWO_TO_THE_64
  }

  /** The C expression a ^ b on 64-bit words. */
  function XorWord(a: uint64, b: uint64): (r: uint64)
    ensures r == Xor(a, b)
  {
    WordLen(a); WordLen(b); WordLen(Xor(a, b));
    LenXor(a, b, 64);
    Xor(a, b)
  }

  /** The C expression a ^ b on 32-bit words. */
  function XorWord32(a: uint32, b: uint32): (r: uint32)
    ensures r == Xor(a, b)
  {
    WordLen(a); WordLen(b); WordLen(Xor(a, b));
    LenXor(a, b, 32);
    Xor(a, b)
  }

  lemma {:induction false} ShlXor(a: Poly, b: Poly, k: nat)
    ensures Shl(Xor(a, b), k) == Xor(Shl(a, k), Shl(b, k))
  {
    if k > 0 { ShlXor(a, b, k - 1); XorTwice(Shl(a, k - 1), Shl(b, k - 1)); }
  }

  lemma {:induction false} ShlTwice(a: Poly, k: nat)
    ensures Shl(2 * a, k) == Shl(a, k + 1)
  {
    if k > 0 { ShlTwice(a, k - 1); }
  }

  lemma ShlByte(a: Poly, k: nat)
    ensures Shl(a, k + 8) == 0x100 * Shl(a, k)
  {
    assert Shl(a, k + 2) == 4 * Shl(a, k);
    assert Shl(a, k + 4) == 4 * Shl(a, k + 2);
    assert Shl(a, k + 6) == 4 * Shl(a, k + 4);
    assert Shl(a, k + 8) == 4 * Shl(a, k + 6);
  }

  /** Adding a shifted word above a low part is the same as joining their bits. */
  lemma {:induction false} XorJoin(low: Poly, high: Poly, k: nat)
    requires low < Pow2(k)
    ensures Xor(low, Shl(high, k)) == low + Shl(high, k)
    decreases k
  {
    hide Xor;
    if k == 0 {
      XorZero(high);
    } else {
      XorJoin(low / 2, high, k - 1);
      XorJoinStep(low, Shl(high, k - 1));
    }
  }

  lemma XorJoinStep(low: Poly, high: Poly)
    requires Xor(low / 2, high) == low / 2 + high
    ensures Xor(low, 2 * high) == low + 2 * high
  {
    hide Xor;
    var x := Xor(low, 2 * high);
    assert 2 * high / 2 == high && 2 * high % 2 == 0;
    XorParts(low, 2 * high);
    assert x == 2 * (x / 2) + x % 2 && low == 2 * (low / 2) + low % 2;
  }
}
