/** The reversible mangler of common/os_mangler: tables of field products, looked up byte by
    byte or short by short, and the tables of the inverse product that undo them. */
module Mangling {
  import opened Gf2Poly
  import opened MachineWords
  import opened Words
  import opened Field

  // ----- the views of a 32-bit word, lowest part first -----

  function Byte(k: uint32, i: nat): (b: nat)
    requires i < 4
    ensures b < 0x100
  {
    if i == 0 then k % 0x100
    else if i == 1 then k / 0x100 % 0x100
    else if i == 2 then k / 0x1_0000 % 0x100
    else k / 0x100_0000
  }

  function Short(k: uint32, i: nat): (s: nat)
    requires i < 2
    ensures s < 0x1_0000
  {
    if i == 0 then k % 0x1_0000 else k / 0x1_0000
  }

  lemma ShlBytes(a: Poly)
    ensures Shl(a, 0) == a && Shl(a, 8) == 0x100 * a && Shl(a, 16) == 0x1_0000 * a && Shl(a, 24) == 0x100_0000 * a
  {
    ShlByte(a, 0); ShlByte(a, 8); ShlByte(a, 16);
  }

  lemma BytesSum(k: uint32)
    ensures k == Byte(k, 0) + 0x100 * Byte(k, 1) + 0x1_0000 * Byte(k, 2) + 0x100_0000 * Byte(k, 3)
  {
    var k1, k2 := k / 0x100, k / 0x1_0000;
    assert k == k % 0x100 + 0x100 * k1;
    assert k1 == k1 % 0x100 + 0x100 * (k1 / 0x100) && k1 / 0x100 == k2;
    assert k2 == k2 % 0x100 + 0x100 * (k2 / 0x100) && k2 / 0x100 == k / 0x100_0000;
  }

  lemma JoinFour(b0: nat, b1: nat, b2: nat, b3: nat)
    requires b0 < 0x100 && b1 < 0x100 && b2 < 0x100
    ensures Xor(Xor(Xor(b0, Shl(b1, 8)), Shl(b2, 16)), Shl(b3, 24)) == b0 + 0x100 * b1 + 0x1_0000 * b2 + 0x100_0000 * b3
  {
    assert Xor(b0, Shl(b1, 8)) == b0 + 0x100 * b1 by { JoinAt(b0, b1, 8); }
    var low := b0 + 0x100 * b1;
    assert Xor(low, Shl(b2, 16)) == low + 0x1_0000 * b2 by { JoinAt(low, b2, 16); }
    JoinAt(low + 0x1_0000 * b2, b3, 24);
  }

  lemma JoinAt(low: nat, high: nat, k: nat)
    requires k == 8 || k == 16 || k == 24
    requires low < if k == 8 then 0x100 else if k == 16 then 0x1_0000 else 0x100_0000
    ensures Xor(low, Shl(high, k)) == low + (if k == 8 then 0x100 else if k == 16 then 0x1_0000 else 0x100_0000) * high
  {
    Pow2Words();
    ShlBytes(high);
    XorJoin(low, high, k);
  }

  lemma BytesJoin(k: uint32)
    ensures k == Xor(Xor(Xor(Byte(k, 0), Shl(Byte(k, 1), 8)), Shl(Byte(k, 2), 16)), Shl(Byte(k, 3), 24))
  {
    BytesSum(k);
    JoinFour(Byte(k, 0), Byte(k, 1), Byte(k, 2), Byte(k, 3));
  }

  lemma ShortsJoin(k: uint32)
    ensures k == Xor(Short(k, 0), Shl(Short(k, 1), 16))
  {
    Pow2Words();
    ShlBytes(Short(k, 1));
    XorJoin(Short(k, 0), Short(k, 1), 16);
  }

  /** The table entry for index i of the table with the given shift. */
  function Entry(i: Poly, shift: nat, c: Poly, prim: Poly): Poly
    requires prim > 0
  {
    MulMod(Shl(i, shift), c, prim)
  }

  /** Multiplying a word is multiplying its shifted bytes and adding up. */
  lemma ProductByBytes(k: uint32, c: Poly, prim: Poly)
    requires prim > 0
    ensures MulMod(k, c, prim) ==
            Xor(Xor(Xor(Entry(Byte(k, 0), 0, c, prim), Entry(Byte(k, 1), 8, c, prim)),
              Entry(Byte(k, 2), 16, c, prim)), Entry(Byte(k, 3), 24, c, prim))
  {
    var b0, b1, b2, b3 := Byte(k, 0), Shl(Byte(k, 1), 8), Shl(Byte(k, 2), 16), Shl(Byte(k, 3), 24);
    BytesJoin(k);
    MulModXor(b0, b1, c, prim);
    MulModXor(Xor(b0, b1), b2, c, prim);
    MulModXor(Xor(Xor(b0, b1), b2), b3, c, prim);
  }

  lemma ProductByShorts(k: uint32, c: Poly, prim: Poly)
    requires prim > 0
    ensures MulMod(k, c, prim) == Xor(Entry(Short(k, 0), 0, c, prim), Entry(Short(k, 1), 16, c, prim))
  {
    ShortsJoin(k);
    MulModXor(Short(k, 0), Shl(Short(k, 1), 16), c, prim);
  }

  /** Multiplying by c and then by its inverse, in either order, changes no reduced element;
      and only an inverse has that effect. */
  lemma UndoProduct(k: Poly, c: Poly, inverse: Poly, prim: Poly)
    requires Len(k) < Len(prim) && MulMod(inverse, c, prim) == 1
    ensures MulMod(MulMod(k, c, prim), inverse, prim) == k
    ensures MulMod(MulMod(k, inverse, prim), c, prim) == k
  {
    MulModAssoc(k, c, inverse, prim);
    MulModAssoc(k, inverse, c, prim);
    MulModComm(c, inverse, prim);
    MulModOne(k, prim);
  }

  lemma UndoneMeansInverse(c: Poly, inverse: Poly, prim: Poly)
    requires Len(prim) >= 2
    requires MulMod(MulMod(1, c, prim), inverse, prim) == 1 || MulMod(MulMod(1, inverse, prim), c, prim) == 1
    ensures MulMod(inverse, c, prim) == 1
  {
    ClmulOne(c); ClmulOne(inverse);
    MulModRem(c, inverse, prim);
    MulModRem(inverse, c, prim);
    MulModComm(inverse, c, prim);
  }

  /** With a common factor d, the cofactor of d in prim is a nonzero word sent to zero. */
  lemma CommonFactorCollides(c: Poly, prim: Poly) returns (k: Poly)
    requires Len(prim) >= 2 && !Coprime(c, prim)
    ensures 0 < k && Len(k) < Len(prim) && MulMod(k, c, prim) == 0
  {
    var d: Poly :| CommonDivisor(d, c, prim) && d != 1;
    k :| Clmul(d, k) == prim;
    var e: Poly :| Clmul(d, e) == c;
    if d == 0 { ClmulZero(k); assert false; }
    assert Len(d) >= 2;
    LenClmul(d, k);
    ClmulComm(d, k); ClmulAssoc(k, d, e);
    MultipleIsZero(e, prim);
    ClmulComm(prim, e);
  }

  // ----- the tables -----

  /** The first m entries of a table hold the products of the shifted index by c. */
  ghost predicate Holds(t: array<uint32>, m: int, shift: nat, c: Poly, prim: Poly)
    requires prim > 0
    reads t
  {
    m <= t.Length && forall i :: 0 <= i < m ==> t[i] == Entry(i, shift, c, prim)
  }

  class Mangler {
    const seed1: uint64
    const seed2: uint64
    const gf: GaloisField

    const char_mgltbl0: array<uint32>
    const char_mgltbl1: array<uint32>
    const char_mgltbl2: array<uint32>
    const char_mgltbl3: array<uint32>
    const char_revtbl0: array<uint32>
    const char_revtbl1: array<uint32>
    const char_revtbl2: array<uint32>
    const char_revtbl3: array<uint32>
    const short_mgltbl0: array<uint32>
    const short_mgltbl1: array<uint32>
    const short_revtbl0: array<uint32>
    const short_revtbl1: array<uint32>

    // the inverses that the two table builders obtain from Inv
    ghost var inverse1: uint64
    ghost var inverse2: uint64

    ghost predicate Shaped() {
      && gf.Valid() && gf.n == 32
      && seed1 < TWO_TO_THE_63 && seed2 < TWO_TO_THE_63
      && char_mgltbl0.Length == char_mgltbl1.Length == char_mgltbl2.Length == char_mgltbl3.Length == 256
      && char_revtbl0.Length == char_revtbl1.Length == char_revtbl2.Length == char_revtbl3.Length == 256
      && short_mgltbl0.Length == short_mgltbl1.Length == short_revtbl0.Length == short_revtbl1.Length == 65536
      && char_mgltbl0 !in {char_mgltbl1, char_mgltbl2, char_mgltbl3, char_revtbl0, char_revtbl1, char_revtbl2,
         char_revtbl3}
      && char_mgltbl1 !in {char_mgltbl2, char_mgltbl3, char_revtbl0, char_revtbl1, char_revtbl2, char_revtbl3}
      && char_mgltbl2 !in {char_mgltbl3, char_revtbl0, char_revtbl1, char_revtbl2, char_revtbl3}
      && char_mgltbl3 !in {char_revtbl0, char_revtbl1, char_revtbl2, char_revtbl3}
      && char_revtbl0 !in {char_revtbl1, char_revtbl2, char_revtbl3}
      && char_revtbl1 !in {char_revtbl2, char_revtbl3}
      && char_revtbl2 !in {char_revtbl3}
      && short_mgltbl0 !in {short_mgltbl1, short_revtbl0, short_revtbl1}
      && short_mgltbl1 !in {short_revtbl0, short_revtbl1}
      && short_revtbl0 !in {short_revtbl1}
    }

    ghost predicate CharRows(m: int, b: Poly)
      requires Shaped()
      reads char_mgltbl0, char_mgltbl1, char_mgltbl2, char_mgltbl3
      reads char_revtbl0, char_revtbl1, char_revtbl2, char_revtbl3
    {
      && Holds(char_mgltbl0, m, 0, seed1, gf.prim) && Holds(char_mgltbl1, m, 8, seed1, gf.prim)
      && Holds(char_mgltbl2, m, 16, seed1, gf.prim) && Holds(char_mgltbl3, m, 24, seed1, gf.prim)
      && Holds(char_revtbl0, m, 0, b, gf.prim) && Holds(char_revtbl1, m, 8, b, gf.prim)
      && Holds(char_revtbl2, m, 16, b, gf.prim) && Holds(char_revtbl3, m, 24, b, gf.prim)
    }

    ghost predicate ShortRows(m: int, b: Poly)
      requires Shaped()
      reads short_mgltbl0, short_mgltbl1, short_revtbl0, short_revtbl1
    {
      && Holds(short_mgltbl0, m, 0, seed2, gf.prim) && Holds(short_mgltbl1, m, 16, seed2, gf.prim)
      && Holds(short_revtbl0, m, 0, b, gf.prim) && Holds(short_revtbl1, m, 16, b, gf.prim)
    }

    /** Every table holds its products, and the reverse tables those of an element that is the
        inverse of the seed exactly when the seed has one. */
    ghost predicate Valid()
      reads this
      reads char_mgltbl0, char_mgltbl1, char_mgltbl2, char_mgltbl3
      reads char_revtbl0, char_revtbl1, char_revtbl2, char_revtbl3
      reads short_mgltbl0, short_mgltbl1, short_revtbl0, short_revtbl1
    {
      && Shaped()
      && CharRows(256, inverse1) && ShortRows(65536, inverse2)
      && (MulMod(inverse1, seed1, gf.prim) == 1 <==> Coprime(seed1, gf.prim))
      && (MulMod(inverse2, seed2, gf.prim) == 1 <==> Coprime(seed2, gf.prim))
    }

    lemma ShiftedIndex(i: uint16, shift: nat)
      requires shift <= 24 && i < Pow2(32 - shift)
      ensures Len(i) + shift <= 64 && Shl(i, shift) < Pow2(32) == WORD
    {
      LenPow2(i, 32 - shift);
      LenShl(i, shift);
      LenPow2(Shl(i, shift), 32);
      Pow2Words();
    }

    /** t[i] = uint32(gf->Mul(i << shift, c)). */
    method Fill(t: array<uint32>, i: uint16, shift: nat, c: uint64)
      requires gf.Valid() && gf.n == 32 && shift <= 24 && i < Pow2(32 - shift)
      requires i < t.Length && Holds(t, i, shift, c, gf.prim)
      modifies t
      ensures Holds(t, i + 1, shift, c, gf.prim)
    {
      hide Pow2, Len, Shl, MulMod;
      ShiftedIndex(i, shift);
      t[i] := gf.Mul(ShiftLeft(i, shift), c);
    }

    method InitCharTable()
      requires Shaped()
      modifies this`inverse1
      modifies char_mgltbl0, char_mgltbl1, char_mgltbl2, char_mgltbl3
      modifies char_revtbl0, char_revtbl1, char_revtbl2, char_revtbl3
      ensures CharRows(256, inverse1)
      ensures MulMod(inverse1, seed1, gf.prim) == 1 <==> Coprime(seed1, gf.prim)
    {
      hide CharRows, ShortRows, MulMod, Coprime, Len;
      var a := seed1;
      var b := gf.Inv(a);
      var i := 0;
      NoRows(b);
      while i < 256
        invariant 0 <= i <= 256
        invariant CharRows(i, b)
      {
        FillCharRow(i, a, b);
        i := i + 1;
      }
      inverse1 := b;
    }

    /** One turn of the loop that builds the char tables. */
    method FillCharRow(i: uint8, a: uint64, b: uint64)
      requires Shaped() && a == seed1 && CharRows(i, b)
      modifies char_mgltbl0, char_mgltbl1, char_mgltbl2, char_mgltbl3
      modifies char_revtbl0, char_revtbl1, char_revtbl2, char_revtbl3
      ensures CharRows(i + 1, b)
    {
      hide Holds;
      FillFour(char_mgltbl0, char_mgltbl1, char_mgltbl2, char_mgltbl3, i, a);
      FillFour(char_revtbl0, char_revtbl1, char_revtbl2, char_revtbl3, i, b);
    }

    method FillFour(t0: array<uint32>, t1: array<uint32>, t2: array<uint32>, t3: array<uint32>, i: uint8, c: uint64)
      requires gf.Valid() && gf.n == 32 && t0.Length == t1.Length == t2.Length == t3.Length == 256
      requires t0 !in {t1, t2, t3} && t1 !in {t2, t3} && t2 != t3
      requires Holds(t0, i, 0, c, gf.prim) && Holds(t1, i, 8, c, gf.prim) && Holds(t2, i, 16, c, gf.prim) &&
        Holds(t3, i, 24, c, gf.prim)
      modifies t0, t1, t2, t3
      ensures Holds(t0, i + 1, 0, c, gf.prim) && Holds(t1, i + 1, 8, c, gf.prim)
      ensures Holds(t2, i + 1, 16, c, gf.prim) && Holds(t3, i + 1, 24, c, gf.prim)
    {
      hide Holds, Pow2;
      Pow2Words();
      Fill(t3, i, 24, c);
      Fill(t2, i, 16, c);
      Fill(t1, i, 8, c);
      Fill(t0, i, 0, c);
    }

    lemma NoRows(b: Poly)
      requires Shaped()
      ensures CharRows(0, b) && ShortRows(0, b)
    {
    }

    method InitShortTable()
      requires Shaped()
      modifies this`inverse2
      modifies short_mgltbl0, short_mgltbl1, short_revtbl0, short_revtbl1
      ensures ShortRows(65536, inverse2)
      ensures MulMod(inverse2, seed2, gf.prim) == 1 <==> Coprime(seed2, gf.prim)
    {
      hide CharRows, ShortRows, MulMod, Coprime, Len;
      var a := seed2;
      var b := gf.Inv(a);
      var i := 0;
      NoRows(b);
      while i < 65536
        invariant 0 <= i <= 65536
        invariant ShortRows(i, b)
      {
        FillShortRow(i, a, b);
        i := i + 1;
      }
      inverse2 := b;
    }

    /** One turn of the loop that builds the short tables. */
    method FillShortRow(i: uint16, a: uint64, b: uint64)
      requires Shaped() && a == seed2 && ShortRows(i, b)
      modifies short_mgltbl0, short_mgltbl1, short_revtbl0, short_revtbl1
      ensures ShortRows(i + 1, b)
    {
      hide Holds;
      FillTwo(short_mgltbl0, short_mgltbl1, i, a);
      FillTwo(short_revtbl0, short_revtbl1, i, b);
    }

    method FillTwo(t0: array<uint32>, t1: array<uint32>, i: uint16, c: uint64)
      requires gf.Valid() && gf.n == 32 && t0.Length == t1.Length == 65536 && t0 != t1
      requires Holds(t0, i, 0, c, gf.prim) && Holds(t1, i, 16, c, gf.prim)
      modifies t0, t1
      ensures Holds(t0, i + 1, 0, c, gf.prim) && Holds(t1, i + 1, 16, c, gf.prim)
    {
      hide Holds, Pow2;
      Pow2Words();
      Fill(t1, i, 16, c);
      Fill(t0, i, 0, c);
    }

    /** The last two steps of the constructor. */
    method InitTables()
      requires Shaped()
      modifies this`inverse1, this`inverse2
      modifies char_mgltbl0, char_mgltbl1, char_mgltbl2, char_mgltbl3
      modifies char_revtbl0, char_revtbl1, char_revtbl2, char_revtbl3
      modifies short_mgltbl0, short_mgltbl1, short_revtbl0, short_revtbl1
      ensures Valid()
    {
      hide Holds;
      InitCharTable();
      InitShortTable();
    }

    constructor (a1: uint64, a2: uint64, gf32: GaloisField)
      requires a1 < TWO_TO_THE_63 && a2 < TWO_TO_THE_63
      requires gf32.Valid() && gf32.n == 32
      ensures Valid() && seed1 == a1 && seed2 == a2 && gf == gf32
    {
      seed1, seed2, gf := a1, a2, gf32;
      char_mgltbl0 := new uint32[256];
      char_mgltbl1 := new uint32[256];
      char_mgltbl2 := new uint32[256];
      char_mgltbl3 := new uint32[256];
      char_revtbl0 := new uint32[256];
      char_revtbl1 := new uint32[256];
      char_revtbl2 := new uint32[256];
      char_revtbl3 := new uint32[256];
      short_mgltbl0 := new uint32[65536];
      short_mgltbl1 := new uint32[65536];
      short_revtbl0 := new uint32[65536];
      short_revtbl1 := new uint32[65536];
      new;
      InitTables();
    }

    /** Table lookup is multiplication by the seed. */
    function MangleCharTable(k: uint32): (r: uint32)
      requires Valid()
      reads this
      reads char_mgltbl0, char_mgltbl1, char_mgltbl2, char_mgltbl3
      reads char_revtbl0, char_revtbl1, char_revtbl2, char_revtbl3
      reads short_mgltbl0, short_mgltbl1, short_revtbl0, short_revtbl1
      ensures r == MulMod(k, seed1, gf.prim)
    {
      ProductByBytes(k, seed1, gf.prim);
      XorWord32(XorWord32(XorWord32(char_mgltbl0[Byte(k, 0)], char_mgltbl1[Byte(k, 1)]), char_mgltbl2[Byte(k, 2)]),
        char_mgltbl3[Byte(k, 3)])
    }

    function MangleShortTable(k: uint32): (r: uint32)
      requires Valid()
      reads this
      reads char_mgltbl0, char_mgltbl1, char_mgltbl2, char_mgltbl3
      reads char_revtbl0, char_revtbl1, char_revtbl2, char_revtbl3
      reads short_mgltbl0, short_mgltbl1, short_revtbl0, short_revtbl1
      ensures r == MulMod(k, seed2, gf.prim)
    {
      ProductByShorts(k, seed2, gf.prim);
      XorWord32(short_mgltbl0[Short(k, 0)], short_mgltbl1[Short(k, 1)])
    }

    function ReverseCharTable(k: uint32): (r: uint32)
      requires Valid()
      reads this
      reads char_mgltbl0, char_mgltbl1, char_mgltbl2, char_mgltbl3
      reads char_revtbl0, char_revtbl1, char_revtbl2, char_revtbl3
      reads short_mgltbl0, short_mgltbl1, short_revtbl0, short_revtbl1
      ensures r == MulMod(k, inverse1, gf.prim)
    {
      ProductByBytes(k, inverse1, gf.prim);
      XorWord32(XorWord32(XorWord32(char_revtbl0[Byte(k, 0)], char_revtbl1[Byte(k, 1)]), char_revtbl2[Byte(k, 2)]),
        char_revtbl3[Byte(k, 3)])
    }

    function ReverseShortTable(k: uint32): (r: uint32)
      requires Valid()
      reads this
      reads char_mgltbl0, char_mgltbl1, char_mgltbl2, char_mgltbl3
      reads char_revtbl0, char_revtbl1, char_revtbl2, char_revtbl3
      reads short_mgltbl0, short_mgltbl1, short_revtbl0, short_revtbl1
      ensures r == MulMod(k, inverse2, gf.prim)
    {
      ProductByShorts(k, inverse2, gf.prim);
      XorWord32(short_revtbl0[Short(k, 0)], short_revtbl1[Short(k, 1)])
    }

    /** The char tables undo each other on every word exactly when the first seed shares no
        factor with the field polynomial. */
    lemma CharRoundTrip()
      requires Valid()
      ensures Coprime(seed1, gf.prim) <==> forall k: uint32 :: ReverseCharTable(MangleCharTable(k)) == k
      ensures Coprime(seed1, gf.prim) <==> forall k: uint32 :: MangleCharTable(ReverseCharTable(k)) == k
    {
      if Coprime(seed1, gf.prim) {
        forall k: uint32
          ensures ReverseCharTable(MangleCharTable(k)) == k && MangleCharTable(ReverseCharTable(k)) == k
        {
          WordLen(k);
          UndoProduct(k, seed1, inverse1, gf.prim);
        }
      }
      if ReverseCharTable(MangleCharTable(1)) == 1 || MangleCharTable(ReverseCharTable(1)) == 1 {
        UndoneMeansInverse(seed1, inverse1, gf.prim);
      }
    }

    lemma ShortRoundTrip()
      requires Valid()
      ensures Coprime(seed2, gf.prim) <==> forall k: uint32 :: ReverseShortTable(MangleShortTable(k)) == k
      ensures Coprime(seed2, gf.prim) <==> forall k: uint32 :: MangleShortTable(ReverseShortTable(k)) == k
    {
      if Coprime(seed2, gf.prim) {
        forall k: uint32
          ensures ReverseShortTable(MangleShortTable(k)) == k && MangleShortTable(ReverseShortTable(k)) == k
        {
          WordLen(k);
          UndoProduct(k, seed2, inverse2, gf.prim);
        }
      }
      if ReverseShortTable(MangleShortTable(1)) == 1 || MangleShortTable(ReverseShortTable(1)) == 1 {
        UndoneMeansInverse(seed2, inverse2, gf.prim);
      }
    }

    /** With a bad seed, mangling itself already loses information: it is one to one exactly
        when it can be reversed. */
    lemma MangleOneToOne()
      requires Valid()
      ensures Coprime(seed1, gf.prim) <==>
        forall j: uint32, k: uint32 :: MangleCharTable(j) == MangleCharTable(k) ==> j == k
      ensures Coprime(seed2, gf.prim) <==>
        forall j: uint32, k: uint32 :: MangleShortTable(j) == MangleShortTable(k) ==> j == k
    {
      CharRoundTrip();
      ShortRoundTrip();
      ClmulZero(seed1);
      ClmulZero(seed2);
      if !Coprime(seed1, gf.prim) {
        var k := CommonFactorCollides(seed1, gf.prim);
        WordLen(k);
        assert MangleCharTable(k) == MangleCharTable(0);
      }
      if !Coprime(seed2, gf.prim) {
        var k := CommonFactorCollides(seed2, gf.prim);
        WordLen(k);
        assert MangleShortTable(k) == MangleShortTable(0);
      }
    }
  }
}
