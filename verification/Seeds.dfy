/** For which seeds mangling can be undone.  The polynomial of degree 32 is irreducible, so one
    division tells: a seed it does not divide can be undone, and one it divides sends every word
    to 0.  Both seeds that the repository defines are of the first kind. */
module Seeds {
  import opened Words
  import opened Gf2Poly
  import opened Field
  import opened Bits
  import opened Factoring
  import opened FieldTable
  import opened Mangling

  const MANGLE_SEED_1: nat := 38409845058049
  const MANGLE_SEED_2: nat := 9475047563245

  // ----- every seed -----

  /** A multiple of the polynomial sends every word to 0, and nothing else does. */
  lemma ZeroIff(c: Poly, prim: Poly)
    requires Len(prim) >= 2
    ensures Rem(c, prim) == 0 ==> forall k: Poly :: MulMod(k, c, prim) == 0
    ensures Rem(c, prim) != 0 ==> MulMod(1, c, prim) != 0
  {
    hide Clmul, Rem;
    ClmulOne(c);
    if Rem(c, prim) == 0 {
      forall k: Poly ensures MulMod(k, c, prim) == 0 { ZeroProduct(k, c, prim); }
    }
  }

  lemma ZeroProduct(k: Poly, c: Poly, prim: Poly)
    requires Len(prim) >= 2 && Rem(c, prim) == 0
    ensures MulMod(k, c, prim) == 0
  {
    hide Clmul, Rem;
    ZeroRemainder(c, prim);
    DividesClmul(prim, c, k);
    ClmulComm(c, k);
    ZeroRemainder(Clmul(k, c), prim);
  }

  /** The char tables undo each other on every word exactly when the polynomial does not divide the
      first seed; otherwise they send every word to 0. */
  lemma CharSeedDecides(m: Mangler)
    requires m.Valid() && m.gf.prim == PrimTable(32)
    ensures Rem(m.seed1, m.gf.prim) != 0 <==> forall k: uint32 :: m.ReverseCharTable(m.MangleCharTable(k)) == k
    ensures Rem(m.seed1, m.gf.prim) != 0 <==> forall k: uint32 :: m.MangleCharTable(m.ReverseCharTable(k)) == k
    ensures Rem(m.seed1, m.gf.prim) == 0 <==> forall k: uint32 :: m.MangleCharTable(k) == 0
  {
    m.CharRoundTrip();
    hide Coprime, Rem, MulMod, Mangler.CharRows, Mangler.ShortRows;
    InvertibleIff(m.seed1, 32);
    ZeroIff(m.seed1, m.gf.prim);
    assert m.MangleCharTable(1) == MulMod(1, m.seed1, m.gf.prim);
  }

  /** The short tables and the second seed. */
  lemma ShortSeedDecides(m: Mangler)
    requires m.Valid() && m.gf.prim == PrimTable(32)
    ensures Rem(m.seed2, m.gf.prim) != 0 <==> forall k: uint32 :: m.ReverseShortTable(m.MangleShortTable(k)) == k
    ensures Rem(m.seed2, m.gf.prim) != 0 <==> forall k: uint32 :: m.MangleShortTable(m.ReverseShortTable(k)) == k
    ensures Rem(m.seed2, m.gf.prim) == 0 <==> forall k: uint32 :: m.MangleShortTable(k) == 0
  {
    m.ShortRoundTrip();
    hide Coprime, Rem, MulMod, Mangler.CharRows, Mangler.ShortRows;
    InvertibleIff(m.seed2, 32);
    ZeroIff(m.seed2, m.gf.prim);
    assert m.MangleShortTable(1) == MulMod(1, m.seed2, m.gf.prim);
  }

  /** Two such seeds, 0 and the polynomial itself: the words 1 and 2 collide. */
  lemma BadSeeds(m: Mangler)
    requires m.Valid() && m.gf.prim == PrimTable(32)
    requires m.seed1 in {0, PrimTable(32)} && m.seed2 in {0, PrimTable(32)}
    ensures m.MangleCharTable(1) == 0 == m.MangleCharTable(2)
    ensures m.MangleShortTable(1) == 0 == m.MangleShortTable(2)
  {
    hide Rem, PrimTable, Mangler.MangleCharTable, Mangler.MangleShortTable, Mangler.CharRows, Mangler.ShortRows;
    Multiples(m.gf.prim);
    CharSeedDecides(m);
    ShortSeedDecides(m);
  }

  lemma Multiples(prim: Poly)
    requires prim > 0
    ensures Rem(0, prim) == 0 == Rem(prim, prim)
  {
    hide Rem;
    DividesSelf(prim);
    ZeroRemainder(0, prim);
    ZeroRemainder(prim, prim);
  }

  // ----- the defined seeds -----

  /** One fold reduces a number of fewer than 63 bits. */
  lemma OneFold(x: bv64)
    requires Small(x, 32) && Below(Fold5(x, 32, 2, 6, 7), 32) && Fold5(x, 32, 2, 6, 7) != 0
    ensures Rem(Val(x), PrimTable(32)) != 0
  {
    hide Val, Small, Below, Fold5, Five, Congruent, Rem, PrimTable;
    var r := Fold5(x, 32, 2, 6, 7);
    FoldKeeps5(x, 32, 32, 2, 2, 6, 6, 7, 7);
    Form32();
    ValBelow(r, 32, 32);
    CongruentSym(Val(r), Val(x), PrimTable(32));
    RemUnique(Val(x), Val(r), PrimTable(32));
    if Val(r) == 0 { ValNone(r); }
  }

  lemma Form32()
    ensures PrimTable(32) == Five(32, 2, 6, 7) && Len(PrimTable(32)) == 33
  {
    TapPowers();
    Shape5(32, 2, 6, 7);
  }

  // The bit vectors below stand for the numbers they look like.

  lemma FirstSeedValue()
    ensures Val(0x22EE_FD2B_AA01) == MANGLE_SEED_1
  {
    ValZero(0);
    hide Val;
    NextDigit(0x2, 0x0, 0x2);
    NextDigit(0x22, 0x2, 0x2);
    NextDigit(0x22E, 0x22, 0xE);
    NextDigit(0x22EE, 0x22E, 0xE);
    NextDigit(0x2_2EEF, 0x22EE, 0xF);
    NextDigit(0x22_EEFD, 0x2_2EEF, 0xD);
    NextDigit(0x22E_EFD2, 0x22_EEFD, 0x2);
    NextDigit(0x22EE_FD2B, 0x22E_EFD2, 0xB);
    NextDigit(0x2_2EEF_D2BA, 0x22EE_FD2B, 0xA);
    NextDigit(0x22_EEFD_2BAA, 0x2_2EEF_D2BA, 0xA);
    NextDigit(0x22E_EFD2_BAA0, 0x22_EEFD_2BAA, 0x0);
    NextDigit(0x22EE_FD2B_AA01, 0x22E_EFD2_BAA0, 0x1);
  }

  lemma SecondSeedValue()
    ensures Val(0x89E_14D8_1FED) == MANGLE_SEED_2
  {
    ValZero(0);
    hide Val;
    NextDigit(0x8, 0x0, 0x8);
    NextDigit(0x89, 0x8, 0x9);
    NextDigit(0x89E, 0x89, 0xE);
    NextDigit(0x89E1, 0x89E, 0x1);
    NextDigit(0x8_9E14, 0x89E1, 0x4);
    NextDigit(0x89_E14D, 0x8_9E14, 0xD);
    NextDigit(0x89E_14D8, 0x89_E14D, 0x8);
    NextDigit(0x89E1_4D81, 0x89E_14D8, 0x1);
    NextDigit(0x8_9E14_D81F, 0x89E1_4D81, 0xF);
    NextDigit(0x89_E14D_81FE, 0x8_9E14_D81F, 0xE);
    NextDigit(0x89E_14D8_1FED, 0x89_E14D_81FE, 0xD);
  }

  lemma FirstSeedCoprime()
    ensures Rem(MANGLE_SEED_1, PrimTable(32)) != 0 && Coprime(MANGLE_SEED_1, PrimTable(32))
  {
    hide Rem, Coprime, Val, PrimTable;
    FirstSeedValue();
    OneFold(0x22EE_FD2B_AA01);
    InvertibleIff(MANGLE_SEED_1, 32);
  }

  lemma SecondSeedCoprime()
    ensures Rem(MANGLE_SEED_2, PrimTable(32)) != 0 && Coprime(MANGLE_SEED_2, PrimTable(32))
  {
    hide Rem, Coprime, Val, PrimTable;
    SecondSeedValue();
    OneFold(0x89E_14D8_1FED);
    InvertibleIff(MANGLE_SEED_2, 32);
  }

  /** A mangler built from the two seeds can reverse what it mangles, and the other way round. */
  lemma DefinedSeedsRoundTrip(m: Mangler, k: uint32)
    requires m.Valid() && m.seed1 == MANGLE_SEED_1 && m.seed2 == MANGLE_SEED_2 && m.gf.prim == PrimTable(32)
    ensures m.ReverseCharTable(m.MangleCharTable(k)) == k == m.MangleCharTable(m.ReverseCharTable(k))
    ensures m.ReverseShortTable(m.MangleShortTable(k)) == k == m.MangleShortTable(m.ReverseShortTable(k))
  {
    FirstSeedCoprime();
    SecondSeedCoprime();
    m.CharRoundTrip();
    m.ShortRoundTrip();
  }
}
