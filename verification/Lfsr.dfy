/** The BGT60TR13C test-pattern generator: a 12-bit shift register over GF(2).  Its period is
    found without running it: every register is a polynomial in the step, applied to one
    register UNIT, and polynomials commute with stepping, so that what holds at UNIT holds
    everywhere. */
module Lfsr {

  // ---- The driver's word -----------------------------------------------------------------

  predicate Is12Bit(w: bv16) { w & 0xF000 == 0 }

  // bgt60tr13c_next_test_word.
  function NextTestWord(cur: bv16): bv16 {
    (cur >> 1) | (((cur << 11) ^ (cur << 10) ^ (cur << 9) ^ (cur << 3)) & 0x0800)
  }

  function TestWord(n: nat, seed: bv16): bv16 {
    if n == 0 then seed else NextTestWord(TestWord(n - 1, seed))
  }

  // ---- The register ----------------------------------------------------------------------

  type Reg = bv12

  // The register in a word's low 12 bits, and the word that holds a register.
  function Low(w: bv16): Reg { (w & 0x0FFF) as bv12 }

  function Wide(r: Reg): bv16 { r as bv16 }

  // Shift right; bits 0, 1, 2 and 8 add up to the new bit 11.
  function Next(r: Reg): Reg { (r >> 1) | ((r ^ (r >> 1) ^ (r >> 2) ^ (r >> 8)) << 11) }

  function Iterate(n: nat, r: Reg): Reg {
    if n == 0 then r else Next(Iterate(n - 1, r))
  }

  lemma WideOfLow(w: bv16)
    requires Is12Bit(w)
    ensures Wide(Low(w)) == w
  {
  }

  lemma LowOfWide(r: Reg)
    ensures Low(Wide(r)) == r && Is12Bit(Wide(r))
  {
  }

  // On 12-bit words the expression is one step of the register.
  lemma NextTestWordShifts(w: bv16)
    requires Is12Bit(w)
    ensures NextTestWord(w) == Wide(Next(Low(w))) && Is12Bit(NextTestWord(w))
  {
  }

  function Sum(a: Reg, b: Reg): Reg { a ^ b }

  // Coefficients over GF(2); a type of their own, because the verifier splits its cases on bools.
  datatype Bit = Zero | One

  function BitOf(b: bool): Bit { if b then One else Zero }

  function Pick(c: Bit, r: Reg): Reg { if c.One? then r else 0 }

  lemma NextIsLinear(a: Reg, b: Reg)
    ensures Next(Sum(a, b)) == Sum(Next(a), Next(b))
  {
  }

  lemma NextOfZero()
    ensures Next(0) == 0
  {
  }

  lemma NextIsInjective(a: Reg, b: Reg)
    requires Next(a) == Next(b)
    ensures a == b
  {
  }

  lemma SumRegroups(a: Reg, b: Reg, c: Reg)
    ensures Sum(a, b) == Sum(b, a) && Sum(Sum(a, b), c) == Sum(a, Sum(b, c))
  {
  }

  lemma SumSwaps(a: Reg, b: Reg, c: Reg, d: Reg)
    ensures Sum(Sum(a, b), Sum(c, d)) == Sum(Sum(a, c), Sum(b, d))
  {
    hide Sum;
    SumRegroups(a, b, Sum(c, d));
    SumRegroups(b, c, d);
    SumRegroups(c, b, d);
    SumRegroups(a, c, Sum(b, d));
  }

  lemma SumUnits(a: Reg)
    ensures Sum(a, 0) == a == Sum(0, a) && Sum(a, a) == 0
  {
  }

  lemma PickOfSum(c: Bit, a: Reg, b: Reg)
    ensures Pick(c, Sum(a, b)) == Sum(Pick(c, a), Pick(c, b))
  {
  }

  lemma {:induction false} IterateAdds(m: nat, n: nat, r: Reg)
    ensures Iterate(m + n, r) == Iterate(m, Iterate(n, r))
  {
    hide Next;
    if m > 0 {
      IterateAdds(m - 1, n, r);
    }
  }

  lemma {:induction false} IterateIsInjective(n: nat, a: Reg, b: Reg)
    requires Iterate(n, a) == Iterate(n, b)
    ensures a == b
  {
    hide Next;
    if n > 0 {
      NextIsInjective(Iterate(n - 1, a), Iterate(n - 1, b));
      IterateIsInjective(n - 1, a, b);
    }
  }

  lemma {:induction false} ZeroStaysZero(n: nat, r: Reg)
    ensures Iterate(n, r) == 0 <==> r == 0
  {
    hide Next;
    if n > 0 {
      ZeroStaysZero(n - 1, r);
      NextOfZero();
      if Next(Iterate(n - 1, r)) == 0 {
        NextIsInjective(Iterate(n - 1, r), 0);
      }
    }
  }

  // ---- Polynomials in the step -------------------------------------------------------------

  // Coefficients, constant term first.
  datatype Poly = End | Term(c: Bit, rest: Poly)

  // The polynomial, applied to the step, applied to r.
  function Act(p: Poly, r: Reg): Reg {
    match p
    case End => 0
    case Term(c, rest) => Sum(Pick(c, r), Act(rest, Next(r)))
  }

  lemma {:induction false} ActOnSum(p: Poly, a: Reg, b: Reg)
    ensures Act(p, Sum(a, b)) == Sum(Act(p, a), Act(p, b))
  {
    hide Sum; hide Next; hide Pick;
    match p
    case End => SumUnits(0);
    case Term(c, rest) =>
      NextIsLinear(a, b);
      ActOnSum(rest, Next(a), Next(b));
      PickOfSum(c, a, b);
      SumSwaps(Pick(c, a), Pick(c, b), Act(rest, Next(a)), Act(rest, Next(b)));
  }

  lemma ActOnZero(p: Poly)
    ensures Act(p, 0) == 0
  {
    hide Act; hide Sum;
    SumUnits(0);
    ActOnSum(p, 0, 0);
    SumUnits(Act(p, 0));
  }

  lemma {:induction false} ActOnNext(p: Poly, r: Reg)
    ensures Act(p, Next(r)) == Next(Act(p, r))
  {
    hide Sum; hide Next;
    match p
    case End => NextOfZero();
    case Term(c, rest) =>
      NextOfZero();
      ActOnNext(rest, Next(r));
      NextIsLinear(Pick(c, r), Act(rest, Next(r)));
  }

  lemma {:induction false} ActOnIterate(p: Poly, n: nat, r: Reg)
    ensures Act(p, Iterate(n, r)) == Iterate(n, Act(p, r))
  {
    hide Act; hide Next;
    if n > 0 {
      ActOnIterate(p, n - 1, r);
      ActOnNext(p, Iterate(n - 1, r));
    }
  }

  lemma {:induction false} ActsCommute(p: Poly, q: Poly, r: Reg)
    ensures Act(p, Act(q, r)) == Act(q, Act(p, r))
    decreases p
  {
    hide Sum; hide Next;
    ActOnZero(q);
    match p
    case End =>
    case Term(c, rest) =>
      ActsCommute(rest, q, Next(r));
      ActOnNext(q, r);
      ActOnSum(q, Pick(c, r), Act(rest, Next(r)));
  }

  // ---- A cyclic register -------------------------------------------------------------------

  const UNIT: Reg := 0x800

  predicate On(r: Reg, mask: Reg) { r & mask != 0 }

  function Terms(c0: Bit, c1: Bit, c2: Bit, c3: Bit, c4: Bit, c5: Bit,
                 c6: Bit, c7: Bit, c8: Bit, c9: Bit, c10: Bit, c11: Bit): Poly {
    Term(c0, Term(c1, Term(c2, Term(c3,
    Term(c4, Term(c5, Term(c6, Term(c7,
    Term(c8, Term(c9, Term(c10, Term(c11, End))))))))))))
  }

  // The coefficients of the polynomial that takes UNIT to r, and that polynomial.
  function C0(r: Reg): Bit { BitOf((On(r, 0x800) != On(r, 0x080)) != (On(r, 0x002) != On(r, 0x001))) }

  function C1(r: Reg): Bit { BitOf((On(r, 0x400) != On(r, 0x040)) != On(r, 0x001)) }

  function C2(r: Reg): Bit { BitOf(On(r, 0x200) != On(r, 0x020)) }

  function C3(r: Reg): Bit { BitOf(On(r, 0x100) != On(r, 0x010)) }

  function C4(r: Reg): Bit { BitOf(On(r, 0x080) != On(r, 0x008)) }

  function C5(r: Reg): Bit { BitOf(On(r, 0x040) != On(r, 0x004)) }

  function C6(r: Reg): Bit { BitOf(On(r, 0x020) != On(r, 0x002)) }

  function C7(r: Reg): Bit { BitOf(On(r, 0x010) != On(r, 0x001)) }

  function C8(r: Reg): Bit { BitOf(On(r, 0x008)) }

  function C9(r: Reg): Bit { BitOf(On(r, 0x004)) }

  function C10(r: Reg): Bit { BitOf(On(r, 0x002)) }

  function C11(r: Reg): Bit { BitOf(On(r, 0x001)) }

  function Solve(r: Reg): Poly {
    Terms(C0(r), C1(r), C2(r), C3(r), C4(r), C5(r), C6(r), C7(r), C8(r), C9(r), C10(r), C11(r))
  }

  function SumOfFour(a: Reg, b: Reg, c: Reg, d: Reg): Reg { a ^ (b ^ (c ^ d)) }

  lemma SumOfFourIs(a: Reg, b: Reg, c: Reg, d: Reg)
    ensures SumOfFour(a, b, c, d) == Sum(a, Sum(b, Sum(c, d)))
  {
  }

  // What the polynomial of a makes of b: the product of the polynomials of a and b, modulo
  // the characteristic polynomial of the step; written out so that the verifier can evaluate
  // it.
  function Product(a: Reg, b: Reg): Reg {
    var b4 := Next(Next(Next(Next(b))));
    var b8 := Next(Next(Next(Next(b4))));
    LowTerms(a, b) ^ (MiddleTerms(a, b4) ^ HighTerms(a, b8))
  }

  function LowTerms(a: Reg, b: Reg): Reg {
    SumOfFour(Pick(C0(a), b), Pick(C1(a), Next(b)), Pick(C2(a), Next(Next(b))), Pick(C3(a), Next(Next(Next(b)))))
  }

  function MiddleTerms(a: Reg, b: Reg): Reg {
    SumOfFour(Pick(C4(a), b), Pick(C5(a), Next(b)), Pick(C6(a), Next(Next(b))), Pick(C7(a), Next(Next(Next(b)))))
  }

  function HighTerms(a: Reg, b: Reg): Reg {
    SumOfFour(Pick(C8(a), b), Pick(C9(a), Next(b)), Pick(C10(a), Next(Next(b))), Pick(C11(a), Next(Next(Next(b)))))
  }

  lemma ActOfTerm(c: Bit, rest: Poly, r: Reg)
    ensures Act(Term(c, rest), r) == Sum(Pick(c, r), Act(rest, Next(r)))
  {
  }

  lemma FourTerms(c0: Bit, c1: Bit, c2: Bit, c3: Bit, rest: Poly, r: Reg)
    ensures Act(Term(c0, Term(c1, Term(c2, Term(c3, rest)))), r)
            == Sum(SumOfFour(Pick(c0, r), Pick(c1, Next(r)), Pick(c2, Next(Next(r))), Pick(c3, Next(Next(Next(r))))),
                   Act(rest, Next(Next(Next(Next(r))))))
  {
    hide Act; hide Sum; hide SumOfFour; hide Next; hide Pick;
    var x0, x1, x2, x3 := Pick(c0, r), Pick(c1, Next(r)), Pick(c2, Next(Next(r))), Pick(c3, Next(Next(Next(r))));
    var tail := Act(rest, Next(Next(Next(Next(r)))));
    ActOfTerm(c3, rest, Next(Next(Next(r))));
    ActOfTerm(c2, Term(c3, rest), Next(Next(r)));
    ActOfTerm(c1, Term(c2, Term(c3, rest)), Next(r));
    ActOfTerm(c0, Term(c1, Term(c2, Term(c3, rest))), r);
    SumRegroups(x2, x3, tail);
    SumRegroups(x1, Sum(x2, x3), tail);
    SumRegroups(x0, Sum(x1, Sum(x2, x3)), tail);
    SumOfFourIs(x0, x1, x2, x3);
  }

  lemma TwelveTerms(
    c0: Bit, c1: Bit, c2: Bit, c3: Bit, c4: Bit, c5: Bit,
    c6: Bit, c7: Bit, c8: Bit, c9: Bit, c10: Bit, c11: Bit, r: Reg)
    ensures var r4 := Next(Next(Next(Next(r))));
            var r8 := Next(Next(Next(Next(r4))));
            Act(Terms(c0, c1, c2, c3, c4, c5, c6, c7, c8, c9, c10, c11), r)
            == Sum(SumOfFour(Pick(c0, r), Pick(c1, Next(r)), Pick(c2, Next(Next(r))), Pick(c3, Next(Next(Next(r))))),
               Sum(SumOfFour(Pick(c4, r4), Pick(c5, Next(r4)), Pick(c6, Next(Next(r4))), Pick(c7, Next(Next(Next(r4))))),
                   SumOfFour(Pick(c8, r8), Pick(c9, Next(r8)), Pick(c10, Next(Next(r8))), Pick(c11, Next(Next(Next(r8)))))))
  {
    hide Act; hide Next; hide Pick; hide Sum; hide SumOfFour;
    var r4 := Next(Next(Next(Next(r))));
    var r8 := Next(Next(Next(Next(r4))));
    var p8 := Term(c8, Term(c9, Term(c10, Term(c11, End))));
    var p4 := Term(c4, Term(c5, Term(c6, Term(c7, p8))));
    FourTerms(c8, c9, c10, c11, End, r8);
    FourTerms(c4, c5, c6, c7, p8, r4);
    FourTerms(c0, c1, c2, c3, p4, r);
    ActOfEnd(Next(Next(Next(Next(r8)))));
    SumUnits(SumOfFour(Pick(c8, r8), Pick(c9, Next(r8)), Pick(c10, Next(Next(r8))), Pick(c11, Next(Next(Next(r8))))));
  }

  lemma ProductIsThreeSums(a: Reg, b: Reg)
    ensures var b4 := Next(Next(Next(Next(b))));
            var b8 := Next(Next(Next(Next(b4))));
            Product(a, b) == Sum(LowTerms(a, b), Sum(MiddleTerms(a, b4), HighTerms(a, b8)))
  {
    hide Next; hide LowTerms; hide MiddleTerms; hide HighTerms;
  }

  lemma ProductIsAct(a: Reg, b: Reg)
    ensures Product(a, b) == Act(Solve(a), b)
  {
    var b4 := Next(Next(Next(Next(b))));
    var b8 := Next(Next(Next(Next(b4))));
    hide C0; hide C1; hide C2; hide C3; hide C4; hide C5; hide C6; hide C7; hide C8; hide C9; hide C10; hide C11;
    hide Product; hide Act; hide Terms; hide Pick; hide Next; hide Sum; hide SumOfFour;
    ProductIsThreeSums(a, b);
    TwelveTerms(C0(a), C1(a), C2(a), C3(a), C4(a), C5(a), C6(a), C7(a), C8(a), C9(a), C10(a), C11(a), b);
  }

  lemma ActOfEnd(r: Reg)
    ensures Act(End, r) == 0
  {
  }

  lemma UnitIsCyclic(r: Reg)
    ensures Act(Solve(r), UNIT) == r
  {
    hide Act; hide Solve;
    ProductIsAct(r, UNIT);
    ProductWithUnit(r);
  }

  lemma ProductWithUnit(r: Reg)
    ensures Product(r, UNIT) == r
  {
    hide Product;
    Bit11(r);
    Bit10(r);
    Bit9(r);
    Bit8(r);
    Bits7To4(r);
    Bits3To0(r);
    Joins(Product(r, UNIT), r);
  }

  lemma Bit11(r: Reg)
    ensures Product(r, UNIT) & 0x800 == r & 0x800
  {
    UnitSteps();
    hide Next;
  }

  lemma Bit10(r: Reg)
    ensures Product(r, UNIT) & 0x400 == r & 0x400
  {
    UnitSteps();
    hide Next;
  }

  lemma Bit9(r: Reg)
    ensures Product(r, UNIT) & 0x200 == r & 0x200
  {
    UnitSteps();
    hide Next;
  }

  lemma Bit8(r: Reg)
    ensures Product(r, UNIT) & 0x100 == r & 0x100
  {
    UnitSteps();
    hide Next;
  }

  lemma Bits7To4(r: Reg)
    ensures Product(r, UNIT) & 0x0F0 == r & 0x0F0
  {
    UnitSteps();
    hide Next;
  }

  lemma Bits3To0(r: Reg)
    ensures Product(r, UNIT) & 0x00F == r & 0x00F
  {
    UnitSteps();
    hide Next;
  }

  lemma Joins(a: Reg, b: Reg)
    requires a & 0x800 == b & 0x800 && a & 0x400 == b & 0x400 && a & 0x200 == b & 0x200 && a & 0x100 == b & 0x100
    requires a & 0x0F0 == b & 0x0F0 && a & 0x00F == b & 0x00F
    ensures a == b
  {
  }

  lemma UnitSteps()
    ensures Next(UNIT) == 0x400
    ensures Next(0x400) == 0x200
    ensures Next(0x200) == 0x100
    ensures Next(0x100) == 0x880
    ensures Next(0x880) == 0x440
    ensures Next(0x440) == 0x220
    ensures Next(0x220) == 0x110
    ensures Next(0x110) == 0x888
    ensures Next(0x888) == 0x444
    ensures Next(0x444) == 0xA22
    ensures Next(0xA22) == 0xD11
  {
  }

  // The n-th iterate of r, from that of UNIT.
  lemma IterateFromUnit(n: nat, r: Reg)
    ensures Iterate(n, r) == Act(Solve(r), Iterate(n, UNIT))
  {
    hide Act; hide Solve; hide Iterate;
    UnitIsCyclic(r);
    ActOnIterate(Solve(r), n, UNIT);
  }

  // Applying the product is applying one factor after the other, to every register.
  lemma ActOfProduct(a: Reg, b: Reg, r: Reg)
    ensures Act(Solve(Product(a, b)), r) == Act(Solve(a), Act(Solve(b), r))
  {
    hide Act; hide Solve; hide Product;
    var p, q, s, t := Solve(a), Solve(b), Solve(r), Solve(Product(a, b));
    UnitIsCyclic(r);
    UnitIsCyclic(b);
    UnitIsCyclic(Product(a, b));
    ProductIsAct(a, b);
    ActsCommute(t, s, UNIT);
    ActsCommute(q, s, UNIT);
    ActsCommute(p, s, Act(q, UNIT));
  }

  // Iteration counts add where polynomials multiply.
  lemma CountsAdd(m: nat, a: Reg, n: nat, b: Reg, c: Reg)
    requires Iterate(m, UNIT) == a && Iterate(n, UNIT) == b && Product(a, b) == c
    ensures Iterate(m + n, UNIT) == c
  {
    hide Act; hide Solve; hide Product; hide Iterate;
    IterateAdds(n, m, UNIT);
    IterateFromUnit(n, a);
    ProductIsAct(a, b);
  }

  lemma FirstSteps()
    ensures Iterate(1, UNIT) == 0x400 && Iterate(2, UNIT) == 0x200
    ensures Iterate(8, UNIT) == 0x888 && Iterate(12, UNIT) == 0x688
  {
  }

  // Twelve shifts push out every bit: the register is its own recurrence.
  lemma TwelveSteps(r: Reg)
    ensures Iterate(12, r) == Sum(Sum(r, Iterate(1, r)), Sum(Iterate(2, r), Iterate(8, r)))
  {
    var u1, u2, u8, u12: Reg := 0x400, 0x200, 0x888, 0x688;
    FirstSteps();
    assert u12 == Sum(Sum(UNIT, u1), Sum(u2, u8));
    hide Act; hide Solve; hide Iterate; hide Sum;
    var p := Solve(r);
    UnitIsCyclic(r);
    IterateFromUnit(1, r);
    IterateFromUnit(2, r);
    IterateFromUnit(8, r);
    IterateFromUnit(12, r);
    ActOnSum(p, Sum(UNIT, u1), Sum(u2, u8));
    ActOnSum(p, UNIT, u1);
    ActOnSum(p, u2, u8);
  }

  // x^12 modulo the characteristic polynomial x^12 + x^8 + x^2 + x + 1.
  const TAIL :=
    Term(One, Term(One, Term(One, Term(Zero, Term(Zero, Term(Zero,
    Term(Zero, Term(Zero, Term(One, Term(Zero, Term(Zero, Term(Zero, End))))))))))))

  // The step satisfies its characteristic polynomial.
  lemma TailIsSolved()
    ensures Solve(0x688) == TAIL
  {
    hide Act;
  }

  lemma CayleyHamilton(r: Reg)
    ensures Act(TAIL, r) == Iterate(12, r)
  {
    hide Act; hide Solve; hide Iterate;
    TailIsSolved();
    FirstSteps();
    UnitIsCyclic(0x688);
    UnitIsCyclic(r);
    IterateFromUnit(12, r);
    ActsCommute(TAIL, Solve(r), UNIT);
  }

  // ---- UNIT's iterates ---------------------------------------------------------------------

  lemma PowersOfTwo()
    ensures Iterate(2, UNIT) == 0x200
    ensures Iterate(4, UNIT) == 0x880
    ensures Iterate(8, UNIT) == 0x888
    ensures Iterate(16, UNIT) == 0x868
    ensures Iterate(32, UNIT) == 0xECA
    ensures Iterate(64, UNIT) == 0xAC4
    ensures Iterate(128, UNIT) == 0x812
    ensures Iterate(256, UNIT) == 0xB8C
    ensures Iterate(512, UNIT) == 0x2F0
    ensures Iterate(1024, UNIT) == 0xDA0
  {
    hide Iterate;
    FirstSteps();
    assert Iterate(4, UNIT) == 0x880 by { CountsAdd(2, 0x200, 2, 0x200, 0x880); }
    assert Iterate(8, UNIT) == 0x888 by { CountsAdd(4, 0x880, 4, 0x880, 0x888); }
    assert Iterate(16, UNIT) == 0x868 by { CountsAdd(8, 0x888, 8, 0x888, 0x868); }
    assert Iterate(32, UNIT) == 0xECA by { CountsAdd(16, 0x868, 16, 0x868, 0xECA); }
    assert Iterate(64, UNIT) == 0xAC4 by { CountsAdd(32, 0xECA, 32, 0xECA, 0xAC4); }
    assert Iterate(128, UNIT) == 0x812 by { CountsAdd(64, 0xAC4, 64, 0xAC4, 0x812); }
    assert Iterate(256, UNIT) == 0xB8C by { CountsAdd(128, 0x812, 128, 0x812, 0xB8C); }
    assert Iterate(512, UNIT) == 0x2F0 by { CountsAdd(256, 0xB8C, 256, 0xB8C, 0x2F0); }
    assert Iterate(1024, UNIT) == 0xDA0 by { CountsAdd(512, 0x2F0, 512, 0x2F0, 0xDA0); }
  }

  lemma SmallQuotients()
    ensures Iterate(315, UNIT) == 0x103
    ensures Iterate(585, UNIT) == 0x366
  {
    hide Iterate;
    FirstSteps();
    PowersOfTwo();
    assert Iterate(3, UNIT) == 0x100 by { CountsAdd(1, 0x400, 2, 0x200, 0x100); }
    assert Iterate(11, UNIT) == 0xD11 by { CountsAdd(8, 0x888, 3, 0x100, 0xD11); }
    assert Iterate(48, UNIT) == 0x6C2 by { CountsAdd(16, 0x868, 32, 0xECA, 0x6C2); }
    assert Iterate(304, UNIT) == 0xBA3 by { CountsAdd(256, 0xB8C, 48, 0x6C2, 0xBA3); }
    assert Iterate(315, UNIT) == 0x103 by { CountsAdd(304, 0xBA3, 11, 0xD11, 0x103); }
    assert Iterate(9, UNIT) == 0x444 by { CountsAdd(1, 0x400, 8, 0x888, 0x444); }
    assert Iterate(576, UNIT) == 0xD5A by { CountsAdd(64, 0xAC4, 512, 0x2F0, 0xD5A); }
    assert Iterate(585, UNIT) == 0x366 by { CountsAdd(576, 0xD5A, 9, 0x444, 0x366); }
  }

  lemma LargeQuotients()
    ensures Iterate(819, UNIT) == 0xC87
    ensures Iterate(1365, UNIT) == 0x9DE
  {
    hide Iterate;
    FirstSteps();
    PowersOfTwo();
    assert Iterate(3, UNIT) == 0x100 by { CountsAdd(1, 0x400, 2, 0x200, 0x100); }
    assert Iterate(48, UNIT) == 0x6C2 by { CountsAdd(16, 0x868, 32, 0xECA, 0x6C2); }
    assert Iterate(51, UNIT) == 0xAD8 by { CountsAdd(48, 0x6C2, 3, 0x100, 0xAD8); }
    assert Iterate(768, UNIT) == 0x826 by { CountsAdd(256, 0xB8C, 512, 0x2F0, 0x826); }
    assert Iterate(819, UNIT) == 0xC87 by { CountsAdd(768, 0x826, 51, 0xAD8, 0xC87); }
    assert Iterate(5, UNIT) == 0x440 by { CountsAdd(1, 0x400, 4, 0x880, 0x440); }
    assert Iterate(80, UNIT) == 0x5DC by { CountsAdd(16, 0x868, 64, 0xAC4, 0x5DC); }
    assert Iterate(1280, UNIT) == 0x842 by { CountsAdd(256, 0xB8C, 1024, 0xDA0, 0x842); }
    assert Iterate(85, UNIT) == 0x02E by { CountsAdd(80, 0x5DC, 5, 0x440, 0x02E); }
    assert Iterate(1365, UNIT) == 0x9DE by { CountsAdd(1280, 0x842, 85, 0x02E, 0x9DE); }
  }

  lemma UnitTurns()
    ensures Iterate(4095, UNIT) == UNIT
  {
    hide Iterate;
    LargeQuotients();
    assert Iterate(2730, UNIT) == 0x1DE by { CountsAdd(1365, 0x9DE, 1365, 0x9DE, 0x1DE); }
    assert Iterate(4095, UNIT) == UNIT by { CountsAdd(2730, 0x1DE, 1365, 0x9DE, UNIT); }
  }

  // A whole turn of the register.
  lemma WholeTurn(r: Reg)
    ensures Iterate(4095, r) == r
  {
    hide Act; hide Solve; hide Iterate;
    UnitTurns();
    IterateFromUnit(4095, r);
    UnitIsCyclic(r);
  }

  // Where the polynomial x^d + 1 is invertible, only the zero register is unmoved by d steps.
  lemma OnlyZeroReturns(d: nat, v: Reg, u: Reg, r: Reg)
    requires Iterate(d, UNIT) == v && Product(u, Sum(v, UNIT)) == UNIT
    requires Iterate(d, r) == r
    ensures r == 0
  {
    hide Act; hide Solve; hide Product; hide Iterate; hide Sum;
    var p, q := Solve(r), Solve(u);
    UnitIsCyclic(r);
    ProductIsAct(u, Sum(v, UNIT));
    ActsCommute(p, q, Sum(v, UNIT));
    ActOnSum(p, v, UNIT);
    IterateFromUnit(d, r);
    SumUnits(r);
    ActOnZero(q);
  }

  lemma NoShortTurn(d: nat, r: Reg)
    requires d == 315 || d == 585 || d == 819 || d == 1365
    requires Iterate(d, r) == r
    ensures r == 0
  {
    hide Iterate;
    SmallQuotients();
    LargeQuotients();
    if d == 315 {
      OnlyZeroReturns(315, 0x103, 0x690, r);
    } else if d == 585 {
      OnlyZeroReturns(585, 0x366, 0xCBC, r);
    } else if d == 819 {
      OnlyZeroReturns(819, 0xC87, 0xFE4, r);
    } else {
      OnlyZeroReturns(1365, 0x9DE, 0x9DE, r);
    }
  }

  // ---- The period --------------------------------------------------------------------------

  lemma {:induction false} MultiplesReturn(k: nat, n: nat, r: Reg)
    requires Iterate(n, r) == r
    ensures Iterate(k * n, r) == r
  {
    if k > 0 {
      MultiplesReturn(k - 1, n, r);
      IterateAdds(n, (k - 1) * n, r);
      assert n + (k - 1) * n == k * n;
    }
  }

  lemma SplitProduct(n: nat, w: nat, f: nat, e: nat, t: nat, u: nat, q: nat)
    requires w * f == 4095 && n == f * q + n % f && e * (n % f) == f * t + u
    ensures (w * e) * n == 4095 * (e * q + t) + w * u
  {
    var c := n % f;
    calc {
      (w * e) * n;
      (w * e) * (f * q) + (w * e) * c;
      (w * f) * (e * q) + w * (e * c);
      (w * f) * (e * q) + ((w * f) * t + w * u);
    }
  }

  // Where f divides 4095 and e * n is u modulo f, a return after n steps is one after
  // (4095 / f) * u steps.
  lemma ReturnsAt(n: nat, w: nat, f: nat, e: nat, t: nat, u: nat, r: Reg)
    requires w * f == 4095 && f > 0 && e * (n % f) == f * t + u
    requires Iterate(n, r) == r
    ensures Iterate(w * u, r) == r
  {
    hide Iterate;
    var q := n / f;
    SplitProduct(n, w, f, e, t, u, q);
    MultiplesReturn(w * e, n, r);
    WholeTurn(r);
    MultiplesReturn(e * q + t, 4095, r);
    assert (e * q + t) * 4095 == 4095 * (e * q + t);
    IterateAdds(w * u, 4095 * (e * q + t), r);
  }

  lemma NotByNine(n: nat, r: Reg)
    requires Iterate(n, r) == r && n % 9 != 0
    ensures Iterate(1365, r) == r
  {
    hide Iterate;
    var c := n % 9;
    if {
      case c == 1 => ReturnsAt(n, 455, 9, 3, 0, 3, r);
      case c == 2 => ReturnsAt(n, 455, 9, 6, 1, 3, r);
      case c == 3 => ReturnsAt(n, 455, 9, 1, 0, 3, r);
      case c == 4 => ReturnsAt(n, 455, 9, 3, 1, 3, r);
      case c == 5 => ReturnsAt(n, 455, 9, 6, 3, 3, r);
      case c == 6 => ReturnsAt(n, 455, 9, 2, 1, 3, r);
      case c == 7 => ReturnsAt(n, 455, 9, 3, 2, 3, r);
      case c == 8 => ReturnsAt(n, 455, 9, 6, 5, 3, r);
    }
  }

  lemma NotByFive(n: nat, r: Reg)
    requires Iterate(n, r) == r && n % 5 != 0
    ensures Iterate(819, r) == r
  {
    hide Iterate;
    var c := n % 5;
    if {
      case c == 1 => ReturnsAt(n, 819, 5, 1, 0, 1, r);
      case c == 2 => ReturnsAt(n, 819, 5, 3, 1, 1, r);
      case c == 3 => ReturnsAt(n, 819, 5, 2, 1, 1, r);
      case c == 4 => ReturnsAt(n, 819, 5, 4, 3, 1, r);
    }
  }

  lemma NotBySeven(n: nat, r: Reg)
    requires Iterate(n, r) == r && n % 7 != 0
    ensures Iterate(585, r) == r
  {
    hide Iterate;
    var c := n % 7;
    if {
      case c == 1 => ReturnsAt(n, 585, 7, 1, 0, 1, r);
      case c == 2 => ReturnsAt(n, 585, 7, 4, 1, 1, r);
      case c == 3 => ReturnsAt(n, 585, 7, 5, 2, 1, r);
      case c == 4 => ReturnsAt(n, 585, 7, 2, 1, 1, r);
      case c == 5 => ReturnsAt(n, 585, 7, 3, 2, 1, r);
      case c == 6 => ReturnsAt(n, 585, 7, 6, 5, 1, r);
    }
  }

  lemma NotByThirteen(n: nat, r: Reg)
    requires Iterate(n, r) == r && n % 13 != 0
    ensures Iterate(315, r) == r
  {
    hide Iterate;
    var c := n % 13;
    if {
      case c == 1 => ReturnsAt(n, 315, 13, 1, 0, 1, r);
      case c == 2 => ReturnsAt(n, 315, 13, 7, 1, 1, r);
      case c == 3 => ReturnsAt(n, 315, 13, 9, 2, 1, r);
      case c == 4 => ReturnsAt(n, 315, 13, 10, 3, 1, r);
      case c == 5 => ReturnsAt(n, 315, 13, 8, 3, 1, r);
      case c == 6 => ReturnsAt(n, 315, 13, 11, 5, 1, r);
      case c == 7 => ReturnsAt(n, 315, 13, 2, 1, 1, r);
      case c == 8 => ReturnsAt(n, 315, 13, 5, 3, 1, r);
      case c == 9 => ReturnsAt(n, 315, 13, 3, 2, 1, r);
      case c == 10 => ReturnsAt(n, 315, 13, 4, 3, 1, r);
      case c == 11 => ReturnsAt(n, 315, 13, 6, 5, 1, r);
      case c == 12 => ReturnsAt(n, 315, 13, 12, 11, 1, r);
    }
  }

  lemma CommonMultiple(n: int, i: int, j: int, k: int, l: int)
    requires n == 9 * i && n == 5 * j && n == 7 * k && n == 13 * l
    ensures n % 4095 == 0
  {
    MultipleOf4095(3 * (3 * k - 2 * j) - 10 * (3 * l - 2 * i));
  }

  lemma MultipleOf4095(q: int)
    ensures 4095 * q % 4095 == 0
  {
  }

  // Every register but zero comes back after exactly the multiples of 4095 steps.
  lemma ReturnsIff(n: nat, r: Reg)
    requires r != 0
    ensures Iterate(n, r) == r <==> n % 4095 == 0
  {
    hide Iterate;
    if n % 4095 == 0 {
      WholeTurn(r);
      MultiplesReturn(n / 4095, 4095, r);
    } else if Iterate(n, r) == r {
      if n % 9 != 0 {
        NotByNine(n, r);
        NoShortTurn(1365, r);
      } else if n % 5 != 0 {
        NotByFive(n, r);
        NoShortTurn(819, r);
      } else if n % 7 != 0 {
        NotBySeven(n, r);
        NoShortTurn(585, r);
      } else if n % 13 != 0 {
        NotByThirteen(n, r);
        NoShortTurn(315, r);
      } else {
        CommonMultiple(n, n / 9, n / 5, n / 7, n / 13);
      }
    }
  }

  lemma TurnBetween(m: nat, k: nat, r: Reg)
    requires r != 0
    ensures Iterate(m + k, r) == Iterate(m, r) <==> k % 4095 == 0
  {
    hide Iterate;
    IterateAdds(m, k, r);
    ReturnsIff(k, r);
    if Iterate(m, Iterate(k, r)) == Iterate(m, r) {
      IterateIsInjective(m, Iterate(k, r), r);
    }
  }

  // ---- Every register is on the cycle --------------------------------------------------------

  function Code(r: Reg): nat { r as nat }

  lemma CodeIsFaithful(a: Reg, b: Reg)
    ensures Code(a) == Code(b) <==> a == b
    ensures Code(a) < 4096
  {
    assert (a as nat) as bv12 == a && (b as nat) as bv12 == b;
  }

  ghost function Codes(n: nat, r: Reg): set<nat> {
    if n == 0 then {} else Codes(n - 1, r) + {Code(Iterate(n - 1, r))}
  }

  lemma {:induction false} CodesAre(n: nat, r: Reg, c: nat)
    requires c in Codes(n, r)
    ensures exists k: nat :: k < n && c == Code(Iterate(k, r))
  {
    hide Iterate; hide Code;
    if c != Code(Iterate(n - 1, r)) {
      CodesAre(n - 1, r, c);
    }
  }

  lemma {:induction false} CodesAreDistinct(n: nat, r: Reg)
    requires r != 0 && n <= 4095
    ensures |Codes(n, r)| == n
  {
    hide Iterate; hide Code;
    if n > 0 {
      CodesAreDistinct(n - 1, r);
      var c := Code(Iterate(n - 1, r));
      if c in Codes(n - 1, r) {
        CodesAre(n - 1, r, c);
        var k: nat :| k < n - 1 && c == Code(Iterate(k, r));
        CodeIsFaithful(Iterate(k, r), Iterate(n - 1, r));
        TurnBetween(k, n - 1 - k, r);
      }
    }
  }

  ghost function UpTo(n: nat): (s: set<nat>)
    ensures |s| == n && forall c: nat :: c in s <==> 0 < c <= n
  {
    if n == 0 then {} else UpTo(n - 1) + {n}
  }

  lemma NonZeroCode(r: Reg)
    requires r != 0
    ensures Code(r) in UpTo(4095)
  {
    CodeIsFaithful(r, 0);
    assert Code(0) == 0;
    hide Code; hide UpTo;
  }

  // 4095 distinct codes among 1 .. 4095 are all of them.
  lemma EveryRegisterIsReached(r: Reg, goal: Reg) returns (n: nat)
    requires r != 0 && goal != 0
    ensures n < 4095 && Iterate(n, r) == goal
  {
    hide Iterate; hide Code; hide Codes; hide UpTo;
    var codes, all := Codes(4095, r), UpTo(4095);
    CodesAreDistinct(4095, r);
    forall c | c in codes ensures c in all {
      CodesAre(4095, r, c);
      var k: nat :| k < 4095 && c == Code(Iterate(k, r));
      ZeroStaysZero(k, r);
      NonZeroCode(Iterate(k, r));
    }
    assert codes * all == codes && |all - codes| == 0;
    NonZeroCode(goal);
    assert Code(goal) in codes;
    CodesAre(4095, r, Code(goal));
    n :| n < 4095 && Code(goal) == Code(Iterate(n, r));
    CodeIsFaithful(goal, Iterate(n, r));
  }

  // ---- What the driver's words do ----------------------------------------------------------

  lemma {:induction false} TestWordIsIterate(n: nat, seed: bv16)
    requires Is12Bit(seed)
    ensures Is12Bit(TestWord(n, seed)) && TestWord(n, seed) == Wide(Iterate(n, Low(seed)))
  {
    hide Is12Bit; hide Low; hide Wide; hide Next; hide NextTestWord;
    if n > 0 {
      TestWordIsIterate(n - 1, seed);
      NextTestWordShifts(TestWord(n - 1, seed));
      LowOfWide(Iterate(n - 1, Low(seed)));
    } else {
      WideOfLow(seed);
    }
  }

  function SumOfWords(a: bv16, b: bv16): bv16 { a ^ b }

  lemma NextTestWordIsLinear(a: bv16, b: bv16)
    requires Is12Bit(a) && Is12Bit(b)
    ensures NextTestWord(SumOfWords(a, b)) == SumOfWords(NextTestWord(a), NextTestWord(b)) && Is12Bit(SumOfWords(a, b))
  {
  }

  // The words stay within 12 bits, and the n-th word of a sum is the sum of the n-th words.
  lemma {:induction false} TestWordIsLinear(n: nat, a: bv16, b: bv16)
    requires Is12Bit(a) && Is12Bit(b)
    ensures Is12Bit(TestWord(n, a)) && TestWord(n, SumOfWords(a, b)) == SumOfWords(TestWord(n, a), TestWord(n, b))
  {
    hide Is12Bit; hide NextTestWord; hide SumOfWords;
    if n > 0 {
      TestWordIsLinear(n - 1, a, b);
      TestWordIsLinear(n - 1, b, a);
      NextTestWordIsLinear(TestWord(n - 1, a), TestWord(n - 1, b));
    }
    TestWordIsIterate(n, a);
  }

  lemma LowIsFaithful(a: bv16, b: bv16)
    requires Is12Bit(a) && Is12Bit(b)
    ensures Low(a) == Low(b) <==> a == b
    ensures Low(a) == 0 <==> a == 0
  {
  }

  // Two test words from one non-zero seed agree exactly when their indices do modulo 4095.
  lemma PeriodIs4095(m: nat, n: nat, seed: bv16)
    requires Is12Bit(seed) && seed != 0
    ensures TestWord(m, seed) == TestWord(n, seed) <==> m % 4095 == n % 4095
  {
    hide Is12Bit; hide Low; hide Wide; hide Iterate; hide TestWord;
    LowIsFaithful(seed, seed);
    TestWordIsIterate(m, seed);
    TestWordIsIterate(n, seed);
    LowOfWide(Iterate(m, Low(seed)));
    LowOfWide(Iterate(n, Low(seed)));
    if m <= n {
      TurnBetween(m, n - m, Low(seed));
    } else {
      TurnBetween(n, m - n, Low(seed));
    }
  }

  // From any non-zero seed, hence from the driver's seed 1, the words run through every
  // non-zero 12-bit word.
  lemma EveryWordIsReached(seed: bv16, goal: bv16)
    requires Is12Bit(seed) && seed != 0 && Is12Bit(goal) && goal != 0
    ensures exists n: nat :: n < 4095 && TestWord(n, seed) == goal
  {
    hide Is12Bit; hide Low; hide Wide; hide Iterate; hide TestWord;
    LowIsFaithful(seed, seed);
    LowIsFaithful(goal, goal);
    var n := EveryRegisterIsReached(Low(seed), Low(goal));
    TestWordIsIterate(n, seed);
    WideOfLow(goal);
    assert n < 4095 && TestWord(n, seed) == goal;
  }
}
