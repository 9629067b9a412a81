// crc32.c: polynomials over GF(2) of degree less than 32, modulo the CRC
// polynomial p(x) (section 8 of RFC 1952). Bit 31 of a word is the coefficient
// of x^0 and bit 0 that of x^31: sums are exclusive-ors, and a product with x
// shifts right and adds POLY, which is x^32, when bit 0 was set.
module Polynomial {
  import opened Bits

  const POLY: bv32 := 0xedb88320

  // The polynomials 1 and x.
  const ONE: bv32 := 0x8000_0000
  const X: bv32 := 0x4000_0000

  function Add(a: bv32, b: bv32): bv32 {
    a ^ b
  }

  // Division and multiplication by x without regard to p(x).
  function Up(a: bv32): bv32 {
    a << 1
  }

  function Down(a: bv32): bv32 {
    a >> 1
  }

  // The coefficients of x^31 and of 1.
  predicate Odd(a: bv32) {
    a & 1 == 1
  }

  predicate Top(a: bv32) {
    a & 0x8000_0000 == 0x8000_0000
  }

  // Multiply by x.
  function TimesX(b: bv32): bv32 {
    if Odd(b) then Add(Down(b), POLY) else Down(b)
  }

  // Multiply by x^n.
  function TimesXn(b: bv32, n: nat): bv32
    decreases n
  {
    if n == 0 then b else TimesXn(TimesX(b), n - 1)
  }

  // The sum of b x^i over the powers x^i, i < k, of a.
  function Product(a: bv32, b: bv32, k: nat): bv32
    decreases k
  {
    if k == 0 then 0 else Add(Term(a, b), Product(Up(a), TimesX(b), k - 1))
  }

  function Term(a: bv32, b: bv32): bv32 {
    if Top(a) then b else 0
  }

  // a(x) b(x) modulo p(x).
  function Times(a: bv32, b: bv32): bv32 {
    Product(a, b, 32)
  }

  // ---- Adding ----

  lemma AddSwap(a: bv32, b: bv32)
    ensures Add(a, b) == Add(b, a)
  {
  }

  lemma AddAssoc(a: bv32, b: bv32, c: bv32)
    ensures Add(Add(a, b), c) == Add(a, Add(b, c))
  {
  }

  lemma AddZero(a: bv32)
    ensures Add(a, 0) == a && Add(0, a) == a && Add(a, a) == 0
  {
  }

  lemma AddCancel(a: bv32, b: bv32)
    ensures Add(a, b) == b ==> a == 0
    ensures Add(Add(a, b), b) == a
  {
  }

  lemma AddFour(a: bv32, b: bv32, c: bv32, d: bv32)
    ensures Add(Add(a, b), Add(c, d)) == Add(Add(a, c), Add(b, d))
  {
    hide Add;
    AddAssoc(a, b, Add(c, d));
    AddAssoc(b, c, d);
    AddSwap(b, c);
    AddAssoc(c, b, d);
    AddAssoc(a, c, Add(b, d));
  }

  lemma ShiftAdds(a: bv32, b: bv32)
    ensures Up(Add(a, b)) == Add(Up(a), Up(b)) && Down(Add(a, b)) == Add(Down(a), Down(b))
  {
  }

  lemma EndsAdd(a: bv32, b: bv32)
    ensures Odd(Add(a, b)) <==> Odd(a) != Odd(b)
    ensures Top(Add(a, b)) <==> Top(a) != Top(b)
  {
  }

  lemma ZeroShifts()
    ensures Up(0) == 0 && Down(0) == 0 && !Odd(0) && !Top(0) && TimesX(0) == 0
  {
  }

  // ---- Multiplying by x ----

  lemma TimesXAdds(a: bv32, b: bv32)
    ensures TimesX(Add(a, b)) == Add(TimesX(a), TimesX(b))
  {
    hide Add, Down, Odd;
    EndsAdd(a, b);
    ShiftAdds(a, b);
    AddFour(Down(a), POLY, Down(b), POLY);
    AddZero(POLY);
    AddZero(Add(Down(a), Down(b)));
    AddAssoc(Down(a), Down(b), POLY);
    AddAssoc(Down(a), POLY, Down(b));
    AddSwap(Down(b), POLY);
  }

  lemma {:induction false} TimesXnAdds(a: bv32, b: bv32, n: nat)
    ensures TimesXn(Add(a, b), n) == Add(TimesXn(a, n), TimesXn(b, n))
    decreases n
  {
    hide Add, TimesX;
    if n > 0 {
      TimesXAdds(a, b);
      TimesXnAdds(TimesX(a), TimesX(b), n - 1);
    }
  }

  lemma {:induction false} TimesXnSum(b: bv32, m: nat, n: nat)
    ensures TimesXn(TimesXn(b, m), n) == TimesXn(b, m + n)
    decreases m
  {
    hide TimesX;
    if m > 0 { TimesXnSum(TimesX(b), m - 1, n); }
  }

  lemma XThenXn(b: bv32, n: nat)
    ensures TimesXn(TimesX(b), n) == TimesX(TimesXn(b, n)) == TimesXn(b, n + 1)
  {
    hide TimesX;
    TimesXnSum(b, n, 1);
    assert TimesXn(TimesXn(b, n), 1) == TimesXn(TimesX(TimesXn(b, n)), 0);
  }

  lemma {:induction false} TimesXnZero(n: nat)
    ensures TimesXn(0, n) == 0
  {
    ZeroShifts();
    hide TimesX;
    if n > 0 { TimesXnZero(n - 1); }
  }

  // No power of x is a multiple of p(x).
  lemma TimesXInjective(a: bv32)
    ensures TimesX(a) == 0 ==> a == 0
  {
  }

  lemma {:induction false} TimesXnInjective(a: bv32, n: nat)
    ensures TimesXn(a, n) == 0 ==> a == 0
    decreases n
  {
    hide TimesX;
    if n > 0 {
      TimesXnInjective(TimesX(a), n - 1);
      TimesXInjective(a);
    }
  }

  lemma XnNonZero(n: nat)
    ensures TimesXn(ONE, n) != 0
  {
    TimesXnInjective(ONE, n);
  }

  // ---- The product is linear in both factors, and commutes with x ----

  lemma TermAdds(a: bv32, c: bv32, b: bv32)
    ensures Term(Add(a, c), b) == Add(Term(a, b), Term(c, b))
    ensures Up(Add(a, c)) == Add(Up(a), Up(c))
  {
    hide Add, Top, Up;
    EndsAdd(a, c);
    ShiftAdds(a, c);
    AddZero(b);
    AddZero(0);
  }

  lemma {:induction false} ProductAddsLeft(a: bv32, c: bv32, b: bv32, k: nat)
    ensures Product(Add(a, c), b, k) == Add(Product(a, b, k), Product(c, b, k))
    decreases k
  {
    hide Add, Up, Term, TimesX;
    if k > 0 {
      TermAdds(a, c, b);
      ProductAddsLeft(Up(a), Up(c), TimesX(b), k - 1);
      AddFour(Term(a, b), Term(c, b), Product(Up(a), TimesX(b), k - 1), Product(Up(c), TimesX(b), k - 1));
    } else {
      AddZero(0);
    }
  }

  lemma TermRight(a: bv32, b: bv32, c: bv32)
    ensures Term(a, Add(b, c)) == Add(Term(a, b), Term(a, c))
    ensures Term(a, TimesX(b)) == TimesX(Term(a, b))
    ensures Term(a, b) == 0 || Term(a, b) == b
  {
    hide Add, Top, TimesX;
    AddZero(0);
    ZeroShifts();
  }

  lemma {:induction false} ProductAddsRight(a: bv32, b: bv32, c: bv32, k: nat)
    ensures Product(a, Add(b, c), k) == Add(Product(a, b, k), Product(a, c, k))
    decreases k
  {
    hide Add, Up, Term, TimesX;
    if k > 0 {
      TimesXAdds(b, c);
      ProductAddsRight(Up(a), TimesX(b), TimesX(c), k - 1);
      TermRight(a, b, c);
      AddFour(Term(a, b), Term(a, c), Product(Up(a), TimesX(b), k - 1), Product(Up(a), TimesX(c), k - 1));
    } else {
      AddZero(0);
    }
  }

  lemma {:induction false} ProductX(a: bv32, b: bv32, k: nat)
    ensures Product(a, TimesX(b), k) == TimesX(Product(a, b, k))
    decreases k
  {
    hide Add, Up, Term, TimesX;
    if k > 0 {
      TermRight(a, b, 0);
      ProductX(Up(a), TimesX(b), k - 1);
      TimesXAdds(Term(a, b), Product(Up(a), TimesX(b), k - 1));
    } else {
      ZeroShifts();
    }
  }

  lemma {:induction false} ProductXn(a: bv32, b: bv32, n: nat, k: nat)
    ensures Product(a, TimesXn(b, n), k) == TimesXn(Product(a, b, k), n)
    decreases n
  {
    hide TimesX, Product;
    if n > 0 {
      ProductXn(a, TimesX(b), n - 1, k);
      ProductX(a, b, k);
    }
  }

  lemma TimesZero(a: bv32)
    ensures Times(a, 0) == 0
  {
    hide Add, Product;
    AddZero(0);
    ProductAddsRight(a, 0, 0, 32);
    AddZero(Product(a, 0, 32));
  }

  lemma {:induction false} ZeroTimes(b: bv32, k: nat)
    ensures Product(0, b, k) == 0
    decreases k
  {
    ZeroShifts();
    AddZero(0);
    hide Add, Up, TimesX;
    if k > 0 { ZeroTimes(TimesX(b), k - 1); }
  }

  // ---- Every polynomial is the sum of its powers ----

  function ShiftRight(a: bv32, n: nat): bv32
    decreases n
  {
    if n == 0 then a else ShiftRight(Down(a), n - 1)
  }

  lemma {:induction false} ShiftRightAdds(a: bv32, b: bv32, n: nat)
    ensures ShiftRight(Add(a, b), n) == Add(ShiftRight(a, n), ShiftRight(b, n))
    decreases n
  {
    hide Add, Down;
    if n > 0 {
      ShiftAdds(a, b);
      ShiftRightAdds(Down(a), Down(b), n - 1);
    }
  }

  lemma {:induction false} ShiftRightSum(a: bv32, m: nat, n: nat)
    ensures ShiftRight(ShiftRight(a, m), n) == ShiftRight(a, m + n)
    decreases m
  {
    hide Down;
    if m > 0 { ShiftRightSum(Down(a), m - 1, n); }
  }

  // x^n, for n < 32.
  function Power(n: nat): bv32 {
    ShiftRight(ONE, n)
  }

  lemma PowerNext(n: nat)
    ensures Power(n + 1) == Down(Power(n))
  {
    hide Down;
    ShiftRightSum(ONE, n, 1);
    assert ShiftRight(Power(n), 1) == ShiftRight(Down(Power(n)), 0);
  }

  // While 1 has not been shifted out, nothing is reduced.
  lemma PowerValue(n: nat, v: bv32)
    requires Power(n) == v && v & 1 == 0
    ensures Power(n + 1) == v >> 1 && Down(v) == v >> 1 && TimesX(v) == v >> 1
  {
    hide ShiftRight;
    PowerNext(n);
  }

  lemma PowersTo8()
    ensures Power(0) == 0x8000_0000 && Power(8) == 0x0080_0000
    ensures forall i :: 0 <= i < 8 ==> !Odd(Power(i))
  {
    assert Power(0) == ONE;
    hide ShiftRight;
    PowerValue(0, 0x8000_0000);
    PowerValue(1, 0x4000_0000);
    PowerValue(2, 0x2000_0000);
    PowerValue(3, 0x1000_0000);
    PowerValue(4, 0x0800_0000);
    PowerValue(5, 0x0400_0000);
    PowerValue(6, 0x0200_0000);
    PowerValue(7, 0x0100_0000);
  }

  lemma PowersTo16()
    ensures Power(16) == 0x0000_8000
    ensures forall i :: 8 <= i < 16 ==> !Odd(Power(i))
  {
    PowersTo8();
    hide ShiftRight;
    PowerValue(8, 0x0080_0000);
    PowerValue(9, 0x0040_0000);
    PowerValue(10, 0x0020_0000);
    PowerValue(11, 0x0010_0000);
    PowerValue(12, 0x0008_0000);
    PowerValue(13, 0x0004_0000);
    PowerValue(14, 0x0002_0000);
    PowerValue(15, 0x0001_0000);
  }

  lemma PowersTo24()
    ensures Power(24) == 0x0000_0080
    ensures forall i :: 16 <= i < 24 ==> !Odd(Power(i))
  {
    PowersTo16();
    hide ShiftRight;
    PowerValue(16, 0x0000_8000);
    PowerValue(17, 0x0000_4000);
    PowerValue(18, 0x0000_2000);
    PowerValue(19, 0x0000_1000);
    PowerValue(20, 0x0000_0800);
    PowerValue(21, 0x0000_0400);
    PowerValue(22, 0x0000_0200);
    PowerValue(23, 0x0000_0100);
  }

  lemma PowersTo31()
    ensures Power(31) == 1
    ensures forall i :: 24 <= i < 31 ==> !Odd(Power(i))
  {
    PowersTo24();
    hide ShiftRight;
    PowerValue(24, 0x0000_0080);
    PowerValue(25, 0x0000_0040);
    PowerValue(26, 0x0000_0020);
    PowerValue(27, 0x0000_0010);
    PowerValue(28, 0x0000_0008);
    PowerValue(29, 0x0000_0004);
    PowerValue(30, 0x0000_0002);
  }

  lemma PowerEven(n: nat)
    requires n < 31
    ensures !Odd(Power(n)) && Power(n + 1) == Down(Power(n)) == TimesX(Power(n))
  {
    PowersTo8();
    PowersTo16();
    PowersTo24();
    PowersTo31();
    hide Odd, Power, Down;
    PowerNext(n);
  }

  lemma EvenBack(a: bv32)
    ensures !Odd(a) ==> Up(Down(a)) == a
    ensures !Top(Down(a))
  {
  }

  lemma TopApart(a: bv32)
    ensures a == Add(Term(a, ONE), Down(Up(a)))
  {
    TopBit(a);
    AddZero(Down(Up(a)));
    hide Add, Up, Down, Top;
  }

  lemma TopBit(a: bv32)
    ensures Top(a) ==> a == Add(ONE, Down(Up(a)))
    ensures !Top(a) ==> a == Down(Up(a))
  {
  }

  lemma {:induction false} ShiftRightZero(n: nat)
    ensures ShiftRight(0, n) == 0
  {
    ZeroShifts();
    hide Down;
    if n > 0 { ShiftRightZero(n - 1); }
  }

  lemma ShiftRightTop(a: bv32, n: nat)
    ensures ShiftRight(a, n) == Add(Term(a, Power(n)), ShiftRight(Up(a), n + 1))
  {
    TopApart(a);
    ShiftRightZero(n);
    hide Add, Up, Down, Top;
    ShiftRightAdds(Term(a, ONE), Down(Up(a)), n);
  }

  function Down4(a: bv32): bv32 {
    a >> 4
  }

  function Down8(a: bv32): bv32 {
    a >> 8
  }

  lemma DownShifts(a: bv32)
    ensures Down(Down(Down(Down(a)))) == Down4(a) && Down4(Down4(a)) == Down8(a)
    ensures Down8(Down8(Down8(Down8(a)))) == 0
  {
  }

  lemma ShiftedBy8(a: bv32)
    ensures ShiftRight(a, 8) == Down8(a)
  {
    DownShifts(a);
    hide Down, Down4, Down8;
    ShiftedBy4(a);
    ShiftedBy4(Down4(a));
    ShiftRightSum(a, 4, 4);
  }

  lemma ShiftedBy4(a: bv32)
    ensures ShiftRight(a, 4) == Down4(a)
  {
    DownShifts(a);
    hide Down, Down4, Down8;
    assert ShiftRight(a, 4) == ShiftRight(Down(a), 3) == ShiftRight(Down(Down(a)), 2);
    assert ShiftRight(Down(Down(a)), 2) == ShiftRight(Down(Down(Down(a))), 1) == Down(Down(Down(Down(a))));
  }

  lemma AllShiftedOut(a: bv32)
    ensures ShiftRight(a, 32) == 0
  {
    DownShifts(a);
    hide Down, Down4, Down8, ShiftRight;
    var b, c, d := Down8(a), Down8(Down8(a)), Down8(Down8(Down8(a)));
    ShiftedBy8(a);
    ShiftedBy8(b);
    ShiftedBy8(c);
    ShiftedBy8(d);
    ShiftRightSum(a, 8, 24);
    ShiftRightSum(b, 8, 16);
    ShiftRightSum(c, 8, 8);
  }

  // a is the sum of its powers, by Horner's rule from the top.
  lemma {:induction false} SumOfPowers(a: bv32, n: nat)
    requires n < 32
    ensures Product(a, Power(n), 32 - n) == ShiftRight(a, n)
    decreases 32 - n
  {
    hide Add, Up, Down, Term, TimesX, Power, ShiftRight;
    ShiftRightTop(a, n);
    if n < 31 {
      PowerEven(n);
      SumOfPowers(Up(a), n + 1);
    } else {
      AllShiftedOut(Up(a));
      assert Product(a, Power(31), 1) == Add(Term(a, Power(31)), Product(Up(a), TimesX(Power(31)), 0));
    }
  }

  // 1 is neutral.
  lemma TimesOne(a: bv32)
    ensures Times(a, ONE) == a
  {
    SumOfPowers(a, 0);
    assert Power(0) == ONE && ShiftRight(a, 0) == a;
  }

  // ---- x^32 is POLY modulo p(x), wherever it appears ----

  lemma {:induction false} XToPower(n: nat)
    requires n < 32
    ensures TimesXn(ONE, n) == Power(n)
  {
    if n > 0 {
      hide TimesX, Power;
      XToPower(n - 1);
      PowerEven(n - 1);
      XThenXn(ONE, n - 1);
    } else {
      assert Power(0) == ONE;
    }
  }

  lemma XTo32()
    ensures TimesXn(ONE, 32) == POLY
  {
    assert TimesX(1) == POLY;
    hide TimesX, Power;
    XToPower(31);
    PowersTo31();
    XThenXn(ONE, 31);
  }

  // Multiplying by POLY is multiplying by x^32: so it is for 1, and so for all
  // its multiples by powers of x, and their sums.
  lemma {:induction false} PolyTimes(a: bv32, c: bv32, k: nat)
    requires Times(POLY, c) == TimesXn(c, 32)
    ensures Times(POLY, Product(a, c, k)) == TimesXn(Product(a, c, k), 32)
    decreases k
  {
    hide Add, Up, Term, TimesX, TimesXn, Times, Product;
    if k > 0 {
      OneMore(a, c, k);
      TimesTimesX(POLY, c);
      XThenXn(c, 32);
      PolyTerm(a, c);
      TimesSum(POLY, Term(a, c), Product(Up(a), TimesX(c), k - 1));
      TimesXnAdds(Term(a, c), Product(Up(a), TimesX(c), k - 1), 32);
      PolyTimes(Up(a), TimesX(c), k - 1);
    } else {
      NoTerms(a, c);
      TimesZero(POLY);
      TimesXnZero(32);
    }
  }

  lemma PolyTerm(a: bv32, c: bv32)
    requires Times(POLY, c) == TimesXn(c, 32)
    ensures Times(POLY, Term(a, c)) == TimesXn(Term(a, c), 32)
  {
    hide Product, TimesXn;
    TimesZero(POLY);
    TimesXnZero(32);
  }

  lemma OneMore(a: bv32, c: bv32, k: nat)
    requires k > 0
    ensures Product(a, c, k) == Add(Term(a, c), Product(Up(a), TimesX(c), k - 1))
  {
  }

  lemma TimesPoly(b: bv32)
    ensures Times(POLY, b) == TimesXn(b, 32)
  {
    hide Product, TimesXn;
    TimesOne(POLY);
    XTo32();
    TimesOne(b);
    PolyTimes(b, ONE, 32);
    TimesIsProduct(b, ONE);
  }

  // ---- Multiplying the first factor by x ----

  lemma {:induction false} PowerProduct(n: nat, b: bv32, k: nat)
    requires n < 32 && n < k
    ensures Product(Power(n), b, k) == TimesXn(b, n)
    decreases n
  {
    if n == 0 {
      assert Power(0) == ONE && Top(ONE) && Up(ONE) == 0;
      hide Add, Up, TimesX, Top;
      ZeroTimes(TimesX(b), k - 1);
      AddZero(b);
      OneMore(ONE, b, k);
    } else {
      hide Add, Up, Down, TimesX, Top, Odd, Power;
      PowerEven(n - 1);
      EvenBack(Power(n - 1));
      PowerProduct(n - 1, TimesX(b), k - 1);
      AddZero(Product(Power(n - 1), TimesX(b), k - 1));
      OneMore(Power(n), b, k);
    }
  }

  // The last of 32 terms is that of x^31.
  lemma {:induction false} ProductLast(a: bv32, b: bv32, k: nat)
    ensures Product(a, b, k + 1) == Add(Product(a, b, k), Term(ShiftLeft(a, k), TimesXn(b, k)))
    decreases k
  {
    hide Add, Up, Term, TimesX;
    if k > 0 {
      ProductLast(Up(a), TimesX(b), k - 1);
      AddAssoc(Term(a, b), Product(Up(a), TimesX(b), k - 1), Term(ShiftLeft(a, k), TimesXn(b, k)));
    } else {
      AddZero(Term(a, b));
      OneMore(a, b, 1);
    }
  }

  function ShiftLeft(a: bv32, n: nat): bv32
    decreases n
  {
    if n == 0 then a else ShiftLeft(Up(a), n - 1)
  }

  lemma {:induction false} ShiftLeftSum(a: bv32, m: nat, n: nat)
    ensures ShiftLeft(ShiftLeft(a, m), n) == ShiftLeft(a, m + n)
    decreases m
  {
    hide Up;
    if m > 0 { ShiftLeftSum(Up(a), m - 1, n); }
  }

  function Up4(a: bv32): bv32 {
    a << 4
  }

  function Up8(a: bv32): bv32 {
    a << 8
  }

  function Up16(a: bv32): bv32 {
    a << 16
  }

  lemma UpBy4(a: bv32)
    ensures Up(Up(Up(Up(a)))) == Up4(a)
  {
  }

  lemma UpBy8(a: bv32)
    ensures Up4(Up4(a)) == Up8(a)
  {
  }

  lemma UpBy16(a: bv32)
    ensures Up8(Up8(a)) == Up16(a)
  {
  }

  lemma ShiftLeftBy4(a: bv32)
    ensures ShiftLeft(a, 4) == Up4(a) && ShiftLeft(a, 3) == Up(Up(Up(a)))
  {
    UpBy4(a);
    hide Up, Up4;
    assert ShiftLeft(a, 4) == ShiftLeft(Up(a), 3) && ShiftLeft(a, 3) == ShiftLeft(Up(a), 2);
    assert ShiftLeft(Up(a), 3) == ShiftLeft(Up(Up(a)), 2) && ShiftLeft(Up(a), 2) == ShiftLeft(Up(Up(a)), 1);
    assert ShiftLeft(Up(Up(a)), 2) == ShiftLeft(Up(Up(Up(a))), 1) == Up(Up(Up(Up(a))));
  }

  lemma ShiftLeftBy8(a: bv32)
    ensures ShiftLeft(a, 8) == Up8(a)
  {
    UpBy8(a);
    hide Up, Up4, Up8, Up16, ShiftLeft;
    ShiftLeftBy4(a);
    ShiftLeftBy4(Up4(a));
    ShiftLeftSum(a, 4, 4);
  }

  // Shifting by 31 leaves the lowest coefficient on top.
  lemma ShiftLeftBy31(a: bv32)
    ensures Top(ShiftLeft(a, 31)) <==> Odd(a)
  {
    LastOnTop(a);
    hide Up, Up4, Up8, Up16, Top, Odd, ShiftLeft;
    var b, c, d := Up8(a), Up8(Up8(a)), Up8(Up8(Up8(a)));
    ShiftLeftBy8(a);
    ShiftLeftBy8(b);
    ShiftLeftBy8(c);
    ShiftLeftBy4(d);
    ShiftLeftBy4(Up4(d));
    ShiftLeftSum(a, 8, 23);
    ShiftLeftSum(b, 8, 15);
    ShiftLeftSum(c, 8, 7);
    ShiftLeftSum(d, 4, 3);
  }

  lemma LastOnTop(a: bv32)
    ensures Top(Up(Up(Up(Up4(Up8(Up8(Up8(a)))))))) <==> Odd(a)
  {
  }

  lemma LastTerm(a: bv32, b: bv32)
    ensures Product(a, b, 32) == Add(Product(a, b, 31), if Odd(a) then TimesXn(b, 31) else 0)
  {
    ShiftLeftBy31(a);
    hide Add, Product, TimesXn, ShiftLeft, Odd, Top;
    ProductLast(a, b, 31);
  }

  // x^31 alone contributes nothing to the first 31 terms.
  lemma X31Product(b: bv32)
    ensures Product(1, b, 31) == 0
  {
    assert Odd(1);
    hide Product, TimesXn, Add;
    PowersTo31();
    LastTerm(1, b);
    PowerProduct(31, b, 32);
    AddCancel(Product(1, b, 31), TimesXn(b, 31));
  }

  lemma LowApart(a: bv32)
    ensures a == Add(Up(Down(a)), if Odd(a) then 1 else 0) && !Top(Down(a))
  {
  }

  lemma TimesXLeft(a: bv32, b: bv32)
    ensures Times(TimesX(a), b) == TimesX(Times(a, b))
  {
    var h := Down(a);
    LowApart(a);
    DownProduct(h, b);
    ProductX(a, b, 32);
    LastTerm(a, TimesX(b));
    TimesPoly(b);
    X31Product(TimesX(b));
    assert TimesXn(b, 32) == TimesXn(TimesX(b), 31);
    hide Add, Up, Down, Odd, Top, Product, TimesXn;
    ProductAddsLeft(Up(h), 1, TimesX(b), 31);
    ProductAddsLeft(h, POLY, b, 32);
    AddZero(Product(Up(h), TimesX(b), 31));
    AddZero(Up(h));
  }

  // Without a coefficient of 1 there is no first term.
  lemma DownProduct(h: bv32, b: bv32)
    requires !Top(h)
    ensures Product(h, b, 32) == Product(Up(h), TimesX(b), 31)
  {
    hide Add, Up, TimesX, Top;
    OneMore(h, b, 32);
    AddZero(Product(Up(h), TimesX(b), 31));
  }

  // Multiplying by the polynomial x^n is multiplying by x n times.
  lemma {:induction false} TimesXnLeft(a: bv32, n: nat, b: bv32)
    ensures Times(TimesXn(a, n), b) == TimesXn(Times(a, b), n)
    decreases n
  {
    hide Times, TimesX;
    if n > 0 {
      TimesXLeft(a, b);
      TimesXnLeft(TimesX(a), n - 1, b);
    }
  }

  lemma OneTimes(b: bv32)
    ensures Times(ONE, b) == b
  {
    assert Power(0) == ONE;
    PowerProduct(0, b, 32);
  }

  lemma XnTimes(n: nat, b: bv32)
    ensures Times(TimesXn(ONE, n), b) == TimesXn(b, n)
  {
    hide Times;
    TimesXnLeft(ONE, n, b);
    OneTimes(b);
  }

  // ---- The product is commutative ----

  // b times a sum of multiples of c is the sum of the multiples of b c.
  lemma {:induction false} SumTimes(a: bv32, c: bv32, b: bv32, k: nat)
    ensures Times(b, Product(a, c, k)) == Product(a, Times(b, c), k)
    decreases k
  {
    hide Add, Up, Term, TimesX, Times, Product;
    if k > 0 {
      OneMore(a, c, k);
      OneMore(a, Times(b, c), k);
      TermOfProduct(a, b, c);
      TimesSum(b, Term(a, c), Product(Up(a), TimesX(c), k - 1));
      TimesTimesX(b, c);
      SumTimes(Up(a), TimesX(c), b, k - 1);
    } else {
      TimesZero(b);
      NoTerms(a, c);
      NoTerms(a, Times(b, c));
    }
  }

  lemma NoTerms(a: bv32, c: bv32)
    ensures Product(a, c, 0) == 0
  {
  }

  lemma TimesSum(a: bv32, b: bv32, c: bv32)
    ensures Times(a, Add(b, c)) == Add(Times(a, b), Times(a, c))
  {
    hide Add, Product;
    ProductAddsRight(a, b, c, 32);
  }

  lemma TimesTimesX(a: bv32, b: bv32)
    ensures Times(a, TimesX(b)) == TimesX(Times(a, b))
  {
    hide TimesX, Product;
    ProductX(a, b, 32);
  }

  lemma TermOfProduct(a: bv32, b: bv32, c: bv32)
    ensures Times(b, Term(a, c)) == Term(a, Times(b, c))
  {
    hide Product;
    TimesZero(b);
  }

  lemma Commutes(a: bv32, b: bv32)
    ensures Times(a, b) == Times(b, a)
  {
    hide Product;
    TimesOne(a);
    TimesOne(b);
    SumTimes(a, ONE, b, 32);
  }

  // ---- x^(2^32) is x modulo p(x) ----

  // Squaring takes the sum of powers x^i to the sum of the x^(2 i): the mixed
  // terms come in pairs. SquareSum(a, c, k) is the sum of c x^(2 i) over the
  // powers x^i, i < k, of a.
  function SquareSum(a: bv32, c: bv32, k: nat): bv32
    decreases k
  {
    if k == 0 then 0 else Add(Term(a, c), SquareSum(Up(a), TimesX(TimesX(c)), k - 1))
  }

  lemma SquareAdds(a: bv32, b: bv32)
    ensures Times(Add(a, b), Add(a, b)) == Add(Times(a, a), Times(b, b))
  {
    hide Add, Product;
    ProductAddsLeft(a, b, Add(a, b), 32);
    TimesSum(a, a, b);
    TimesSum(b, a, b);
    Commutes(a, b);
    var p, q, r := Times(a, a), Times(a, b), Times(b, b);
    AddSwap(q, r);
    AddFour(p, q, r, q);
    AddZero(q);
    AddZero(Add(p, r));
  }

  lemma {:induction false} SquareOfSum(a: bv32, c: bv32, k: nat)
    ensures Times(Product(a, c, k), Product(a, c, k)) == SquareSum(a, Times(c, c), k)
    decreases k
  {
    if k > 0 {
      hide Add, Up, Term, TimesX, Times;
      SquareAdds(Term(a, c), Product(Up(a), TimesX(c), k - 1));
      SquareOfX(c);
      SquareTerm(a, c);
      SquareOfSum(Up(a), TimesX(c), k - 1);
    } else {
      TimesZero(0);
      NoTerms(a, c);
    }
  }

  lemma SquareTerm(a: bv32, c: bv32)
    ensures Times(Term(a, c), Term(a, c)) == Term(a, Times(c, c))
  {
    hide Product;
    TimesZero(0);
  }

  lemma SquareOfX(c: bv32)
    ensures Times(TimesX(c), TimesX(c)) == TimesX(TimesX(Times(c, c)))
  {
    hide TimesX, Times;
    TimesXLeft(c, TimesX(c));
    TimesTimesX(c, c);
  }

  lemma SquareIsSum(v: bv32)
    ensures Times(v, v) == SquareSum(v, ONE, 32)
  {
    hide Times, Product, SquareSum;
    TimesOne(v);
    TimesOne(ONE);
    assert Times(v, ONE) == Product(v, ONE, 32) by { TimesIsProduct(v, ONE); }
    SquareOfSum(v, ONE, 32);
  }

  lemma TimesIsProduct(a: bv32, b: bv32)
    ensures Times(a, b) == Product(a, b, 32)
  {
  }

  // Four terms of such a sum, for the top coefficients of a; and eight.
  function Pick4(a: bv32, r0: bv32, r1: bv32, r2: bv32, r3: bv32): bv32 {
    AddAll(Pick(a, 0x8000_0000, r0), Pick(a, 0x4000_0000, r1), Pick(a, 0x2000_0000, r2), Pick(a, 0x1000_0000, r3))
  }

  function Pick(a: bv32, mask: bv32, r: bv32): bv32 {
    if Has(a, mask) then r else 0
  }

  predicate Has(a: bv32, mask: bv32) {
    a & mask != 0
  }

  function AddAll(a: bv32, b: bv32, c: bv32, d: bv32): bv32 {
    a ^ b ^ c ^ d
  }

  function Eight(a: bv32, r0: bv32, r1: bv32, r2: bv32, r3: bv32, r4: bv32, r5: bv32, r6: bv32, r7: bv32): bv32 {
    Add(Pick4(a, r0, r1, r2, r3), Pick4(Up4(a), r4, r5, r6, r7))
  }

  // The square of v, from the powers x^(2 i).
  function Squared(v: bv32): bv32 {
    AddAll(
      Eight(v, 0x8000_0000, 0x2000_0000, 0x0800_0000, 0x0200_0000, 0x0080_0000, 0x0020_0000, 0x0008_0000, 0x0002_0000),
      Eight(Up8(v), 0x0000_8000, 0x0000_2000, 0x0000_0800, 0x0000_0200, 0x0000_0080, 0x0000_0020, 0x0000_0008, 0x0000_0002),
      Eight(Up16(v), 0xedb8_8320, 0x3b6e_20c8, 0x0edb_8832, 0xee0e_612c, 0x3b83_984b, 0x9584_24a2, 0xc8d9_8a08, 0x3236_6282),
      Eight(Up8(Up16(v)), 0xe135_1b80, 0x384d_46e0, 0x0e13_51b8, 0x0384_d46e, 0xed59_b63b, 0xa032_af3e, 0xc5b4_28ef, 0xaa09_c88b))
  }

  // The coefficients behind the top one.
  lemma NextCoefficients(a: bv32)
    ensures Has(a, 0x8000_0000) <==> Top(a)
    ensures Has(a, 0x4000_0000) <==> Top(Up(a))
    ensures Has(a, 0x2000_0000) <==> Top(Up(Up(a)))
    ensures Has(a, 0x1000_0000) <==> Top(Up(Up(Up(a))))
  {
    UpAndMask(a);
    hide Top, Up;
  }

  lemma UpAndMask(a: bv32)
    ensures a & 0x8000_0000 != 0 <==> Top(a)
    ensures a & 0x4000_0000 != 0 <==> Top(Up(a))
    ensures a & 0x2000_0000 != 0 <==> Top(Up(Up(a)))
    ensures a & 0x1000_0000 != 0 <==> Top(Up(Up(Up(a))))
  {
  }

  lemma PicksAre(a: bv32, r: bv32)
    ensures Pick(a, 0x8000_0000, r) == Term(a, r)
    ensures Pick(a, 0x4000_0000, r) == Term(Up(a), r)
    ensures Pick(a, 0x2000_0000, r) == Term(Up(Up(a)), r)
    ensures Pick(a, 0x1000_0000, r) == Term(Up(Up(Up(a))), r)
  {
    hide Top, Up, Has;
    NextCoefficients(a);
  }

  lemma PickedFour(a: bv32, r0: bv32, r1: bv32, r2: bv32, r3: bv32)
    ensures Pick4(a, r0, r1, r2, r3) == Four(a, r0, r1, r2, r3)
  {
    hide Pick, Term, Up, Add, AddAll;
    PicksAre(a, r0);
    PicksAre(a, r1);
    PicksAre(a, r2);
    PicksAre(a, r3);
    AddedAll(Term(a, r0), Term(Up(a), r1), Term(Up(Up(a)), r2), Term(Up(Up(Up(a))), r3));
  }

  lemma EightTerms(a: bv32, r0: bv32, r1: bv32, r2: bv32, r3: bv32, r4: bv32, r5: bv32, r6: bv32, r7: bv32)
    ensures Eight(a, r0, r1, r2, r3, r4, r5, r6, r7) == Add(Four(a, r0, r1, r2, r3), Four(Up4(a), r4, r5, r6, r7))
  {
    hide Pick4, Four, Up4, Add;
    PickedFour(a, r0, r1, r2, r3);
    PickedFour(Up4(a), r4, r5, r6, r7);
  }

  function Four(a: bv32, r0: bv32, r1: bv32, r2: bv32, r3: bv32): bv32 {
    Add(Term(a, r0), Add(Term(Up(a), r1), Add(Term(Up(Up(a)), r2), Term(Up(Up(Up(a))), r3))))
  }

  lemma AddedAll(a: bv32, b: bv32, c: bv32, d: bv32)
    ensures AddAll(a, b, c, d) == Add(a, Add(b, Add(c, d)))
  {
    XorFour(a, b, c, d);
    hide Add;
  }

  lemma XorFour(a: bv32, b: bv32, c: bv32, d: bv32)
    ensures a ^ b ^ c ^ d == Add(a, Add(b, Add(c, d)))
  {
  }

  ghost predicate SquaresOf(r0: bv32, r1: bv32, r2: bv32, r3: bv32) {
    r1 == TimesX(TimesX(r0)) && r2 == TimesX(TimesX(r1)) && r3 == TimesX(TimesX(r2))
  }

  lemma SumByFour(a: bv32, r0: bv32, r1: bv32, r2: bv32, r3: bv32, r4: bv32, k: nat)
    requires SquaresOf(r0, r1, r2, r3) && r4 == TimesX(TimesX(r3))
    ensures SquareSum(a, r0, k + 4) == Add(Four(a, r0, r1, r2, r3), SquareSum(Up(Up(Up(Up(a)))), r4, k))
  {
    hide Add, Up, Term, TimesX;
    var a1, a2, a3 := Up(a), Up(Up(a)), Up(Up(Up(a)));
    OneMoreSquare(a, r0, k + 4);
    OneMoreSquare(a1, r1, k + 3);
    OneMoreSquare(a2, r2, k + 2);
    OneMoreSquare(a3, r3, k + 1);
    var p, q, r, s, t := Term(a, r0), Term(a1, r1), Term(a2, r2), Term(a3, r3), SquareSum(Up(a3), r4, k);
    AddAssoc(r, s, t);
    AddAssoc(q, Add(r, s), t);
    AddAssoc(p, Add(q, Add(r, s)), t);
  }

  lemma OneMoreSquare(a: bv32, c: bv32, k: nat)
    requires k > 0
    ensures SquareSum(a, c, k) == Add(Term(a, c), SquareSum(Up(a), TimesX(TimesX(c)), k - 1))
  {
  }

  lemma SumByEight(a: bv32, r0: bv32, r1: bv32, r2: bv32, r3: bv32, r4: bv32, r5: bv32, r6: bv32, r7: bv32, r8: bv32, k: nat)
    requires SquaresOf(r0, r1, r2, r3) && SquaresOf(r4, r5, r6, r7)
    requires r4 == TimesX(TimesX(r3)) && r8 == TimesX(TimesX(r7))
    ensures SquareSum(a, r0, k + 8) == Add(Eight(a, r0, r1, r2, r3, r4, r5, r6, r7), SquareSum(Up8(a), r8, k))
  {
    EightTerms(a, r0, r1, r2, r3, r4, r5, r6, r7);
    UpBy4(a);
    UpBy4(Up4(a));
    UpBy8(a);
    hide Add, Up, Up4, Up8, Four, Eight, TimesX, SquareSum;
    SumByFour(a, r0, r1, r2, r3, r4, k + 4);
    SumByFour(Up4(a), r4, r5, r6, r7, r8, k);
    AddAssoc(Four(a, r0, r1, r2, r3), Four(Up4(a), r4, r5, r6, r7), SquareSum(Up8(a), r8, k));
  }

  // The powers x^0, x^2, ..., x^64.
  lemma SquaresAre()
    ensures SquaresOf(0x8000_0000, 0x2000_0000, 0x0800_0000, 0x0200_0000) && 0x0080_0000 == TimesX(TimesX(0x0200_0000))
    ensures SquaresOf(0x0080_0000, 0x0020_0000, 0x0008_0000, 0x0002_0000) && 0x0000_8000 == TimesX(TimesX(0x0002_0000))
    ensures SquaresOf(0x0000_8000, 0x0000_2000, 0x0000_0800, 0x0000_0200) && 0x0000_0080 == TimesX(TimesX(0x0000_0200))
    ensures SquaresOf(0x0000_0080, 0x0000_0020, 0x0000_0008, 0x0000_0002) && 0xedb8_8320 == TimesX(TimesX(0x0000_0002))
    ensures SquaresOf(0xedb8_8320, 0x3b6e_20c8, 0x0edb_8832, 0xee0e_612c) && 0x3b83_984b == TimesX(TimesX(0xee0e_612c))
    ensures SquaresOf(0x3b83_984b, 0x9584_24a2, 0xc8d9_8a08, 0x3236_6282) && 0xe135_1b80 == TimesX(TimesX(0x3236_6282))
    ensures SquaresOf(0xe135_1b80, 0x384d_46e0, 0x0e13_51b8, 0x0384_d46e) && 0xed59_b63b == TimesX(TimesX(0x0384_d46e))
    ensures SquaresOf(0xed59_b63b, 0xa032_af3e, 0xc5b4_28ef, 0xaa09_c88b) && 0xb1e6_b092 == TimesX(TimesX(0xaa09_c88b))
  {
    Squares0();
    Squares1();
    Squares2();
    Squares3();
    Squares4();
    Squares5();
    Squares6();
    Squares7();
  }

  lemma Squares0()
    ensures SquaresOf(0x8000_0000, 0x2000_0000, 0x0800_0000, 0x0200_0000) && 0x0080_0000 == TimesX(TimesX(0x0200_0000))
  {
    assert TimesX(0x8000_0000) == 0x4000_0000 && TimesX(0x4000_0000) == 0x2000_0000;
    assert TimesX(0x2000_0000) == 0x1000_0000 && TimesX(0x1000_0000) == 0x0800_0000;
    assert TimesX(0x0800_0000) == 0x0400_0000 && TimesX(0x0400_0000) == 0x0200_0000;
    assert TimesX(0x0200_0000) == 0x0100_0000 && TimesX(0x0100_0000) == 0x0080_0000;
  }

  lemma Squares1()
    ensures SquaresOf(0x0080_0000, 0x0020_0000, 0x0008_0000, 0x0002_0000) && 0x0000_8000 == TimesX(TimesX(0x0002_0000))
  {
    assert TimesX(0x0080_0000) == 0x0040_0000 && TimesX(0x0040_0000) == 0x0020_0000;
    assert TimesX(0x0020_0000) == 0x0010_0000 && TimesX(0x0010_0000) == 0x0008_0000;
    assert TimesX(0x0008_0000) == 0x0004_0000 && TimesX(0x0004_0000) == 0x0002_0000;
    assert TimesX(0x0002_0000) == 0x0001_0000 && TimesX(0x0001_0000) == 0x0000_8000;
  }

  lemma Squares2()
    ensures SquaresOf(0x0000_8000, 0x0000_2000, 0x0000_0800, 0x0000_0200) && 0x0000_0080 == TimesX(TimesX(0x0000_0200))
  {
    assert TimesX(0x0000_8000) == 0x0000_4000 && TimesX(0x0000_4000) == 0x0000_2000;
    assert TimesX(0x0000_2000) == 0x0000_1000 && TimesX(0x0000_1000) == 0x0000_0800;
    assert TimesX(0x0000_0800) == 0x0000_0400 && TimesX(0x0000_0400) == 0x0000_0200;
    assert TimesX(0x0000_0200) == 0x0000_0100 && TimesX(0x0000_0100) == 0x0000_0080;
  }

  lemma Squares3()
    ensures SquaresOf(0x0000_0080, 0x0000_0020, 0x0000_0008, 0x0000_0002) && 0xedb8_8320 == TimesX(TimesX(0x0000_0002))
  {
    assert TimesX(0x0000_0080) == 0x0000_0040 && TimesX(0x0000_0040) == 0x0000_0020;
    assert TimesX(0x0000_0020) == 0x0000_0010 && TimesX(0x0000_0010) == 0x0000_0008;
    assert TimesX(0x0000_0008) == 0x0000_0004 && TimesX(0x0000_0004) == 0x0000_0002;
    assert TimesX(0x0000_0002) == 0x0000_0001 && TimesX(0x0000_0001) == 0xedb8_8320;
  }

  lemma Squares4()
    ensures SquaresOf(0xedb8_8320, 0x3b6e_20c8, 0x0edb_8832, 0xee0e_612c) && 0x3b83_984b == TimesX(TimesX(0xee0e_612c))
  {
    assert TimesX(0xedb8_8320) == 0x76dc_4190 && TimesX(0x76dc_4190) == 0x3b6e_20c8;
    assert TimesX(0x3b6e_20c8) == 0x1db7_1064 && TimesX(0x1db7_1064) == 0x0edb_8832;
    assert TimesX(0x0edb_8832) == 0x076d_c419 && TimesX(0x076d_c419) == 0xee0e_612c;
    assert TimesX(0xee0e_612c) == 0x7707_3096 && TimesX(0x7707_3096) == 0x3b83_984b;
  }

  lemma Squares5()
    ensures SquaresOf(0x3b83_984b, 0x9584_24a2, 0xc8d9_8a08, 0x3236_6282) && 0xe135_1b80 == TimesX(TimesX(0x3236_6282))
  {
    assert TimesX(0x3b83_984b) == 0xf079_4f05 && TimesX(0xf079_4f05) == 0x9584_24a2;
    assert TimesX(0x9584_24a2) == 0x4ac2_1251 && TimesX(0x4ac2_1251) == 0xc8d9_8a08;
    assert TimesX(0xc8d9_8a08) == 0x646c_c504 && TimesX(0x646c_c504) == 0x3236_6282;
    assert TimesX(0x3236_6282) == 0x191b_3141 && TimesX(0x191b_3141) == 0xe135_1b80;
  }

  lemma Squares6()
    ensures SquaresOf(0xe135_1b80, 0x384d_46e0, 0x0e13_51b8, 0x0384_d46e) && 0xed59_b63b == TimesX(TimesX(0x0384_d46e))
  {
    assert TimesX(0xe135_1b80) == 0x709a_8dc0 && TimesX(0x709a_8dc0) == 0x384d_46e0;
    assert TimesX(0x384d_46e0) == 0x1c26_a370 && TimesX(0x1c26_a370) == 0x0e13_51b8;
    assert TimesX(0x0e13_51b8) == 0x0709_a8dc && TimesX(0x0709_a8dc) == 0x0384_d46e;
    assert TimesX(0x0384_d46e) == 0x01c2_6a37 && TimesX(0x01c2_6a37) == 0xed59_b63b;
  }

  lemma Squares7()
    ensures SquaresOf(0xed59_b63b, 0xa032_af3e, 0xc5b4_28ef, 0xaa09_c88b) && 0xb1e6_b092 == TimesX(TimesX(0xaa09_c88b))
  {
    assert TimesX(0xed59_b63b) == 0x9b14_583d && TimesX(0x9b14_583d) == 0xa032_af3e;
    assert TimesX(0xa032_af3e) == 0x5019_579f && TimesX(0x5019_579f) == 0xc5b4_28ef;
    assert TimesX(0xc5b4_28ef) == 0x8f62_9757 && TimesX(0x8f62_9757) == 0xaa09_c88b;
    assert TimesX(0xaa09_c88b) == 0xb8bc_6765 && TimesX(0xb8bc_6765) == 0xb1e6_b092;
  }

  lemma SquareIs(v: bv32)
    ensures Times(v, v) == Squared(v)
  {
    SquareIsSum(v);
    UpBy16(v);
    SquaresAre();
    hide Eight, Up8, Up16, TimesX, Times, SquaresOf, Add, AddAll;
    var b, c, d := Up8(v), Up16(v), Up8(Up16(v));
    SumByEight(v, 0x8000_0000, 0x2000_0000, 0x0800_0000, 0x0200_0000, 0x0080_0000, 0x0020_0000, 0x0008_0000, 0x0002_0000, 0x0000_8000, 24);
    SumByEight(b, 0x0000_8000, 0x0000_2000, 0x0000_0800, 0x0000_0200, 0x0000_0080, 0x0000_0020, 0x0000_0008, 0x0000_0002, 0xedb8_8320, 16);
    SumByEight(c, 0xedb8_8320, 0x3b6e_20c8, 0x0edb_8832, 0xee0e_612c, 0x3b83_984b, 0x9584_24a2, 0xc8d9_8a08, 0x3236_6282, 0xe135_1b80, 8);
    SumByEight(d, 0xe135_1b80, 0x384d_46e0, 0x0e13_51b8, 0x0384_d46e, 0xed59_b63b, 0xa032_af3e, 0xc5b4_28ef, 0xaa09_c88b, 0xb1e6_b092, 0);
    NoSquares(Up8(d), 0xb1e6_b092);
    hide SquareSum;
    AddZero(Eight(d, 0xe135_1b80, 0x384d_46e0, 0x0e13_51b8, 0x0384_d46e, 0xed59_b63b, 0xa032_af3e, 0xc5b4_28ef, 0xaa09_c88b));
    AddedAll(Eight(v, 0x8000_0000, 0x2000_0000, 0x0800_0000, 0x0200_0000, 0x0080_0000, 0x0020_0000, 0x0008_0000, 0x0002_0000), Eight(b, 0x0000_8000, 0x0000_2000, 0x0000_0800, 0x0000_0200, 0x0000_0080, 0x0000_0020, 0x0000_0008, 0x0000_0002),
      Eight(c, 0xedb8_8320, 0x3b6e_20c8, 0x0edb_8832, 0xee0e_612c, 0x3b83_984b, 0x9584_24a2, 0xc8d9_8a08, 0x3236_6282), Eight(d, 0xe135_1b80, 0x384d_46e0, 0x0e13_51b8, 0x0384_d46e, 0xed59_b63b, 0xa032_af3e, 0xc5b4_28ef, 0xaa09_c88b));
  }

  lemma NoSquares(a: bv32, c: bv32)
    ensures SquareSum(a, c, 0) == 0
  {
  }

  // x^(2^n) squared is x^(2^(n + 1)).
  lemma SquarePower(n: nat, v: bv32, w: bv32)
    requires TimesXn(ONE, Pow2(n)) == v && Squared(v) == w
    ensures TimesXn(ONE, Pow2(n + 1)) == w
  {
    hide Squared, Times, TimesXn;
    SquareIs(v);
    XnTimes(Pow2(n), v);
    TimesXnSum(ONE, Pow2(n), Pow2(n));
  }

  lemma OneSquare0()
    ensures Squared(0x40000000) == 0x20000000
  {
  }

  lemma OneSquare1()
    ensures Squared(0x20000000) == 0x08000000
  {
  }

  lemma TwoSquares0()
    ensures Squared(0x40000000) == 0x20000000 && Squared(0x20000000) == 0x08000000
  {
    hide Squared;
    OneSquare0();
    OneSquare1();
  }

  lemma OneSquare2()
    ensures Squared(0x08000000) == 0x00800000
  {
  }

  lemma OneSquare3()
    ensures Squared(0x00800000) == 0x00008000
  {
  }

  lemma TwoSquares1()
    ensures Squared(0x08000000) == 0x00800000 && Squared(0x00800000) == 0x00008000
  {
    hide Squared;
    OneSquare2();
    OneSquare3();
  }

  lemma OneSquare4()
    ensures Squared(0x00008000) == 0xedb88320
  {
  }

  lemma OneSquare5()
    ensures Squared(0xedb88320) == 0xb1e6b092
  {
  }

  lemma TwoSquares2()
    ensures Squared(0x00008000) == 0xedb88320 && Squared(0xedb88320) == 0xb1e6b092
  {
    hide Squared;
    OneSquare4();
    OneSquare5();
  }

  lemma TwoSquares3()
    ensures Squared(0xb1e6b092) == 0xa06a2517 && Squared(0xa06a2517) == 0xed627dae
  {
  }

  lemma TwoSquares4()
    ensures Squared(0xed627dae) == 0x88d14467 && Squared(0x88d14467) == 0xd7bbfe6a
  {
  }

  lemma TwoSquares5()
    ensures Squared(0xd7bbfe6a) == 0xec447f11 && Squared(0xec447f11) == 0x8e7ea170
  {
  }

  lemma TwoSquares6()
    ensures Squared(0x8e7ea170) == 0x6427800e && Squared(0x6427800e) == 0x4d47bae0
  {
  }

  lemma TwoSquares7()
    ensures Squared(0x4d47bae0) == 0x09fe548f && Squared(0x09fe548f) == 0x83852d0f
  {
  }

  lemma TwoSquares8()
    ensures Squared(0x83852d0f) == 0x30362f1a && Squared(0x30362f1a) == 0x7b5a9cc3
  {
  }

  lemma TwoSquares9()
    ensures Squared(0x7b5a9cc3) == 0x31fec169 && Squared(0x31fec169) == 0x9fec022a
  {
  }

  lemma TwoSquares10()
    ensures Squared(0x9fec022a) == 0x6c8dedc4 && Squared(0x6c8dedc4) == 0x15d6874d
  {
  }

  lemma TwoSquares11()
    ensures Squared(0x15d6874d) == 0x5fde7a4e && Squared(0x5fde7a4e) == 0xbad90e37
  {
  }

  lemma TwoSquares12()
    ensures Squared(0xbad90e37) == 0x2e4e5eef && Squared(0x2e4e5eef) == 0x4eaba214
  {
  }

  lemma TwoSquares13()
    ensures Squared(0x4eaba214) == 0xa8a472c0 && Squared(0xa8a472c0) == 0x429a969e
  {
  }

  lemma TwoSquares14()
    ensures Squared(0x429a969e) == 0x148d302a && Squared(0x148d302a) == 0xc40ba6d0
  {
  }

  lemma TwoSquares15()
    ensures Squared(0xc40ba6d0) == 0xc4e22c3c && Squared(0xc4e22c3c) == 0x40000000
  {
  }

  // All powers x^(2^n) up to n = 32.
  lemma PowersTo2To32()
    ensures TimesXn(ONE, Pow2(32)) == X
  {
    FirstPower();
    hide Squared, TimesXn, Pow2;
    TwoSquares0();
    SquarePower(0, 0x40000000, 0x20000000);
    SquarePower(1, 0x20000000, 0x08000000);
    TwoSquares1();
    SquarePower(2, 0x08000000, 0x00800000);
    SquarePower(3, 0x00800000, 0x00008000);
    TwoSquares2();
    SquarePower(4, 0x00008000, 0xedb88320);
    SquarePower(5, 0xedb88320, 0xb1e6b092);
    TwoSquares3();
    SquarePower(6, 0xb1e6b092, 0xa06a2517);
    SquarePower(7, 0xa06a2517, 0xed627dae);
    TwoSquares4();
    SquarePower(8, 0xed627dae, 0x88d14467);
    SquarePower(9, 0x88d14467, 0xd7bbfe6a);
    TwoSquares5();
    SquarePower(10, 0xd7bbfe6a, 0xec447f11);
    SquarePower(11, 0xec447f11, 0x8e7ea170);
    TwoSquares6();
    SquarePower(12, 0x8e7ea170, 0x6427800e);
    SquarePower(13, 0x6427800e, 0x4d47bae0);
    TwoSquares7();
    SquarePower(14, 0x4d47bae0, 0x09fe548f);
    SquarePower(15, 0x09fe548f, 0x83852d0f);
    TwoSquares8();
    SquarePower(16, 0x83852d0f, 0x30362f1a);
    SquarePower(17, 0x30362f1a, 0x7b5a9cc3);
    TwoSquares9();
    SquarePower(18, 0x7b5a9cc3, 0x31fec169);
    SquarePower(19, 0x31fec169, 0x9fec022a);
    TwoSquares10();
    SquarePower(20, 0x9fec022a, 0x6c8dedc4);
    SquarePower(21, 0x6c8dedc4, 0x15d6874d);
    TwoSquares11();
    SquarePower(22, 0x15d6874d, 0x5fde7a4e);
    SquarePower(23, 0x5fde7a4e, 0xbad90e37);
    TwoSquares12();
    SquarePower(24, 0xbad90e37, 0x2e4e5eef);
    SquarePower(25, 0x2e4e5eef, 0x4eaba214);
    TwoSquares13();
    SquarePower(26, 0x4eaba214, 0xa8a472c0);
    SquarePower(27, 0xa8a472c0, 0x429a969e);
    TwoSquares14();
    SquarePower(28, 0x429a969e, 0x148d302a);
    SquarePower(29, 0x148d302a, 0xc40ba6d0);
    TwoSquares15();
    SquarePower(30, 0xc40ba6d0, 0xc4e22c3c);
    SquarePower(31, 0xc4e22c3c, 0x40000000);
  }

  lemma FirstPower()
    ensures TimesXn(ONE, Pow2(0)) == X
  {
    assert TimesX(ONE) == X;
    hide TimesX;
    assert TimesXn(ONE, 1) == TimesXn(X, 0);
  }

  // Multiplying by x^(2^32) changes no more than multiplying by x.
  lemma Wraps(b: bv32)
    ensures TimesXn(b, Pow2(32)) == TimesX(b)
  {
    PowersTo2To32();
    assert TimesX(ONE) == X;
    hide TimesX, Times, Pow2;
    XnTimes(Pow2(32), b);
    XnTimes(1, b);
    assert TimesXn(ONE, 1) == TimesX(ONE) && TimesXn(b, 1) == TimesX(b);
  }
}
