/** Sixteen-bit registers as polynomials over GF(2), wrapped so that proofs reason by their laws. */
module Gf2 {

  type Reg = bv16

  /** The reflected generator polynomial, x^16 + x^15 + x^2 + 1. */
  const POLY: Reg := 0xa001

  function Add(a: Reg, b: Reg): Reg {
    a ^ b
  }

  function Half(c: Reg): Reg {
    c >> 1
  }

  function Double(c: Reg): Reg {
    c << 1
  }

  predicate Lsb(c: Reg) {
    c & 1 != 0
  }

  predicate Top(c: Reg) {
    c & 0x8000 != 0
  }

  function One(b: bool): Reg {
    if b then 1 else 0
  }

  function Wide(v: bv8): Reg {
    v as bv16
  }

  lemma {:induction false} AddZero(a: Reg)
    ensures Add(a, 0) == a && Add(0, a) == a && Add(a, a) == 0
  {
  }

  lemma {:induction false} AddLaws(a: Reg, b: Reg, c: Reg)
    ensures Add(Add(a, b), c) == Add(a, Add(b, c))
    ensures Add(a, b) == Add(b, a)
  {
  }

  lemma {:induction false} AddFour(a: Reg, b: Reg, c: Reg, d: Reg)
    ensures Add(Add(a, b), Add(c, d)) == Add(Add(a, c), Add(b, d))
  {
    hide Add;
    AddLaws(a, b, Add(c, d));
    AddLaws(b, c, d);
    AddLaws(c, b, d);
    AddLaws(a, c, Add(b, d));
  }

  lemma {:induction false} AddZeroIff(a: Reg, b: Reg)
    ensures Add(a, b) == 0 <==> a == b
  {
    hide Add;
    AddZero(a);
    AddZero(b);
    AddLaws(a, a, b);
  }

  lemma {:induction false} HalfAdd(a: Reg, b: Reg)
    ensures Half(Add(a, b)) == Add(Half(a), Half(b))
  {
  }

  lemma {:induction false} DoubleAdd(a: Reg, b: Reg)
    ensures Double(Add(a, b)) == Add(Double(a), Double(b))
  {
  }

  lemma {:induction false} LsbAdd(a: Reg, b: Reg)
    ensures Lsb(Add(a, b)) == (Lsb(a) != Lsb(b))
  {
  }

  lemma {:induction false} TopAdd(a: Reg, b: Reg)
    ensures Top(Add(a, b)) == (Top(a) != Top(b))
  {
  }

  lemma {:induction false} BitsAdd(a: Reg, b: Reg)
    ensures Half(Add(a, b)) == Add(Half(a), Half(b)) && Double(Add(a, b)) == Add(Double(a), Double(b))
    ensures Lsb(Add(a, b)) == (Lsb(a) != Lsb(b))
    ensures Top(Add(a, b)) == (Top(a) != Top(b))
  {
    hide Add, Half, Double, Lsb, Top;
    HalfAdd(a, b);
    DoubleAdd(a, b);
    LsbAdd(a, b);
    TopAdd(a, b);
  }

  lemma {:induction false} FreeEnds(c: Reg)
    ensures !Lsb(Double(c)) && !Top(Half(c))
  {
  }

  lemma {:induction false} HalfOfDouble(c: Reg)
    requires !Top(c)
    ensures Half(Double(c)) == c
  {
  }

  lemma {:induction false} DoubleOfHalf(c: Reg)
    ensures Double(Half(c)) == Add(c, c & 1) && One(Lsb(c)) == c & 1
  {
  }

  lemma {:induction false} HalfDouble(c: Reg)
    ensures !Lsb(Double(c)) && !Top(Half(c))
    ensures !Top(c) ==> Half(Double(c)) == c
    ensures Double(Half(c)) == Add(c, One(Lsb(c)))
  {
    hide Add, Half, Double, Lsb, Top, One;
    FreeEnds(c);
    DoubleOfHalf(c);
    if !Top(c) {
      HalfOfDouble(c);
    }
  }

  lemma {:induction false} Constants()
    ensures Top(POLY) && Lsb(POLY) && Half(0) == 0 && Double(0) == 0 && !Lsb(0) && !Top(0)
    ensures Lsb(One(true)) && !Lsb(One(false)) && One(false) == 0 && Half(One(true)) == 0 && Half(One(false)) == 0
  {
  }

  function Halves(c: Reg, n: nat): Reg
    decreases n
  {
    if n == 0 then c else Halves(Half(c), n - 1)
  }

  function Doubles(c: Reg, n: nat): Reg
    decreases n
  {
    if n == 0 then c else Doubles(Double(c), n - 1)
  }

  lemma {:induction false} HalvesZero(n: nat)
    ensures Halves(0, n) == 0
    decreases n
  {
    hide Half;
    Constants();
    if n > 0 {
      HalvesZero(n - 1);
    }
  }

  lemma {:induction false} HalvesAdd(c: Reg, m: nat, n: nat)
    ensures Halves(Halves(c, m), n) == Halves(c, m + n)
    decreases m
  {
    hide Half;
    if m > 0 {
      HalvesAdd(Half(c), m - 1, n);
    }
  }

  lemma {:induction false} FiveHalves(c: Reg)
    ensures Halves(c, 5) == Half(Half(Half(Half(Half(c)))))
  {
    hide Half;
    assert Halves(c, 5) == Halves(Half(Half(c)), 3);
    assert Halves(Half(Half(c)), 3) == Halves(Half(Half(Half(Half(c)))), 1);
  }

  lemma {:induction false} FifteenHalves(c: Reg)
    ensures Halves(c, 15) == 0 <==> !Top(c)
    ensures Halves(Half(c), 15) == 0
  {
    FifteenOf(c);
    FifteenOf(Half(c));
    hide Halves;
    TopRemains(c);
    HalfDouble(c);
    TopRemains(Half(c));
  }

  function Half5(c: Reg): Reg {
    Half(Half(Half(Half(Half(c)))))
  }

  lemma {:induction false} FifteenOf(c: Reg)
    ensures Halves(c, 15) == Half5(Half5(Half5(c)))
  {
    hide Half;
    HalvesAdd(c, 5, 10);
    HalvesAdd(Halves(c, 5), 5, 5);
    hide Halves;
    FiveHalves(c);
    FiveHalves(Half5(c));
    FiveHalves(Half5(Half5(c)));
  }

  lemma {:induction false} TopRemains(c: Reg)
    ensures Half5(Half5(Half5(c))) == 0 <==> !Top(c)
  {
  }

  lemma {:induction false} EightDoubles(c: Reg)
    ensures Doubles(c, 8) == c << 8
  {
    var d := Double(Double(Double(Double(c))));
    assert Doubles(c, 8) == Doubles(d, 4) by {
      hide Double;
      assert Doubles(c, 8) == Doubles(Double(Double(c)), 6);
      assert Doubles(Double(Double(c)), 6) == Doubles(d, 4);
    }
    assert Doubles(d, 4) == Double(Double(Double(Double(d)))) by {
      hide Double;
      assert Doubles(d, 4) == Doubles(Double(Double(d)), 2);
    }
    hide Doubles;
  }

  // ---------- The register step ----------

  /** One step of the register: division by the generator, one bit at a time. */
  function Shift(c: Reg): Reg {
    if Lsb(c) then Add(Half(c), POLY) else Half(c)
  }

  function Unshift(c: Reg): Reg {
    if Top(c) then Add(Double(Add(c, POLY)), 1) else Double(c)
  }

  /** The step is linear. */
  lemma {:induction false} ShiftLinear(a: Reg, b: Reg)
    ensures Shift(Add(a, b)) == Add(Shift(a), Shift(b))
  {
    hide Add, Half, Lsb;
    BitsAdd(a, b);
    AddFour(Half(a), POLY, Half(b), POLY);
    AddZero(POLY);
    AddZero(Add(Half(a), Half(b)));
    AddLaws(Half(a), POLY, Half(b));
    AddLaws(POLY, Half(b), 0);
    AddLaws(Half(a), Half(b), POLY);
  }

  /** The step can be undone. */
  lemma {:induction false} ShiftInvertible(c: Reg)
    ensures Unshift(Shift(c)) == c
  {
    hide Add, Half, Double, Lsb, Top, One;
    Constants();
    HalfDouble(c);
    BitsAdd(Half(c), POLY);
    AddLaws(Half(c), POLY, POLY);
    AddZero(POLY);
    AddZero(Half(c));
    AddLaws(c, One(Lsb(c)), One(Lsb(c)));
    AddZero(One(Lsb(c)));
    AddZero(c);
    OneIs();
  }

  lemma {:induction false} OneIs()
    ensures One(true) == 1 && One(false) == 0
  {
  }

  lemma {:induction false} ShiftZero()
    ensures Shift(0) == 0 && Unshift(0) == 0
  {
  }

  lemma {:induction false} ShiftEven(a: Reg, y: Reg)
    requires !Lsb(y)
    ensures Shift(Add(a, y)) == Add(Shift(a), Half(y))
  {
    hide Add, Half, Lsb;
    ShiftLinear(a, y);
  }

  // ---------- Parity ----------

  /** Whether an odd number of the lowest `n` bits is set. */
  function OddIn(c: Reg, n: nat): bool
    decreases n
  {
    if n == 0 then false else Lsb(c) != OddIn(Half(c), n - 1)
  }

  function Odd(c: Reg): bool {
    OddIn(c, 16)
  }

  lemma {:induction false} OddAdd(a: Reg, b: Reg, n: nat)
    ensures OddIn(Add(a, b), n) == (OddIn(a, n) != OddIn(b, n))
    decreases n
  {
    hide Add, Half, Lsb;
    if n > 0 {
      BitsAdd(a, b);
      OddAdd(Half(a), Half(b), n - 1);
    }
  }

  lemma {:induction false} OddMore(c: Reg, n: nat)
    ensures OddIn(c, n + 1) == (OddIn(c, n) != Lsb(Halves(c, n)))
    decreases n
  {
    hide Half, Lsb;
    if n > 0 {
      OddMore(Half(c), n - 1);
    }
  }

  lemma {:induction false} OddHalf(c: Reg)
    ensures Odd(c) == (Lsb(c) != Odd(Half(c)))
  {
    hide Half, Lsb, Halves, Top;
    Constants();
    FifteenHalves(c);
    OddMore(Half(c), 15);
  }

  lemma {:induction false} OddZero(n: nat)
    ensures !OddIn(0, n)
    decreases n
  {
    hide Half, Lsb;
    Constants();
    if n > 0 {
      OddZero(n - 1);
    }
  }

  lemma {:induction false} OddOnes()
    ensures Odd(POLY) && Odd(One(true)) && !Odd(0)
  {
    hide OddIn;
    OddHalf(One(true));
    OddZeroIs();
    assert Half(One(true)) == 0 && Lsb(One(true));
    OddHalf(0xa001);
    OddHalf(0x5000);
    OddHalf(0x2800);
    OddHalf(0x1400);
    OddHalf(0x0a00);
    OddHalf(0x0500);
    OddHalf(0x0280);
    OddHalf(0x0140);
    OddHalf(0x00a0);
    OddHalf(0x0050);
    OddHalf(0x0028);
    OddHalf(0x0014);
    OddHalf(0x000a);
    OddHalf(0x0005);
    OddHalf(0x0002);
    OddHalf(0x0001);
  }

  lemma {:induction false} OddZeroIs()
    ensures !Odd(0)
  {
    OddZero(16);
  }

  /** The generator has an even number of terms, so the step keeps the parity. */
  lemma {:induction false} ShiftKeepsParity(c: Reg)
    ensures Odd(Shift(c)) == Odd(c)
  {
    hide Add, Half, Lsb, OddIn;
    OddHalf(c);
    OddOnes();
    OddAdd(Half(c), POLY, 16);
  }
}
