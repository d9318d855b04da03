/** GF(2^8) as the decryptor computes in it: bytes are polynomials over GF(2) modulo
    x^8 + x^4 + x^3 + x + 1 (section 4.2 of FIPS 197). */
module GaloisField {
  type byte = bv8

  /** Addition of polynomials. */
  function Add(a: byte, b: byte): byte {
    a ^ b
  }

  /** Multiplication by x. */
  function Xtime(a: byte): byte {
    (a << 1) ^ (if a & 128 != 0 then 0x1b else 0)
  }

  predicate Low(b: byte) {
    b & 1 != 0
  }

  function Half(b: byte): byte {
    b >> 1
  }

  function Times(a: byte, bit: bool): byte {
    if bit then a else 0
  }

  /** The product of `a` with the polynomial made of the `n` low coefficients of `b`. */
  function MulFrom(a: byte, b: byte, n: nat): byte
    decreases n
  {
    if n == 0 then 0 else Add(Times(a, Low(b)), MulFrom(Xtime(a), Half(b), n - 1))
  }

  function Mul(a: byte, b: byte): byte {
    MulFrom(a, b, 8)
  }

  lemma AddLaws(a: byte, b: byte, c: byte)
    ensures Add(a, b) == Add(b, a)
    ensures Add(Add(a, b), c) == Add(a, Add(b, c))
    ensures Add(a, a) == 0
    ensures Add(a, 0) == a
  {}

  lemma Regroup(a: byte, b: byte, c: byte, d: byte)
    ensures Add(Add(a, b), Add(c, d)) == Add(Add(a, c), Add(b, d))
  {
    hide Add;
    AddLaws(a, b, Add(c, d));
    AddLaws(b, c, d);
    AddLaws(c, b, d);
    AddLaws(a, c, Add(b, d));
  }

  lemma XtimeAdds(a: byte, b: byte)
    ensures Xtime(Add(a, b)) == Add(Xtime(a), Xtime(b))
    ensures Xtime(0) == 0
  {
    assert (a ^ b) << 1 == (a << 1) ^ (b << 1);
    assert (a ^ b) & 128 == (a & 128) ^ (b & 128);
    assert a & 128 == 0 || a & 128 == 128;
    assert b & 128 == 0 || b & 128 == 128;
  }

  lemma SplitAdds(b: byte, c: byte)
    ensures Low(Add(b, c)) == (Low(b) != Low(c))
    ensures Half(Add(b, c)) == Add(Half(b), Half(c))
  {
    assert (b ^ c) & 1 == (b & 1) ^ (c & 1);
    assert b & 1 == 0 || b & 1 == 1;
    assert c & 1 == 0 || c & 1 == 1;
  }

  lemma SplitLow(b: byte)
    ensures b == Add(Times(1, Low(b)), Xtime(Half(b)))
  {}

  lemma TimesAdds(a: byte, b: byte, bit: bool, bit': bool)
    ensures Times(Add(a, b), bit) == Add(Times(a, bit), Times(b, bit))
    ensures Times(a, bit != bit') == Add(Times(a, bit), Times(a, bit'))
    ensures Times(Xtime(a), bit) == Xtime(Times(a, bit))
  {
    hide Add, Xtime;
    AddLaws(a, 0, 0);
    AddLaws(0, 0, 0);
    AddLaws(0, a, 0);
    XtimeAdds(a, a);
  }

  lemma Step(a: byte, b: byte, n: nat)
    requires n > 0
    ensures MulFrom(a, b, n) == Add(Times(a, Low(b)), MulFrom(Xtime(a), Half(b), n - 1))
  {}

  lemma {:induction false} RightAdds(a: byte, b: byte, c: byte, n: nat)
    ensures MulFrom(a, Add(b, c), n) == Add(MulFrom(a, b, n), MulFrom(a, c, n))
    decreases n
  {
    if n == 0 {
      AddLaws(0, 0, 0);
    } else {
      hide *;
      RightAdds(Xtime(a), Half(b), Half(c), n - 1);
      SplitAdds(b, c);
      TimesAdds(a, a, Low(b), Low(c));
      Step(a, b, n); Step(a, c, n); Step(a, Add(b, c), n);
      Regroup(Times(a, Low(b)), MulFrom(Xtime(a), Half(b), n - 1),
              Times(a, Low(c)), MulFrom(Xtime(a), Half(c), n - 1));
    }
  }

  lemma {:induction false} LeftAdds(a: byte, b: byte, c: byte, n: nat)
    ensures MulFrom(Add(a, b), c, n) == Add(MulFrom(a, c, n), MulFrom(b, c, n))
    decreases n
  {
    if n == 0 {
      AddLaws(0, 0, 0);
    } else {
      hide *;
      LeftAdds(Xtime(a), Xtime(b), Half(c), n - 1);
      XtimeAdds(a, b);
      TimesAdds(a, b, Low(c), false);
      Step(a, c, n); Step(b, c, n); Step(Add(a, b), c, n);
      Regroup(Times(a, Low(c)), MulFrom(Xtime(a), Half(c), n - 1),
              Times(b, Low(c)), MulFrom(Xtime(b), Half(c), n - 1));
    }
  }

  lemma {:induction false} LeftXtime(a: byte, b: byte, n: nat)
    ensures MulFrom(Xtime(a), b, n) == Xtime(MulFrom(a, b, n))
    decreases n
  {
    if n == 0 {
      XtimeAdds(0, 0);
    } else {
      hide *;
      LeftXtime(Xtime(a), Half(b), n - 1);
      TimesAdds(a, a, Low(b), false);
      Step(a, b, n); Step(Xtime(a), b, n);
      XtimeAdds(Times(a, Low(b)), MulFrom(Xtime(a), Half(b), n - 1));
    }
  }

  lemma {:induction false} ZeroLeft(b: byte, n: nat)
    ensures MulFrom(0, b, n) == 0
    decreases n
  {
    if n > 0 {
      ZeroLeft(Half(b), n - 1);
    }
  }

  predicate Fits(b: byte, n: nat)
    decreases n
  {
    if n == 0 then b == 0 else Fits(Half(b), n - 1)
  }

  lemma FitsByte(b: byte)
    ensures Fits(b, 8)
  {
    var b4 := Half(Half(Half(Half(b))));
    assert Fits(b4, 4) by {
      assert Fits(Half(Half(b4)), 2);
    }
    assert Fits(Half(Half(b)), 6);
  }

  lemma {:induction false} OneLeft(b: byte, n: nat)
    requires Fits(b, n)
    ensures MulFrom(1, b, n) == b
    decreases n
  {
    if n > 0 {
      OneLeft(Half(b), n - 1);
      hide *;
      Step(1, b, n);
      LeftXtime(1, Half(b), n - 1);
      SplitLow(b);
    }
  }

  lemma {:induction false} CommutesFrom(a: byte, b: byte, n: nat)
    requires Fits(b, n)
    ensures MulFrom(a, b, n) == MulFrom(b, a, 8)
    decreases n
  {
    if n == 0 {
      ZeroLeft(a, 8);
    } else {
      CommutesFrom(a, Half(b), n - 1);
      FitsByte(a);
      OneLeft(a, 8);
      ZeroLeft(a, 8);
      assert MulFrom(Times(1, Low(b)), a, 8) == Times(a, Low(b)) by { hide MulFrom, Low; }
      hide *;
      Step(a, b, n);
      LeftXtime(a, Half(b), n - 1);
      LeftXtime(Half(b), a, 8);
      SplitLow(b);
      LeftAdds(Times(1, Low(b)), Xtime(Half(b)), a, 8);
    }
  }

  lemma MulCommutes(a: byte, b: byte)
    ensures Mul(a, b) == Mul(b, a)
  {
    hide MulFrom, Fits;
    FitsByte(b);
    CommutesFrom(a, b, 8);
  }

  lemma MulUnits(a: byte)
    ensures Mul(1, a) == a == Mul(a, 1)
    ensures Mul(0, a) == 0 == Mul(a, 0)
  {
    hide MulFrom, Fits;
    FitsByte(a);
    OneLeft(a, 8);
    ZeroLeft(a, 8);
    MulCommutes(a, 1);
    MulCommutes(a, 0);
  }

  lemma MulDistributes(a: byte, b: byte, c: byte)
    ensures Mul(a, Add(b, c)) == Add(Mul(a, b), Mul(a, c))
    ensures Mul(Add(b, c), a) == Add(Mul(b, a), Mul(c, a))
  {
    hide MulFrom, Add;
    RightAdds(a, b, c, 8);
    LeftAdds(b, c, a, 8);
  }

  lemma RightXtime(a: byte, b: byte)
    ensures Mul(a, Xtime(b)) == Xtime(Mul(a, b))
  {
    hide MulFrom, Xtime;
    MulCommutes(a, Xtime(b));
    MulCommutes(a, b);
    LeftXtime(b, a, 8);
  }

  lemma {:induction false} AssociatesFrom(a: byte, b: byte, c: byte, n: nat)
    ensures MulFrom(Mul(a, b), c, n) == Mul(a, MulFrom(b, c, n))
    decreases n
  {
    if n == 0 {
      MulUnits(a);
    } else {
      AssociatesFrom(a, Xtime(b), Half(c), n - 1);
      hide MulFrom, Xtime, Half, Low, Mul, Add;
      MulUnits(a);
      assert Times(Mul(a, b), Low(c)) == Mul(a, Times(b, Low(c)));
      hide *;
      Step(Mul(a, b), c, n);
      Step(b, c, n);
      RightXtime(a, b);
      MulDistributes(a, Times(b, Low(c)), MulFrom(Xtime(b), Half(c), n - 1));
    }
  }

  lemma MulAssociates(a: byte, b: byte, c: byte)
    ensures Mul(Mul(a, b), c) == Mul(a, Mul(b, c))
  {
    hide MulFrom;
    AssociatesFrom(a, b, c, 8);
  }

  // ---- Every nonzero byte has the inverse a^254 ----

  function Square(a: byte): byte {
    Mul(a, a)
  }

  /** a^(2^k) */
  function Frobenius(a: byte, k: nat): byte {
    if k == 0 then a else Square(Frobenius(a, k - 1))
  }

  lemma SquareAdds(a: byte, b: byte)
    ensures Square(Add(a, b)) == Add(Square(a), Square(b))
  {
    hide Mul, Add;
    MulDistributes(Add(a, b), a, b);
    MulDistributes(a, a, b);
    MulDistributes(b, a, b);
    MulCommutes(a, b);
    AddLaws(Mul(a, a), Mul(a, b), Add(Mul(a, b), Mul(b, b)));
    AddLaws(Mul(a, b), Mul(a, b), Mul(b, b));
    AddLaws(Mul(b, b), 0, 0);
    AddLaws(0, Mul(b, b), 0);
  }

  lemma SquareMultiplies(a: byte, b: byte)
    ensures Square(Mul(a, b)) == Mul(Square(a), Square(b))
  {
    hide Mul;
    MulAssociates(Mul(a, b), a, b);
    MulCommutes(Mul(a, b), a);
    MulAssociates(a, a, b);
    MulAssociates(Square(a), b, b);
  }

  lemma {:induction false} FrobeniusAdds(a: byte, b: byte, k: nat)
    ensures Frobenius(Add(a, b), k) == Add(Frobenius(a, k), Frobenius(b, k))
  {
    hide Square, Add;
    if k > 0 {
      FrobeniusAdds(a, b, k - 1);
      SquareAdds(Frobenius(a, k - 1), Frobenius(b, k - 1));
    }
  }

  lemma {:induction false} FrobeniusMultiplies(a: byte, b: byte, k: nat)
    ensures Frobenius(Mul(a, b), k) == Mul(Frobenius(a, k), Frobenius(b, k))
  {
    hide Square, Mul;
    if k > 0 {
      FrobeniusMultiplies(a, b, k - 1);
      SquareMultiplies(Frobenius(a, k - 1), Frobenius(b, k - 1));
    }
  }

  lemma {:induction false} FrobeniusUnits(k: nat)
    ensures Frobenius(1, k) == 1 && Frobenius(0, k) == 0
  {
    hide Mul;
    if k > 0 {
      FrobeniusUnits(k - 1);
      MulUnits(1);
      MulUnits(0);
    }
  }

  lemma Double(a: byte)
    ensures Xtime(a) == Mul(2, a)
  {
    assert Xtime(1) == 2;
    hide *;
    LeftXtime(1, a, 8);
    assert Mul(1, a) == MulFrom(1, a, 8) && Mul(2, a) == MulFrom(2, a, 8) by { MulIs(1, a); MulIs(2, a); }
    MulUnits(a);
  }
  lemma MulIs(a: byte, b: byte)
    ensures Mul(a, b) == MulFrom(a, b, 8)
  {}

  /** The eight iterations, written out. */
  lemma MulUnfold(a: byte, b: byte)
    ensures
      var a1 := Xtime(a); var a2 := Xtime(a1); var a3 := Xtime(a2); var a4 := Xtime(a3);
      var a5 := Xtime(a4); var a6 := Xtime(a5); var a7 := Xtime(a6);
      var b1 := Half(b); var b2 := Half(b1); var b3 := Half(b2); var b4 := Half(b3);
      var b5 := Half(b4); var b6 := Half(b5); var b7 := Half(b6);
      Mul(a, b) ==
        Add(Times(a, Low(b)), Add(Times(a1, Low(b1)), Add(Times(a2, Low(b2)), Add(Times(a3, Low(b3)),
        Add(Times(a4, Low(b4)), Add(Times(a5, Low(b5)), Add(Times(a6, Low(b6)), Add(Times(a7, Low(b7)), 0))))))))
  {
    var a1 := Xtime(a); var a2 := Xtime(a1); var a3 := Xtime(a2); var a4 := Xtime(a3);
    var a5 := Xtime(a4); var a6 := Xtime(a5); var a7 := Xtime(a6);
    var b1 := Half(b); var b2 := Half(b1); var b3 := Half(b2); var b4 := Half(b3);
    var b5 := Half(b4); var b6 := Half(b5); var b7 := Half(b6);
    assert MulFrom(Xtime(a7), Half(b7), 0) == 0;
    hide *;
    MulIs(a, b);
    Step(a, b, 8); Step(a1, b1, 7); Step(a2, b2, 6); Step(a3, b3, 5);
    Step(a4, b4, 4); Step(a5, b5, 3); Step(a6, b6, 2); Step(a7, b7, 1);
  }

  lemma SquaresOfX()
    ensures Mul(0x02, 0x02) == 0x04 && Mul(0x04, 0x04) == 0x10
    ensures Mul(0x10, 0x10) == 0x1b && Mul(0x1b, 0x1b) == 0x5e
    ensures Mul(0x5e, 0x5e) == 0xe4 && Mul(0xe4, 0xe4) == 0x4d
    ensures Mul(0x4d, 0x4d) == 0xfa && Mul(0xfa, 0xfa) == 0x02
  {
    hide Mul, MulFrom;
    MulUnfold(0x02, 0x02); MulUnfold(0x04, 0x04); MulUnfold(0x10, 0x10); MulUnfold(0x1b, 0x1b);
    MulUnfold(0x5e, 0x5e); MulUnfold(0xe4, 0xe4); MulUnfold(0x4d, 0x4d); MulUnfold(0xfa, 0xfa);
  }

  /** x^(2^8) == x in the field, from eight squarings. */
  lemma FrobeniusOfX()
    ensures Frobenius(2, 8) == 2
  {
    SquaresOfX();
    hide Mul, MulFrom;
    assert Frobenius(2, 2) == 0x10;
    assert Frobenius(2, 4) == 0x5e;
    assert Frobenius(2, 6) == 0x4d;
  }

  lemma {:induction false} FrobeniusFixes(a: byte, n: nat)
    requires Fits(a, n)
    ensures Frobenius(a, 8) == a
    decreases n
  {
    if n == 0 {
      FrobeniusUnits(8);
    } else {
      FrobeniusFixes(Half(a), n - 1);
      hide Frobenius, Low, Add, Xtime, Half, Mul, Fits;
      FrobeniusUnits(8);
      FrobeniusOfX();
      assert Frobenius(Times(1, Low(a)), 8) == Times(1, Low(a));
      hide *;
      SplitLow(a);
      FrobeniusAdds(Times(1, Low(a)), Xtime(Half(a)), 8);
      Double(Half(a));
      FrobeniusMultiplies(2, Half(a), 8);
    }
  }

  /** Squaring fixes only 0 and 1. */
  lemma SquareFixed(e: byte)
    requires Square(e) == e
    ensures e == 0 || e == 1
  {
    hide MulFrom, Mul;
    MulUnfold(e, e);
  }

  /** Repeated multiplication, as the table construction does it. */
  function Power(a: byte, n: nat): byte {
    if n == 0 then 1 else Mul(Power(a, n - 1), a)
  }

  lemma {:induction false} PowerAdds(a: byte, m: nat, n: nat)
    ensures Power(a, m + n) == Mul(Power(a, m), Power(a, n))
    decreases n
  {
    hide Mul;
    if n == 0 {
      MulUnits(Power(a, m));
    } else {
      PowerAdds(a, m, n - 1);
      MulAssociates(Power(a, m), Power(a, n - 1), a);
    }
  }

  function Pow2(k: nat): nat {
    if k == 0 then 1 else 2 * Pow2(k - 1)
  }

  lemma {:induction false} FrobeniusIsPower(a: byte, k: nat)
    ensures Power(a, Pow2(k)) == Frobenius(a, k)
  {
    hide Mul, Power;
    if k == 0 {
      PowerStep(a, 0);
      MulUnits(a);
    } else {
      FrobeniusIsPower(a, k - 1);
      PowerAdds(a, Pow2(k - 1), Pow2(k - 1));
    }
  }

  lemma PowerStep(a: byte, n: nat)
    ensures Power(a, 0) == 1
    ensures Power(a, n + 1) == Mul(Power(a, n), a)
  {}

  lemma Power256(a: byte)
    ensures Power(a, 256) == a
  {
    hide Fits, Frobenius, Power;
    FitsByte(a);
    FrobeniusFixes(a, 8);
    FrobeniusIsPower(a, 8);
    assert Pow2(4) == 16 && Pow2(8) == 256;
  }

  /** a^254, which is the multiplicative inverse of a nonzero a and 0 for 0. */
  function Inverse(a: byte): byte {
    Power(a, 254)
  }

  lemma InverseMultiplies(a: byte)
    ensures a != 0 ==> Mul(Inverse(a), a) == 1 && Inverse(a) != 0
    ensures Inverse(0) == 0
  {
    hide Mul, Power;
    PowerStep(a, 254);
    PowerStep(a, 255);
    PowerStep(0, 253);
    MulUnits(Power(0, 253));
    Power256(a);
    var e := Power(a, 255);
    PowerAdds(a, 256, 254);
    PowerAdds(a, 255, 255);
    PowerAdds(a, 1, 254);
    assert Power(a, 1) == a by { PowerStep(a, 0); MulUnits(a); }
    SquareFixed(e);
    MulUnits(a);
  }

  lemma InverseUnique(a: byte, b: byte)
    requires Mul(b, a) == 1
    ensures b == Inverse(a)
  {
    hide *;
    InverseMultiplies(a);
    MulUnits(b); MulUnits(a); MulUnits(Inverse(a));
    MulCommutes(Inverse(a), a);
    MulAssociates(b, a, Inverse(a));
  }
  lemma InverseInvolutive(a: byte)
    ensures Inverse(Inverse(a)) == a
  {
    hide *;
    InverseMultiplies(a);
    InverseMultiplies(0);
    if a != 0 {
      MulCommutes(Inverse(a), a);
      InverseUnique(Inverse(a), a);
    }
  }

  // ---- The product is the polynomial product modulo x^8 + x^4 + x^3 + x + 1 ----

  /** Polynomials of degree below 16. */
  function Add16(a: bv16, b: bv16): bv16 {
    a ^ b
  }

  function Shift16(a: bv16): bv16 {
    a << 1
  }

  function Widen(a: byte): bv16 {
    a as bv16
  }

  /** The product of polynomials, with no reduction. */
  function PolyMul(a: bv16, b: byte, n: nat): bv16
    decreases n
  {
    if n == 0 then 0
    else Add16(if Low(b) then a else 0, PolyMul(Shift16(a), Half(b), n - 1))
  }

  const MODULUS: bv16 := 0x11b

  lemma Add16Laws(a: bv16, b: bv16, c: bv16, d: bv16)
    ensures Add16(Add16(a, b), Add16(c, d)) == Add16(Add16(a, c), Add16(b, d))
    ensures Add16(a, 0) == a == Add16(0, a)
    ensures Add16(a, a) == 0
    ensures Shift16(Add16(a, b)) == Add16(Shift16(a), Shift16(b))
    ensures Shift16(0) == 0
  {}

  lemma WidenAdds(a: byte, b: byte)
    ensures Widen(Add(a, b)) == Add16(Widen(a), Widen(b))
    ensures Widen(0) == 0
  {}

  lemma PolyStep(a: bv16, b: byte, n: nat)
    requires n > 0
    ensures PolyMul(a, b, n) == Add16(if Low(b) then a else 0, PolyMul(Shift16(a), Half(b), n - 1))
  {}

  lemma {:induction false} PolyRightAdds(a: bv16, b: byte, c: byte, n: nat)
    ensures PolyMul(a, Add(b, c), n) == Add16(PolyMul(a, b, n), PolyMul(a, c, n))
    decreases n
  {
    if n == 0 {
      Add16Laws(0, 0, 0, 0);
    } else {
      hide *;
      PolyRightAdds(Shift16(a), Half(b), Half(c), n - 1);
      SplitAdds(b, c);
      Add16Laws(a, 0, 0, 0);
      Add16Laws(0, 0, 0, 0);
      PolyStep(a, b, n); PolyStep(a, c, n); PolyStep(a, Add(b, c), n);
      Add16Laws(if Low(b) then a else 0, PolyMul(Shift16(a), Half(b), n - 1),
                if Low(c) then a else 0, PolyMul(Shift16(a), Half(c), n - 1));
    }
  }

  lemma {:induction false} PolyLeftShift(a: bv16, b: byte, n: nat)
    ensures PolyMul(Shift16(a), b, n) == Shift16(PolyMul(a, b, n))
    decreases n
  {
    if n == 0 {
      Add16Laws(0, 0, 0, 0);
    } else {
      hide *;
      PolyLeftShift(Shift16(a), Half(b), n - 1);
      Add16Laws(0, 0, 0, 0);
      PolyStep(a, b, n); PolyStep(Shift16(a), b, n);
      Add16Laws(if Low(b) then a else 0, PolyMul(Shift16(a), Half(b), n - 1), 0, 0);
    }
  }

  lemma {:induction false} PolyDropTop(a: bv16, b: byte, n: nat)
    requires Fits(b, n)
    ensures PolyMul(a, b, n + 1) == PolyMul(a, b, n)
    decreases n
  {
    if n == 0 {
      Add16Laws(0, 0, 0, 0);
      PolyStep(a, b, 1);
    } else {
      PolyDropTop(Shift16(a), Half(b), n - 1);
      hide *;
      PolyStep(a, b, n + 1);
      PolyStep(a, b, n);
    }
  }

  lemma {:induction false} FitsMore(b: byte, n: nat)
    requires Fits(b, n)
    ensures Fits(b, n + 1)
    decreases n
  {
    if n > 0 {
      FitsMore(Half(b), n - 1);
    }
  }

  lemma {:induction false} FitsAdds(b: byte, c: byte, n: nat)
    requires Fits(b, n) && Fits(c, n)
    ensures Fits(Add(b, c), n)
    decreases n
  {
    if n > 0 {
      SplitAdds(b, c);
      FitsAdds(Half(b), Half(c), n - 1);
    }
  }

  /** A byte below 128 halves to zero in seven steps. */
  lemma TopBitClear(q: byte)
    requires Fits(q, 7)
    ensures q & 128 == 0
  {
    var h1 := Half(q);
    var h2 := Half(h1);
    var h3 := Half(h2);
    var h4 := Half(h3);
    var h5 := Half(h4);
    var h6 := Half(h5);
    assert Fits(h2, 5);
    assert Fits(h4, 3);
    assert Fits(h6, 1);
    hide Fits;
    assert h6 & 2 == 0 && Half(h6) == 0 by { FitsOne(h6); }
    SevenHalves(q);
  }

  lemma FitsOne(q: byte)
    requires Fits(q, 1)
    ensures Half(q) == 0 && q & 2 == 0
  {}

  lemma SevenHalves(q: byte)
    ensures Half(Half(Half(Half(Half(Half(Half(q))))))) == 0 <==> q & 128 == 0
  {
    hide Fits;
    assert Half(Half(Half(Half(Half(Half(Half(q))))))) == q >> 7;
  }

  lemma DoubleHalves(q: byte)
    requires q & 128 == 0
    ensures Half(Xtime(q)) == q && !Low(Xtime(q))
  {}

  lemma DoubleQuotient(q: byte)
    requires Fits(q, 7)
    ensures PolyMul(MODULUS, Xtime(q), 8) == Shift16(PolyMul(MODULUS, q, 8))
    ensures Half(Xtime(q)) == q && !Low(Xtime(q))
  {
    hide *;
    TopBitClear(q);
    DoubleHalves(q);
    PolyStep(MODULUS, Xtime(q), 8);
    PolyLeftShift(MODULUS, q, 7);
    PolyDropTop(MODULUS, q, 7);
    Add16Laws(PolyMul(Shift16(MODULUS), q, 7), 0, 0, 0);
  }

  lemma BitFits(top: byte)
    requires top == 0 || top == 1
    ensures Fits(top, 1)
  {}

  lemma QuotientFits(q: byte, top: byte, k: nat)
    requires k <= 7 && Fits(q, k)
    requires top == 0 || top == 1
    ensures Fits(q, 7) && Fits(Add(Xtime(q), top), k + 1)
  {
    hide Xtime, Add, Half;
    FitsAtLeast(q, k, 7);
    DoubleQuotient(q);
    assert Fits(Xtime(q), k + 1);
    BitFits(top);
    hide *;
    FitsAtLeast(top, 1, k + 1);
    FitsAdds(Xtime(q), top, k + 1);
  }

  /** One multiplication by x: the quotient is doubled and takes up the bit shifted out. */
  lemma Reduce(wide: bv16, a: byte, q: byte, k: nat) returns (q': byte)
    requires k <= 7 && Fits(q, k)
    requires wide == Add16(PolyMul(MODULUS, q, 8), Widen(a))
    ensures Fits(q', k + 1)
    ensures Shift16(wide) == Add16(PolyMul(MODULUS, q', 8), Widen(Xtime(a)))
  {
    hide *;
    var top: byte := if a & 128 != 0 then 1 else 0;
    q' := Add(Xtime(q), top);
    QuotientFits(q, top, k);
    PolyOne(MODULUS, 7);
    ShiftReduces(a);
    DoubleQuotient(q);
    PolyRightAdds(MODULUS, Xtime(q), top, 8);
    Add16Laws(PolyMul(MODULUS, q, 8), Widen(a), 0, 0);
    Add16Assoc(Shift16(PolyMul(MODULUS, q, 8)), PolyMul(MODULUS, top, 8), Widen(Xtime(a)));
  }

  lemma Add16Assoc(a: bv16, b: bv16, c: bv16)
    ensures Add16(a, Add16(b, c)) == Add16(Add16(a, b), c)
  {}

  lemma ShiftReduces(a: byte)
    ensures Shift16(Widen(a)) == Add16(if a & 128 != 0 then MODULUS else 0, Widen(Xtime(a)))
  {}

  lemma {:induction false} FitsAtLeast(b: byte, m: nat, n: nat)
    requires m <= n && Fits(b, m)
    ensures Fits(b, n)
    decreases n - m
  {
    if m < n {
      FitsMore(b, m);
      FitsAtLeast(b, m + 1, n);
    }
  }

  lemma {:induction false} PolyZero(a: bv16, n: nat)
    ensures PolyMul(a, 0, n) == 0
    decreases n
  {
    if n > 0 {
      assert Half(0) == 0 && !Low(0);
      PolyZero(Shift16(a), n - 1);
      hide *;
      PolyStep(a, 0, n);
      Add16Laws(0, 0, 0, 0);
    }
  }

  lemma PolyOne(a: bv16, n: nat)
    ensures PolyMul(a, 1, n + 1) == a
    ensures PolyMul(a, 0, n + 1) == 0
  {
    assert Half(1) == 0 && Low(1);
    hide *;
    PolyZero(Shift16(a), n);
    PolyZero(a, n + 1);
    PolyStep(a, 1, n + 1);
    Add16Laws(a, 0, 0, 0);
  }

  lemma {:induction false} RemainderFrom(wide: bv16, a: byte, b: byte, q: byte, k: nat, n: nat) returns (r: byte)
    requires k + n <= 8 && Fits(q, k)
    requires wide == Add16(PolyMul(MODULUS, q, 8), Widen(a))
    ensures PolyMul(wide, b, n) == Add16(PolyMul(MODULUS, r, 8), Widen(MulFrom(a, b, n)))
    decreases n
  {
    if n == 0 {
      r := 0;
      PolyZero(MODULUS, 8);
      WidenAdds(0, 0);
      Add16Laws(0, 0, 0, 0);
    } else {
      hide *;
      var q' := Reduce(wide, a, q, k);
      var r' := RemainderFrom(Shift16(wide), Xtime(a), Half(b), q', k + 1, n - 1);
      PolyStep(wide, b, n);
      Step(a, b, n);
      WidenAdds(Times(a, Low(b)), MulFrom(Xtime(a), Half(b), n - 1));
      Select(a, Low(b));
      if Low(b) {
        r := Add(q, r');
        PolyRightAdds(MODULUS, q, r', 8);
        Add16Laws(PolyMul(MODULUS, q, 8), Widen(a), PolyMul(MODULUS, r', 8), Widen(MulFrom(Xtime(a), Half(b), n - 1)));
      } else {
        r := r';
        WidenAdds(0, 0);
        Add16Laws(PolyMul(Shift16(wide), Half(b), n - 1), 0, 0, 0);
        Add16Laws(Widen(MulFrom(Xtime(a), Half(b), n - 1)), 0, 0, 0);
      }
    }
  }

  lemma Select(a: byte, bit: bool)
    ensures Times(a, bit) == if bit then a else 0
  {}

  /** `Mul(a, b)` is the remainder, of degree below 8, of the polynomial product modulo x^8 + x^4 + x^3 + x + 1. */
  lemma MulIsRemainder(a: byte, b: byte)
    ensures exists q: byte :: PolyMul(Widen(a), b, 8) == Add16(PolyMul(0x11b, q, 8), Widen(Mul(a, b)))
  {
    assert Fits(0, 0);
    hide *;
    PolyZero(MODULUS, 8);
    Add16Laws(Widen(a), 0, 0, 0);
    MulIs(a, b);
    var q := RemainderFrom(Widen(a), a, b, 0, 0, 8);
  }

  lemma LoopStep(result: byte, a: byte, b: byte, n: nat)
    requires n > 0
    ensures Add(result, MulFrom(a, b, n))
         == Add(Add(result, Times(a, Low(b))), MulFrom(Xtime(a), Half(b), n - 1))
  {
    hide *;
    Step(a, b, n);
    AddLaws(result, Times(a, Low(b)), MulFrom(Xtime(a), Half(b), n - 1));
  }

  /** The multiplication loop of the source. */
  method Multiply(a0: byte, b0: byte) returns (result: byte)
    ensures result == Mul(a0, b0)
  {
    var a, b := a0, b0;
    result := 0;
    AddLaws(Mul(a0, b0), 0, 0);
    AddLaws(0, Mul(a0, b0), 0);
    hide Add, MulFrom;
    for k := 0 to 8
      invariant Add(result, MulFrom(a, b, 8 - k)) == Mul(a0, b0)
    {
      LoopStep(result, a, b, 8 - k);
      AddLaws(result, 0, 0);
      ghost var before := result;
      if b & 1 != 0 {
        result := Add(result, a);
      }
      assert result == Add(before, Times(a, Low(b)));
      a := (a << 1) ^ (if a & 128 != 0 then 0x1b else 0);
      b := b >> 1;
    }
    assert MulFrom(a, b, 0) == 0 by { MulNone(a, b); }
    AddLaws(result, 0, 0);
  }
  lemma MulNone(a: byte, b: byte)
    ensures MulFrom(a, b, 0) == 0
  {}
}
