/** What the checksum is: a remainder of polynomials over two elements, computed by
    long division, without registers and without the constant of lab2/src/util.c. */
module Division {
  import opened Bytes
  import opened Crc

  /** The polynomial of CRC-32 has these exponents, and 32. */
  const EXPONENTS: set<int> := {26, 23, 22, 16, 12, 11, 10, 8, 7, 5, 4, 2, 1, 0}

  function XorBits(a: seq<bool>, b: seq<bool>): (r: seq<bool>)
    requires |a| == |b|
    ensures |r| == |a| && forall i :: 0 <= i < |a| ==> r[i] == (a[i] != b[i])
  {
    seq(|a|, i requires 0 <= i < |a| => a[i] != b[i])
  }

  function Complement(a: seq<bool>): (r: seq<bool>)
    ensures |r| == |a| && forall i :: 0 <= i < |a| ==> r[i] == !a[i]
  {
    seq(|a|, i requires 0 <= i < |a| => !a[i])
  }

  function Zeros(n: nat): (z: seq<bool>)
    ensures |z| == n && forall i :: 0 <= i < n ==> !z[i]
  {
    seq(n, _ => false)
  }

  /** The polynomial's coefficients below 32, highest first. */
  function Divisor(): (g: seq<bool>)
    ensures |g| == 32
  {
    seq(32, i requires 0 <= i < 32 => 31 - i in EXPONENTS)
  }

  /** Long division: the coefficients of the dividend, highest first, are brought
      down one by one to the remainder so far; when it has reached degree 32, the
      divisor is subtracted. */
  function Remainder(rem: seq<bool>, dividend: seq<bool>): (r: seq<bool>)
    requires |rem| == 32
    ensures |r| == 32
    decreases dividend
  {
    if dividend == [] then rem
    else
      var brought := rem[1..] + [dividend[0]];
      Remainder(if rem[0] then XorBits(brought, Divisor()) else brought, dividend[1..])
  }

  /** Complementing the first 32 bits: bits lie in the order in which they are sent,
      lowest bit of a byte first. */
  function Prepared(bits: seq<bool>): (d: seq<bool>)
    ensures |d| == |bits| + 32
  {
    Complement((bits + Zeros(32))[..32]) + (bits + Zeros(32))[32..]
  }

  // ---- Registers as polynomials ----

  lemma LowBitsCons(w: bv32, n: nat)
    requires n > 0
    ensures LowBits(w, n) == [Odd(w)] + LowBits(Half(w), n - 1)
  {
  }

  lemma XorCons(r: seq<bool>, a: seq<bool>, b: seq<bool>)
    requires |r| == |a| == |b| > 0 && r[0] == (a[0] != b[0]) && r[1..] == XorBits(a[1..], b[1..])
    ensures r == XorBits(a, b)
  {
    assert r == [r[0]] + r[1..];
  }

  lemma XorParts(a: bv32, b: bv32)
    ensures Odd(Xor(a, b)) == (Odd(a) != Odd(b))
    ensures Half(Xor(a, b)) == Xor(Half(a), Half(b))
  {
  }

  lemma LowBitsParts(w: bv32, n: nat)
    requires n > 0
    ensures LowBits(w, n)[0] == Odd(w) && LowBits(w, n)[1..] == LowBits(Half(w), n - 1)
  {
    LowBitsCons(w, n);
  }

  lemma {:induction false} LowBitsXor(a: bv32, b: bv32, n: nat)
    ensures LowBits(Xor(a, b), n) == XorBits(LowBits(a, n), LowBits(b, n))
    decreases n
  {
    if n > 0 {
      LowBitsXor(Half(a), Half(b), n - 1);
      LowBitsParts(Xor(a, b), n);
      LowBitsParts(a, n);
      LowBitsParts(b, n);
      XorParts(a, b);
      XorCons(LowBits(Xor(a, b), n), LowBits(a, n), LowBits(b, n));
    }
  }

  function Ones(n: nat): (z: seq<bool>)
    ensures |z| == n && forall i :: 0 <= i < n ==> z[i]
  {
    seq(n, _ => true)
  }

  lemma {:induction false} LowBitsNone(n: nat)
    ensures LowBits(0, n) == Zeros(n)
  {
    if n > 0 {
      HalfNone();
      LowBitsNone(n - 1);
    }
  }

  lemma HalfNone()
    ensures Half(0) == 0 && !Odd(0)
  {
  }

  lemma MaskHalf(m: bv32)
    requires !TopBit(m)
    ensures Half(Xor(Double(m), 1)) == m && Odd(Xor(Double(m), 1))
  {
  }

  lemma MaskFits(k: nat)
    requires k <= 31
    ensures !TopBit(Mask(k))
  {
    Masks();
    MaskGrows(k, 31);
    InsideLow(Mask(k));
  }

  lemma {:induction false} LowBitsMask(k: nat, n: nat)
    requires k <= n <= 32
    ensures LowBits(Mask(k), n) == Ones(k) + Zeros(n - k)
  {
    if k == 0 {
      LowBitsNone(n);
    } else {
      MaskFits(k - 1);
      MaskHalf(Mask(k - 1));
      LowBitsMask(k - 1, n - 1);
    }
  }

  const TOP: bv32 := 0x8000_0000

  lemma TopMask()
    ensures Mask(32) == ONES && Xor(Mask(32), Mask(31)) == TOP
  {
    Masks();
    assert Mask(32) == Xor(Double(Mask(31)), 1);
  }

  lemma LowBitsTop(n: nat)
    requires n == 32
    ensures LowBits(TOP, n) == Zeros(n - 1) + [true]
  {
    TopMask();
    LowBitsXor(Mask(n), Mask(n - 1), n);
    LowBitsMask(n, n);
    LowBitsMask(n - 1, n);
  }

  lemma {:induction false} LowBitsLonger(w: bv32, n: nat)
    ensures LowBits(w, n + 1) == LowBits(w, n) + [Odd(ShiftedDown(w, n))]
    decreases n
  {
    if n > 0 {
      ShiftedHalf(w, n - 1);
      LowBitsLonger(Half(w), n - 1);
    }
  }

  lemma {:induction false} ShiftedHalf(w: bv32, n: nat)
    ensures ShiftedDown(Half(w), n) == ShiftedDown(w, n + 1)
    decreases n
  {
    if n > 0 {
      ShiftedHalf(w, n - 1);
    }
  }

  lemma {:induction false} ShiftedOut(w: bv32, n: nat)
    requires Inside(w, Mask(n))
    ensures ShiftedDown(w, n) == 0
    decreases n
  {
    if n == 0 {
      InsideNothing(w);
    } else {
      HalfInside(w, Mask(n - 1));
      ShiftedOut(Half(w), n - 1);
      ShiftedHalf(w, n - 1);
    }
  }

  lemma InsideAll(w: bv32)
    ensures Inside(w, ONES)
  {
  }

  /** Moving a register of n bits down by one place. */
  lemma LowBitsHalf(w: bv32, n: nat)
    requires n > 0 && Inside(w, Mask(n))
    ensures LowBits(Half(w), n) == LowBits(w, n)[1..] + [false]
  {
    ShiftedOut(w, n);
    HalfNone();
    LowBitsLonger(w, n);
    LowBitsCons(w, n + 1);
    assert LowBits(w, n + 1)[1..] == LowBits(Half(w), n);
  }

  function Lowest(b: bool): bv32 { if b then TOP else 0 }

  /** One line of the division on registers. */
  function Bring(r: bv32, b: bool): bv32 {
    Xor(BitStep(r), Lowest(b))
  }

  lemma LowBitsLowest(b: bool, n: nat)
    requires n == 32
    ensures LowBits(Lowest(b), n) == Zeros(n - 1) + [b]
  {
    LowBitsTop(n);
    LowBitsNone(n);
  }

  /** Four bits at a time. */
  function Nibble(w: bv32): (bits: seq<bool>)
    ensures |bits| == 4
  {
    [w & 1 != 0, w & 2 != 0, w & 4 != 0, w & 8 != 0]
  }

  lemma FirstBit(w: bv32)
    ensures Odd(w) == (w & 1 != 0)
  {
  }

  lemma SecondBit(w: bv32)
    ensures Odd(Half(w)) == (w & 2 != 0)
  {
  }

  lemma ThirdBit(w: bv32)
    ensures Odd(Half(Half(w))) == (w & 4 != 0)
  {
  }

  lemma FourthBit(w: bv32)
    ensures Odd(Half(Half(Half(w)))) == (w & 8 != 0)
  {
  }

  lemma FourHalves(w: bv32)
    ensures Half(Half(Half(Half(w)))) == w >> 4
  {
  }

  lemma LowBitsNibble(w: bv32, n: nat)
    ensures LowBits(w, n + 4) == Nibble(w) + LowBits(w >> 4, n)
  {
    FirstBit(w);
    SecondBit(w);
    ThirdBit(w);
    FourthBit(w);
    FourHalves(w);
    LowBitsCons(w, n + 4);
    LowBitsCons(Half(w), n + 3);
    LowBitsCons(Half(Half(w)), n + 2);
    LowBitsCons(Half(Half(Half(w))), n + 1);
  }

  lemma TwoNibbles(w: bv32, n: nat)
    ensures LowBits(w, n + 8) == Nibble(w) + Nibble(w >> 4) + LowBits(w >> 4 >> 4, n)
  {
    LowBitsNibble(w, n + 4);
    LowBitsNibble(w >> 4, n);
  }

  lemma DivisorBits()
    ensures Divisor()[..8] == [false, false, false, false, false, true, false, false]
    ensures Divisor()[8..16] == [true, true, false, false, false, false, false, true]
    ensures Divisor()[16..24] == [false, false, false, true, true, true, false, true]
    ensures Divisor()[24..] == [true, false, true, true, false, true, true, true]
  {
  }

  lemma PolyBits(n: nat)
    requires n == 32
    ensures LowBits(POLY, n) == (Nibble(0xEDB8_8320) + Nibble(0xEDB_8832)) + (Nibble(0xED_B883) + Nibble(0xE_DB88))
      + (Nibble(0xEDB8) + Nibble(0xEDB)) + (Nibble(0xED) + Nibble(0xE))
  {
    TwoNibbles(0xEDB8_8320, n - 8);
    TwoNibbles(0xED_B883, n - 16);
    TwoNibbles(0xEDB8, n - 24);
    TwoNibbles(0xED, n - 32);
  }

  /** The constant of the code is that polynomial. */
  lemma PolyIsDivisor(n: nat)
    requires n == 32
    ensures LowBits(POLY, n) == Divisor()
  {
    PolyBits(n);
    DivisorBits();
    var d := Divisor();
    assert d == d[..8] + d[8..16] + d[16..24] + d[24..];
    assert Nibble(0xEDB8_8320) + Nibble(0xEDB_8832) == d[..8];
    assert Nibble(0xED_B883) + Nibble(0xE_DB88) == d[8..16];
    assert Nibble(0xEDB8) + Nibble(0xEDB) == d[16..24];
    assert Nibble(0xED) + Nibble(0xE) == d[24..];
  }

  lemma StepIsLine(r: bv32, n: nat)
    requires n == 32
    ensures LowBits(BitStep(r), n)
         == var moved := LowBits(r, n)[1..] + [false];
            if LowBits(r, n)[0] then XorBits(Divisor(), moved) else moved
  {
    TopMask();
    InsideAll(r);
    LowBitsHalf(r, n);
    LowBitsParts(r, n);
    if Odd(r) {
      PolyIsDivisor(n);
      LowBitsXor(POLY, Half(r), n);
    } else {
      XorNone(Half(r));
    }
  }

  lemma XorNone(w: bv32)
    ensures Xor(0, w) == w
  {
  }

  lemma BroughtDown(moved: seq<bool>, b: bool, g: seq<bool>)
    requires |moved| == 31 && |g| == 32
    ensures XorBits(moved + [false], Zeros(31) + [b]) == moved + [b]
    ensures XorBits(XorBits(g, moved + [false]), Zeros(31) + [b]) == XorBits(moved + [b], g)
  {
  }

  lemma BringIsLine(r: bv32, b: bool, n: nat)
    requires n == 32
    ensures LowBits(Bring(r, b), n)
         == var brought := LowBits(r, n)[1..] + [b];
            if LowBits(r, n)[0] then XorBits(brought, Divisor()) else brought
  {
    StepIsLine(r, n);
    LowBitsLowest(b, n);
    LowBitsXor(BitStep(r), Lowest(b), n);
    BroughtDown(LowBits(r, n)[1..], b, Divisor());
  }

  function Divide(r: bv32, bits: seq<bool>): bv32
    decreases bits
  {
    if bits == [] then r else Divide(Bring(r, bits[0]), bits[1..])
  }

  lemma {:induction false} DivideIsRemainder(r: bv32, bits: seq<bool>, n: nat)
    requires n == 32
    ensures LowBits(Divide(r, bits), n) == Remainder(LowBits(r, n), bits)
    decreases bits
  {
    if bits != [] {
      BringIsLine(r, bits[0], n);
      DivideIsRemainder(Bring(r, bits[0]), bits[1..], n);
    }
  }

  // ---- The register of the code ----

  lemma XorSwapInner(b: bv32, c: bv32, d: bv32)
    ensures Xor(b, Xor(c, d)) == Xor(c, Xor(b, d))
  {
  }

  lemma XorSwap(a: bv32, b: bv32, c: bv32, d: bv32)
    ensures Xor(Xor(a, b), Xor(c, d)) == Xor(Xor(a, c), Xor(b, d))
  {
    XorAssoc(a, b, Xor(c, d));
    XorAssoc(a, c, Xor(b, d));
    XorSwapInner(b, c, d);
  }

  function Fed(odd: bool): bv32 { if odd then POLY else 0 }

  lemma FedXor(p: bool, q: bool)
    ensures Fed(p != q) == Xor(Fed(p), Fed(q))
  {
  }

  lemma BitStepXor(a: bv32, b: bv32)
    ensures BitStep(Xor(a, b)) == Xor(BitStep(a), BitStep(b))
  {
    XorParts(a, b);
    FedXor(Odd(a), Odd(b));
    XorSwap(Fed(Odd(a)), Fed(Odd(b)), Half(a), Half(b));
  }

  lemma {:induction false} BitStepsXor(a: bv32, b: bv32, n: nat)
    ensures BitSteps(Xor(a, b), n) == Xor(BitSteps(a, n), BitSteps(b, n))
    decreases n
  {
    if n > 0 {
      BitStepsXor(a, b, n - 1);
      BitStepXor(BitSteps(a, n - 1), BitSteps(b, n - 1));
    }
  }

  lemma BitStepNone()
    ensures BitStep(0) == 0
  {
  }

  lemma {:induction false} BitStepsNone(n: nat)
    ensures BitSteps(0, n) == 0
  {
    if n > 0 {
      BitStepsNone(n - 1);
      BitStepNone();
    }
  }

  lemma {:induction false} BitStepsMore(r: bv32, n: nat)
    ensures BitSteps(BitStep(r), n) == BitSteps(r, n + 1)
    decreases n
  {
    if n > 0 {
      BitStepsMore(r, n - 1);
    }
  }

  lemma {:induction false} DivideZeros(r: bv32, n: nat)
    ensures Divide(r, Zeros(n)) == BitSteps(r, n)
    decreases n
  {
    if n > 0 {
      XorZero(BitStep(r));
      assert Zeros(n)[1..] == Zeros(n - 1);
      DivideZeros(BitStep(r), n - 1);
      BitStepsMore(r, n - 1);
    }
  }

  lemma {:induction false} DivideConcat(r: bv32, a: seq<bool>, b: seq<bool>)
    ensures Divide(r, a + b) == Divide(Divide(r, a), b)
    decreases a
  {
    if a == [] {
      assert a + b == b;
    } else {
      assert (a + b)[1..] == a[1..] + b;
      DivideConcat(Bring(r, a[0]), a[1..], b);
    }
  }

  lemma LowestXor(p: bool, q: bool)
    ensures Lowest(p != q) == Xor(Lowest(p), Lowest(q))
  {
  }

  lemma BringXor(r: bv32, s: bv32, p: bool, q: bool)
    ensures Bring(Xor(r, s), p != q) == Xor(Bring(r, p), Bring(s, q))
  {
    BitStepXor(r, s);
    LowestXor(p, q);
    XorSwap(BitStep(r), BitStep(s), Lowest(p), Lowest(q));
  }

  /** The division is linear. */
  lemma {:induction false} DivideXor(r: bv32, s: bv32, x: seq<bool>, y: seq<bool>)
    requires |x| == |y|
    ensures Divide(Xor(r, s), XorBits(x, y)) == Xor(Divide(r, x), Divide(s, y))
    decreases x
  {
    if x != [] {
      BringXor(r, s, x[0], y[0]);
      XorBitsParts(x, y);
      DivideXor(Bring(r, x[0]), Bring(s, y[0]), x[1..], y[1..]);
    }
  }

  lemma XorBitsParts(x: seq<bool>, y: seq<bool>)
    requires |x| == |y| > 0
    ensures XorBits(x, y)[0] == (x[0] != y[0]) && XorBits(x, y)[1..] == XorBits(x[1..], y[1..])
  {
  }

  /** A bit brought down 32 places early enters the register at its other end. */
  lemma LowestRises(n: nat)
    requires n == 32
    ensures BitSteps(TOP, n) == BitStep(1)
  {
    TopRises(n - 1);
  }

  lemma HalfDouble(w: bv32)
    requires !TopBit(w)
    ensures Half(Double(w)) == w && !Odd(Double(w))
  {
  }

  function Single(k: nat): bv32 {
    if k == 0 then 1 else Double(Single(k - 1))
  }

  lemma DoubleDiffer(a: bv32, b: bv32)
    ensures Double(Xor(a, b)) == Xor(Xor(Double(a), 1), Xor(Double(b), 1))
  {
  }

  lemma {:induction false} SingleDiffers(k: nat)
    ensures Single(k) == Xor(Mask(k + 1), Mask(k))
  {
    if k == 0 {
      assert Mask(1) == 1 && Mask(0) == 0;
    } else {
      SingleDiffers(k - 1);
      DoubleDiffer(Mask(k), Mask(k - 1));
    }
  }

  lemma LastSingle()
    ensures Single(31) == TOP
  {
    TopMask();
    SingleDiffers(31);
  }

  lemma SingleInside(w: bv32, m: bv32)
    requires Inside(w, m)
    ensures Inside(Double(w), Xor(Double(m), 1))
  {
  }

  lemma OneInside()
    ensures Inside(1, Xor(Double(0), 1))
  {
  }

  lemma {:induction false} SingleFits(k: nat)
    ensures Inside(Single(k), Mask(k + 1))
  {
    if k == 0 {
      OneInside();
    } else {
      SingleFits(k - 1);
      SingleInside(Single(k - 1), Mask(k));
    }
  }

  lemma SingleBelow(k: nat)
    requires k < 31
    ensures !TopBit(Single(k))
  {
    SingleFits(k);
    Masks();
    MaskGrows(k + 1, 31);
    InsideTrans(Single(k), Mask(k + 1), Mask(31));
    InsideLow(Single(k));
  }

  lemma {:induction false} SingleSteps(k: nat)
    requires k <= 31
    ensures BitSteps(Single(k), k) == 1
  {
    if k > 0 {
      SingleBelow(k - 1);
      HalfDouble(Single(k - 1));
      XorNone(Single(k - 1));
      assert BitStep(Single(k)) == Single(k - 1);
      SingleSteps(k - 1);
      BitStepsMore(Single(k), k - 1);
    }
  }

  lemma TopRises(n: nat)
    requires n == 31
    ensures BitSteps(TOP, n) == 1
  {
    LastSingle();
    SingleSteps(n);
  }

  lemma LowestBit(b: bool, n: nat)
    requires n == 32
    ensures BitSteps(Lowest(b), n) == BitStep(Bit(b))
  {
    LowestRises(n);
    BitStepsNone(n);
    BitStepNone();
  }

  lemma RiseOne(r: bv32, b: bool, n: nat)
    requires n == 32
    ensures BitSteps(Bring(r, b), n) == BitStep(Xor(BitSteps(r, n), Bit(b)))
  {
    BitStepsXor(BitStep(r), Lowest(b), n);
    BitStepsMore(r, n);
    LowestBit(b, n);
    BitStepXor(BitSteps(r, n), Bit(b));
  }

  /** Feeding bits in at the end of the register is dividing with 32 zeros behind. */
  lemma {:induction false} RunIsDivision(r: bv32, bits: seq<bool>, n: nat)
    requires n == 32
    ensures BitRun(BitSteps(r, n), bits) == Divide(r, bits + Zeros(n))
    decreases bits
  {
    if bits == [] {
      DivideZeros(r, n);
      assert bits + Zeros(n) == Zeros(n);
    } else {
      RiseOne(r, bits[0], n);
      assert (bits + Zeros(n))[1..] == bits[1..] + Zeros(n);
      RunIsDivision(Bring(r, bits[0]), bits[1..], n);
    }
  }

  lemma {:induction false} BitRunXor(r: bv32, s: bv32, bits: seq<bool>)
    ensures BitRun(Xor(r, s), bits) == Xor(BitRun(r, bits), BitSteps(s, |bits|))
    decreases bits
  {
    if bits != [] {
      var b := Bit(bits[0]);
      MoveOut(r, s, b);
      BitStepXor(Xor(r, b), s);
      BitRunXor(BitStep(Xor(r, b)), BitStep(s), bits[1..]);
      BitStepsMore(s, |bits| - 1);
    }
  }

  lemma XorComm(a: bv32, b: bv32)
    ensures Xor(a, b) == Xor(b, a)
  {
  }

  lemma MoveOut(r: bv32, s: bv32, b: bv32)
    ensures Xor(Xor(r, s), b) == Xor(Xor(r, b), s)
  {
    XorAssoc(r, s, b);
    XorComm(s, b);
    XorAssoc(r, b, s);
  }

  /** The 32 complemented bits leave the register full of ones. */
  lemma OnesDivided(n: nat)
    requires n == 32
    ensures Divide(0, Ones(n)) == ONES
  {
    TopMask();
    OnesInto(n, n);
    LowBitsMask(n, n);
    assert Ones(n) + Zeros(0) == Ones(n) && Zeros(0) + Ones(n) == Ones(n);
    LowBitsDetermine(Divide(0, Ones(n)), ONES, n);
  }

  lemma DivideLast(r: bv32, bits: seq<bool>, b: bool)
    ensures Divide(r, bits + [b]) == Bring(Divide(r, bits), b)
  {
    DivideConcat(r, bits, [b]);
    assert [b][1..] == [];
  }

  lemma OnesLast(k: nat)
    requires k > 0
    ensures Ones(k) == Ones(k - 1) + [true]
  {
  }

  lemma OneInto(r: bv32, k: nat, n: nat)
    requires k < n == 32 && LowBits(r, n) == Zeros(n - k) + Ones(k)
    ensures LowBits(Bring(r, true), n) == Zeros(n - k - 1) + Ones(k + 1)
  {
    BringIsLine(r, true, n);
  }

  lemma {:induction false} OnesInto(k: nat, n: nat)
    requires k <= n == 32
    ensures LowBits(Divide(0, Ones(k)), n) == Zeros(n - k) + Ones(k)
    decreases k
  {
    if k == 0 {
      LowBitsNone(n);
      assert Zeros(n) + Ones(0) == Zeros(n);
    } else {
      OnesInto(k - 1, n);
      DivideLast(0, Ones(k - 1), true);
      OnesLast(k);
      OneInto(Divide(0, Ones(k - 1)), k - 1, n);
    }
  }

  // ---- The law ----

  lemma PreparedIs(bits: seq<bool>)
    ensures Prepared(bits) == XorBits(bits + Zeros(32), Ones(32) + Zeros(|bits|))
  {
  }

  lemma OnesBehind(k: nat, n: nat)
    requires n == 32
    ensures Divide(0, Ones(n) + Zeros(k)) == BitSteps(ONES, k)
  {
    OnesDivided(n);
    DivideConcat(0, Ones(n), Zeros(k));
    DivideZeros(ONES, k);
  }

  lemma RunIsRemainder(bits: seq<bool>, n: nat)
    requires n == 32
    ensures BitRun(ONES, bits) == Divide(0, Prepared(bits))
  {
    BitStepsNone(n);
    RunIsDivision(0, bits, n);
    BitRunXor(0, ONES, bits);
    XorNone(ONES);
    OnesBehind(|bits|, n);
    PreparedIs(bits);
    XorNone(0);
    DivideXor(0, 0, bits + Zeros(n), Ones(n) + Zeros(|bits|));
  }

  lemma LowBitsInverted(w: bv32, n: nat)
    requires n == 32
    ensures LowBits(Xor(w, ONES), n) == Complement(LowBits(w, n))
  {
    TopMask();
    LowBitsMask(n, n);
    LowBitsXor(w, ONES, n);
    assert Ones(n) + Zeros(0) == Ones(n);
  }

  /** For every byte string the checksum's bits, lowest first, are the complement of
      the remainder that the polynomial of CRC-32 leaves of the string's bits, with
      32 zeros behind and the first 32 bits complemented. */
  lemma ChecksumIsRemainder(data: seq<byte>)
    ensures LowBits(Checksum(data), 32) == Complement(Remainder(Zeros(32), Prepared(Bits(data))))
  {
    RemainderLaw(data, 32);
  }

  lemma RemainderLaw(data: seq<byte>, n: nat)
    requires n == 32
    ensures LowBits(Checksum(data), n) == Complement(Remainder(Zeros(n), Prepared(Bits(data))))
  {
    ChecksumOfBits(data);
    RunIsRemainder(Bits(data), n);
    LowBitsInverted(Divide(0, Prepared(Bits(data))), n);
    LowBitsNone(n);
    DivideIsRemainder(0, Prepared(Bits(data)), n);
  }

  /** And those bits determine it. */
  lemma LowBitsDetermine(a: bv32, b: bv32, n: nat)
    requires n == 32 && LowBits(a, n) == LowBits(b, n)
    ensures a == b
  {
    TopMask();
    InsideAll(a);
    InsideAll(b);
    LowBitsWord(a, n);
    LowBitsWord(b, n);
  }
}
