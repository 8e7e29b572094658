/** The table-driven checksum (lab2/src/util.c). Its table and its start value
    absorb the initial and the final inversion of the standard CRC-32. */
module Crc {
  import opened Bytes

  const POLY: bv32 := 0xEDB8_8320
  const ONES: bv32 := 0xFFFF_FFFF

  // ---- 32-bit registers ----
  // The operations have names so that proofs can treat them as symbols; what
  // is needed about their bits is collected in the lemmas of this section.

  function Xor(a: bv32, b: bv32): bv32 { a ^ b }

  function Half(r: bv32): bv32 { r >> 1 }

  function Double(r: bv32): bv32 { r << 1 }

  predicate Odd(r: bv32) { r & 1 == 1 }

  predicate TopBit(r: bv32) { r & 0x8000_0000 != 0 }

  function Low(r: bv32): bv32 { r & 0xFF }

  function High(r: bv32): bv32 { r >> 8 }

  function Up(r: bv32): bv32 { r << 8 }

  predicate TopByteClear(r: bv32) { r & 0xFF00_0000 == 0 }

  function Wide(b: byte): bv32 { b as bv32 }

  function Step(r: bv32, odd: bv32, even: bv32): bv32 {
    Xor(if Odd(r) then odd else even, Half(r))
  }

  lemma XorZero(a: bv32)
    ensures Xor(a, 0) == a
  {
  }

  lemma XorXor(a: bv32, b: bv32)
    ensures Xor(Xor(a, b), b) == a
  {
  }

  lemma XorAssoc(a: bv32, b: bv32, c: bv32)
    ensures Xor(Xor(a, b), c) == Xor(a, Xor(b, c))
  {
  }

  lemma XorCancel(c: bv32, a: bv32, b: bv32)
    requires Xor(c, a) == Xor(c, b)
    ensures a == b
  {
  }

  lemma XorTop(r: bv32, m: bv32)
    ensures Odd(m) ==> Odd(Xor(r, m)) == !Odd(r)
    ensures Half(Xor(r, m)) == Xor(Half(r), Half(m))
  {
  }

  /** Complementing the lowest bit exchanges the two outcomes of a step. */
  lemma StepComplemented(r: bv32, m: bv32, odd: bv32, even: bv32)
    requires Odd(m)
    ensures Step(Xor(r, m), even, odd) == Xor(Step(r, odd, even), Half(m))
  {
    XorTop(r, m);
    XorAssoc(if Odd(r) then odd else even, Half(r), Half(m));
  }

  lemma XorDouble(r: bv32, y: bv32)
    requires !TopBit(y)
    ensures Odd(Xor(r, Double(y))) == Odd(r)
    ensures Half(Xor(r, Double(y))) == Xor(Half(r), y)
  {
  }

  /** A difference above the lowest bit only moves down. */
  lemma StepOver(r: bv32, y: bv32, odd: bv32, even: bv32)
    requires !TopBit(y)
    ensures Step(Xor(r, Double(y)), odd, even) == Xor(Step(r, odd, even), y)
  {
    XorDouble(r, y);
    XorAssoc(if Odd(r) then odd else even, Half(r), y);
  }

  lemma HalfAndParity(r: bv32)
    ensures r == if Odd(r) then Xor(Double(Half(r)), 1) else Double(Half(r))
  {
  }

  /** The top bit of the outcome tells which branch a standard step took. */
  lemma StepParity(r: bv32)
    ensures TopBit(Xor(POLY, Half(r)))
    ensures !TopBit(Xor(0, Half(r)))
  {
  }

  lemma ComplementedIndex(c: bv32, b: byte)
    ensures Xor(Xor(Low(Xor(c, ONES)), Wide(b)), 0xFF) == Low(Xor(c, Wide(b)))
  {
  }

  lemma ComplementedShift(c: bv32, t: bv32)
    ensures Xor(Xor(t, 0xFF00_0000), High(Xor(c, ONES))) == Xor(Xor(t, High(c)), ONES)
  {
  }

  lemma SplitLow(x: bv32)
    ensures Xor(Low(x), Up(High(x))) == x
    ensures TopByteClear(High(x))
  {
  }

  lemma HighIgnoresByte(c: bv32, b: byte)
    ensures High(Xor(c, Wide(b))) == High(c)
  {
  }

  // ---- The standard: CRC-32 as given in section 8 of RFC 1952 ----

  function BitStep(r: bv32): bv32 {
    Step(r, POLY, 0)
  }

  function BitSteps(r: bv32, n: nat): bv32
    decreases n
  {
    if n == 0 then r else BitStep(BitSteps(r, n - 1))
  }

  function StandardTable(i: bv32): bv32 {
    BitSteps(i, 8)
  }

  function StandardStep(c: bv32, b: byte): bv32 {
    Xor(StandardTable(Low(Xor(c, Wide(b)))), High(c))
  }

  function StandardRun(c: bv32, data: seq<byte>): bv32
    decreases data
  {
    if data == [] then c else StandardRun(StandardStep(c, data[0]), data[1..])
  }

  function StandardCrc32(data: seq<byte>): bv32 {
    Xor(StandardRun(ONES, data), ONES)
  }

  // ---- The code ----

  function InvertedSteps(r: bv32, n: nat): bv32
    decreases n
  {
    if n == 0 then r else Step(InvertedSteps(r, n - 1), 0, POLY)
  }

  function ForByte(r: bv32): bv32 {
    Xor(InvertedSteps(r, 8), 0xFF00_0000)
  }

  function FoldedStep(c: bv32, b: byte): bv32 {
    Xor(ForByte(Xor(Low(c), Wide(b))), High(c))
  }

  function FoldedRun(c: bv32, data: seq<byte>): bv32
    decreases data
  {
    if data == [] then c else FoldedRun(FoldedStep(c, data[0]), data[1..])
  }

  function Checksum(data: seq<byte>): bv32 {
    FoldedRun(0, data)
  }

  // ---- Both compute the same ----

  function ShiftedDown(m: bv32, j: nat): bv32 {
    if j == 0 then m else Half(ShiftedDown(m, j - 1))
  }

  predicate LowBitsSet(m: bv32, j: nat) {
    j == 0 || (LowBitsSet(m, j - 1) && Odd(ShiftedDown(m, j - 1)))
  }

  /** If a register starts out differing from the standard one in the bits of m,
      then after j rounds it differs in the bits of m not yet shifted out. */
  lemma {:induction false} RoundsDiffer(r: bv32, m: bv32, j: nat)
    requires LowBitsSet(m, j)
    ensures InvertedSteps(Xor(r, m), j) == Xor(BitSteps(r, j), ShiftedDown(m, j))
  {
    if j > 0 {
      RoundsDiffer(r, m, j - 1);
      StepComplemented(BitSteps(r, j - 1), ShiftedDown(m, j - 1), POLY, 0);
    }
  }

  lemma ByteMask()
    ensures LowBitsSet(0xFF, 8) && ShiftedDown(0xFF, 8) == 0
  {
    assert ShiftedDown(0xFF, 1) == 0x7F;
    assert ShiftedDown(0xFF, 2) == 0x3F;
    assert ShiftedDown(0xFF, 3) == 0x1F;
    assert ShiftedDown(0xFF, 4) == 0xF;
    assert ShiftedDown(0xFF, 5) == 0x7;
    assert ShiftedDown(0xFF, 6) == 0x3;
    assert ShiftedDown(0xFF, 7) == 0x1;
  }

  lemma TableIsFolded(i: bv32)
    ensures ForByte(i) == Xor(StandardTable(Xor(i, 0xFF)), 0xFF00_0000)
  {
    ByteMask();
    RoundsDiffer(Xor(i, 0xFF), 0xFF, 8);
    XorXor(i, 0xFF);
    XorZero(BitSteps(Xor(i, 0xFF), 8));
  }

  lemma FoldedStepIsStandard(c: bv32, b: byte)
    ensures FoldedStep(Xor(c, ONES), b) == Xor(StandardStep(c, b), ONES)
  {
    TableIsFolded(Xor(Low(Xor(c, ONES)), Wide(b)));
    ComplementedIndex(c, b);
    ComplementedShift(c, StandardTable(Low(Xor(c, Wide(b)))));
  }

  lemma {:induction false} FoldedRunIsStandard(c: bv32, data: seq<byte>)
    ensures FoldedRun(Xor(c, ONES), data) == Xor(StandardRun(c, data), ONES)
    decreases data
  {
    if data != [] {
      FoldedStepIsStandard(c, data[0]);
      FoldedRunIsStandard(StandardStep(c, data[0]), data[1..]);
    }
  }

  lemma ChecksumIsStandard(data: seq<byte>)
    ensures Checksum(data) == StandardCrc32(data)
  {
    FoldedRunIsStandard(ONES, data);
  }

  // ---- The loops ----

  /** crc32_for_byte. */
  method Crc32ForByte(i: bv32) returns (r: bv32)
    ensures r == ForByte(i)
    ensures r == Xor(StandardTable(Xor(i, 0xFF)), 0xFF00_0000)
  {
    r := i;
    for j := 0 to 8
      invariant r == InvertedSteps(i, j)
    {
      r := Xor(if Odd(r) then 0 else POLY, Half(r));
    }
    TableIsFolded(i);
    r := Xor(r, 0xFF00_0000);
  }

  function Entry(i: int): bv32
    requires 0 <= i < 0x100
  {
    ForByte(Wide(ToByte(i)))
  }

  method EntryFor(i: int) returns (r: bv32)
    requires 0 <= i < 0x100
    ensures r == Entry(i)
  {
    r := Crc32ForByte(Wide(ToByte(i)));
  }

  lemma IndexIsByte(c: bv32, d: byte)
    ensures Wide((Low(c) as byte) ^ d) == Xor(Low(c), Wide(d))
  {
  }

  /** The static table: all zero until first used. */
  class Table {
    const table: array<bv32>

    ghost predicate Filled(n: nat)
      reads this, table
    {
      n <= table.Length == 0x100 && forall i :: 0 <= i < n ==> table[i] == Entry(i)
    }

    ghost predicate Valid()
      reads this, table
    {
      table.Length == 0x100 && (table[0] != 0 ==> Filled(0x100))
    }

    constructor ()
      ensures Valid() && fresh(table)
    {
      table := new bv32[0x100](_ => 0);
    }

    method Fill()
      requires Valid()
      modifies table
      ensures Filled(0x100)
    {
      for i := 0 to 0x100
        invariant Filled(i)
      {
        table[i] := EntryFor(i);
      }
    }

    /** crc32, with compute_checksum's start value. */
    method ComputeChecksum(data: seq<byte>) returns (crc: bv32)
      requires Valid()
      modifies table
      ensures Valid()
      ensures crc == StandardCrc32(data)
    {
      if table[0] == 0 {
        Fill();
      }
      crc := 0;
      for i := 0 to |data|
        invariant Filled(0x100)
        invariant FoldedRun(crc, data[i..]) == Checksum(data)
      {
        var b := (Low(crc) as byte) ^ data[i];
        ByteRoundTrip(b);
        IndexIsByte(crc, data[i]);
        assert data[i..][1..] == data[i + 1..];
        crc := Xor(table[b as int], High(crc));
      }
      ChecksumIsStandard(data);
    }
  }

  // ---- What the checksum detects ----

  lemma BitStepInjective(a: bv32, b: bv32)
    requires BitStep(a) == BitStep(b)
    ensures a == b
  {
    StepParity(a);
    StepParity(b);
    XorCancel(if Odd(a) then POLY else 0, Half(a), Half(b));
    HalfAndParity(a);
    HalfAndParity(b);
  }

  lemma {:induction false} BitStepsInjective(a: bv32, b: bv32, n: nat)
    requires BitSteps(a, n) == BitSteps(b, n)
    ensures a == b
    decreases n
  {
    if n > 0 {
      BitStepInjective(BitSteps(a, n - 1), BitSteps(b, n - 1));
      BitStepsInjective(a, b, n - 1);
    }
  }

  function ShiftedUp(y: bv32, n: nat): bv32
    decreases n
  {
    if n == 0 then y else ShiftedUp(Double(y), n - 1)
  }

  predicate FitsShifted(y: bv32, n: nat)
    decreases n
  {
    n == 0 || (!TopBit(y) && FitsShifted(Double(y), n - 1))
  }

  /** Bits that n rounds do not shift out pass through them unchanged. */
  lemma {:induction false} RoundsOver(x: bv32, y: bv32, n: nat)
    requires FitsShifted(y, n)
    ensures BitSteps(Xor(x, ShiftedUp(y, n)), n) == Xor(BitSteps(x, n), y)
    decreases n
  {
    if n > 0 {
      RoundsOver(x, Double(y), n - 1);
      StepOver(BitSteps(x, n - 1), y, POLY, 0);
    }
  }

  lemma DoubleFit(y: bv32, m: bv32)
    requires m == 0xFF00_0000 || m == 0xFE00_0000 || m == 0xFC00_0000 || m == 0xF800_0000
          || m == 0xF000_0000 || m == 0xE000_0000 || m == 0xC000_0000 || m == 0x8000_0000
    requires y & m == 0
    ensures !TopBit(y) && Double(y) & (m << 1) == 0
  {
  }

  lemma EightDoubles(y: bv32)
    ensures y << 1 << 1 << 1 << 1 << 1 << 1 << 1 << 1 == y << 8
  {
  }

  lemma ByteShift(y: bv32)
    requires TopByteClear(y)
    ensures FitsShifted(y, 8) && ShiftedUp(y, 8) == Up(y)
  {
    DoubleFit(y, 0xFF00_0000);
    var y1 := Double(y);
    DoubleFit(y1, 0xFE00_0000);
    var y2 := Double(y1);
    DoubleFit(y2, 0xFC00_0000);
    var y3 := Double(y2);
    DoubleFit(y3, 0xF800_0000);
    var y4 := Double(y3);
    DoubleFit(y4, 0xF000_0000);
    var y5 := Double(y4);
    DoubleFit(y5, 0xE000_0000);
    var y6 := Double(y5);
    DoubleFit(y6, 0xC000_0000);
    var y7 := Double(y6);
    DoubleFit(y7, 0x8000_0000);
    EightDoubles(y);
    assert FitsShifted(y7, 1) && ShiftedUp(y7, 1) == Double(y7);
    assert FitsShifted(y6, 2) && ShiftedUp(y6, 2) == Double(y7);
    assert FitsShifted(y5, 3) && ShiftedUp(y5, 3) == Double(y7);
    assert FitsShifted(y4, 4) && ShiftedUp(y4, 4) == Double(y7);
    assert FitsShifted(y3, 5) && ShiftedUp(y3, 5) == Double(y7);
    assert FitsShifted(y2, 6) && ShiftedUp(y2, 6) == Double(y7);
    assert FitsShifted(y1, 7) && ShiftedUp(y1, 7) == Double(y7);
  }

  /** A table step is eight rounds on the register with the byte added in. */
  lemma StepIsRounds(c: bv32, b: byte)
    ensures StandardStep(c, b) == BitSteps(Xor(c, Wide(b)), 8)
  {
    var x := Xor(c, Wide(b));
    SplitLow(x);
    ByteShift(High(x));
    RoundsOver(Low(x), High(x), 8);
    HighIgnoresByte(c, b);
  }

  lemma StepInjective(c: bv32, c': bv32, b: byte)
    requires StandardStep(c, b) == StandardStep(c', b)
    ensures c == c'
  {
    StepIsRounds(c, b);
    StepIsRounds(c', b);
    BitStepsInjective(Xor(c, Wide(b)), Xor(c', Wide(b)), 8);
    XorXor(c, Wide(b));
    XorXor(c', Wide(b));
  }

  lemma {:induction false} RunInjective(c: bv32, c': bv32, data: seq<byte>)
    requires StandardRun(c, data) == StandardRun(c', data)
    ensures c == c'
    decreases data
  {
    if data != [] {
      RunInjective(StandardStep(c, data[0]), StandardStep(c', data[0]), data[1..]);
      StepInjective(c, c', data[0]);
    }
  }

  lemma {:induction false} RoundsAdd(x: bv32, m: nat, n: nat)
    ensures BitSteps(BitSteps(x, m), n) == BitSteps(x, m + n)
    decreases n
  {
    if n > 0 {
      RoundsAdd(x, m, n - 1);
    }
  }

  // ---- Bit by bit ----

  function Bit(b: bool): bv32 { if b then 1 else 0 }

  /** The n lowest bits of a register, least significant first. */
  function LowBits(w: bv32, n: nat): (bits: seq<bool>)
    ensures |bits| == n
  {
    if n == 0 then [] else [Odd(w)] + LowBits(Half(w), n - 1)
  }

  /** The bits of a byte in the order in which the checksum takes them in. */
  function ByteBits(b: byte): (bits: seq<bool>)
    ensures |bits| == 8
  {
    LowBits(Wide(b), 8)
  }

  function Bits(data: seq<byte>): (bits: seq<bool>)
    ensures |bits| == 8 * |data|
  {
    if data == [] then [] else ByteBits(data[0]) + Bits(data[1..])
  }

  lemma {:induction false} BitOfByte(data: seq<byte>, k: nat, r: nat)
    requires k < |data| && r < 8
    ensures Bits(data)[8 * k + r] == ByteBits(data[k])[r]
  {
    if k > 0 {
      BitOfByte(data[1..], k - 1, r);
      assert Bits(data)[8 * k + r] == Bits(data[1..])[8 * (k - 1) + r];
    }
  }

  function BitRun(c: bv32, bits: seq<bool>): bv32
    decreases bits
  {
    if bits == [] then c else BitRun(BitStep(Xor(c, Bit(bits[0]))), bits[1..])
  }

  /** Up to 32 bits as one register. */
  function BitWord(bits: seq<bool>): bv32 {
    if bits == [] then 0 else Xor(Bit(bits[0]), Double(BitWord(bits[1..])))
  }

  /** The k lowest bits. */
  function Mask(k: nat): bv32 {
    if k == 0 then 0 else Xor(Double(Mask(k - 1)), 1)
  }

  predicate Inside(w: bv32, m: bv32) { w & !m == 0 }

  lemma InsideOneMore(b: bool, w: bv32, m: bv32)
    requires Inside(w, m)
    ensures Inside(Xor(Bit(b), Double(w)), Xor(Double(m), 1))
    ensures Inside(Xor(Double(w), 1), Xor(Double(m), 1))
  {
  }

  lemma InsideTrans(w: bv32, m: bv32, n: bv32)
    requires Inside(w, m) && Inside(m, n)
    ensures Inside(w, n)
  {
  }

  lemma {:induction false} MaskGrows(j: nat, k: nat)
    requires j <= k
    ensures Inside(Mask(j), Mask(k))
  {
    if j > 0 {
      MaskGrows(j - 1, k - 1);
      InsideOneMore(false, Mask(j - 1), Mask(k - 1));
    }
  }

  lemma {:induction false} BitWordInside(bits: seq<bool>)
    ensures Inside(BitWord(bits), Mask(|bits|))
  {
    if bits != [] {
      BitWordInside(bits[1..]);
      InsideOneMore(bits[0], BitWord(bits[1..]), Mask(|bits| - 1));
    }
  }

  lemma InsideLow(w: bv32)
    requires Inside(w, 0x7FFF_FFFF)
    ensures !TopBit(w)
  {
  }

  lemma FourOnes(m: bv32)
    ensures Xor(Double(Xor(Double(Xor(Double(Xor(Double(m), 1)), 1)), 1)), 1) == Xor(m << 4, 0xF)
  {
  }

  lemma FourMore(k: nat)
    ensures Mask(k + 4) == Xor(Mask(k) << 4, 0xF)
  {
    assert Mask(k + 1) == Xor(Double(Mask(k)), 1) && Mask(k + 2) == Xor(Double(Mask(k + 1)), 1);
    assert Mask(k + 3) == Xor(Double(Mask(k + 2)), 1) && Mask(k + 4) == Xor(Double(Mask(k + 3)), 1);
    FourOnes(Mask(k));
  }

  lemma Masks()
    ensures Mask(8) == 0xFF && Mask(31) == 0x7FFF_FFFF
  {
    assert Mask(1) == 1 && Mask(2) == 3 && Mask(3) == 7;
    FourMore(0);
    FourMore(4);
    FourMore(3);
    FourMore(7);
    FourMore(11);
    FourMore(15);
    FourMore(19);
    FourMore(23);
    FourMore(27);
  }

  lemma BitWordFits(bits: seq<bool>)
    requires |bits| <= 31
    ensures !TopBit(BitWord(bits))
  {
    BitWordInside(bits);
    MaskGrows(|bits|, 31);
    Masks();
    InsideTrans(BitWord(bits), Mask(|bits|), Mask(31));
    InsideLow(BitWord(bits));
  }

  lemma SplitBit(a: bool, v: bv32, b: bool, w: bv32)
    requires !TopBit(v) && !TopBit(w)
    requires Xor(Bit(a), Double(v)) == Xor(Bit(b), Double(w))
    ensures a == b && v == w
  {
  }

  lemma {:induction false} BitWordInjective(a: seq<bool>, b: seq<bool>)
    requires |a| == |b| <= 32 && BitWord(a) == BitWord(b)
    ensures a == b
  {
    if a != [] {
      BitWordFits(a[1..]);
      BitWordFits(b[1..]);
      SplitBit(a[0], BitWord(a[1..]), b[0], BitWord(b[1..]));
      BitWordInjective(a[1..], b[1..]);
      assert a == [a[0]] + a[1..] && b == [b[0]] + b[1..];
    }
  }

  /** Taking in up to 32 bits is running rounds on the register with all of them
      added in at once. */
  lemma {:induction false} BitRunIsRounds(c: bv32, bits: seq<bool>)
    requires |bits| <= 32
    ensures BitRun(c, bits) == BitSteps(Xor(c, BitWord(bits)), |bits|)
    decreases bits
  {
    if bits == [] {
      XorZero(c);
    } else {
      var r, w := Xor(c, Bit(bits[0])), BitWord(bits[1..]);
      BitRunIsRounds(BitStep(r), bits[1..]);
      BitWordFits(bits[1..]);
      StepOver(r, w, POLY, 0);
      XorAssoc(c, Bit(bits[0]), Double(w));
      RoundsAdd(Xor(r, Double(w)), 1, |bits| - 1);
      assert BitSteps(Xor(r, Double(w)), 1) == BitStep(Xor(r, Double(w)));
    }
  }

  lemma {:induction false} BitRunInjective(c: bv32, c': bv32, bits: seq<bool>)
    requires BitRun(c, bits) == BitRun(c', bits)
    ensures c == c'
    decreases bits
  {
    if bits != [] {
      var r, r' := Xor(c, Bit(bits[0])), Xor(c', Bit(bits[0]));
      BitRunInjective(BitStep(r), BitStep(r'), bits[1..]);
      BitStepInjective(r, r');
      XorXor(c, Bit(bits[0]));
      XorXor(c', Bit(bits[0]));
    }
  }

  lemma {:induction false} BitRunConcat(c: bv32, a: seq<bool>, b: seq<bool>)
    ensures BitRun(c, a + b) == BitRun(BitRun(c, a), b)
    decreases a
  {
    if a == [] {
      assert a + b == b;
    } else {
      assert (a + b)[1..] == a[1..] + b;
      BitRunConcat(BitStep(Xor(c, Bit(a[0]))), a[1..], b);
    }
  }

  lemma HalfInside(w: bv32, m: bv32)
    requires Inside(w, Xor(Double(m), 1))
    ensures Inside(Half(w), m)
    ensures Xor(Bit(Odd(w)), Double(Half(w))) == w
  {
  }

  lemma InsideNothing(w: bv32)
    requires Inside(w, 0)
    ensures w == 0
  {
  }

  lemma {:induction false} LowBitsWord(w: bv32, n: nat)
    requires Inside(w, Mask(n))
    ensures BitWord(LowBits(w, n)) == w
  {
    if n == 0 {
      InsideNothing(w);
    } else {
      HalfInside(w, Mask(n - 1));
      LowBitsWord(Half(w), n - 1);
      assert LowBits(w, n)[1..] == LowBits(Half(w), n - 1);
    }
  }

  lemma WideInside(b: byte)
    ensures Inside(Wide(b), 0xFF)
  {
  }

  lemma ByteWord(b: byte)
    ensures BitWord(ByteBits(b)) == Wide(b)
  {
    Masks();
    WideInside(b);
    LowBitsWord(Wide(b), 8);
  }

  lemma StepIsBitRun(c: bv32, b: byte)
    ensures StandardStep(c, b) == BitRun(c, ByteBits(b))
  {
    StepIsRounds(c, b);
    BitRunIsRounds(c, ByteBits(b));
    ByteWord(b);
  }

  /** The table takes in bytes as the rounds take in their bits. */
  lemma {:induction false} RunIsBitRun(c: bv32, data: seq<byte>)
    ensures StandardRun(c, data) == BitRun(c, Bits(data))
    decreases data
  {
    if data != [] {
      StepIsBitRun(c, data[0]);
      RunIsBitRun(StandardStep(c, data[0]), data[1..]);
      BitRunConcat(c, ByteBits(data[0]), Bits(data[1..]));
    }
  }

  lemma ByteBitsInjective(a: byte, b: byte)
    requires ByteBits(a) == ByteBits(b)
    ensures a == b
  {
    ByteWord(a);
    ByteWord(b);
    WideInjective(a, b);
  }

  lemma WideInjective(a: byte, b: byte)
    requires Wide(a) == Wide(b)
    ensures a == b
  {
  }

  lemma {:induction false} BitsInjective(a: seq<byte>, b: seq<byte>)
    requires |a| == |b| && Bits(a) == Bits(b)
    ensures a == b
  {
    if a != [] {
      assert Bits(a)[..8] == ByteBits(a[0]) && Bits(a)[8..] == Bits(a[1..]);
      assert Bits(b)[..8] == ByteBits(b[0]) && Bits(b)[8..] == Bits(b[1..]);
      ByteBitsInjective(a[0], b[0]);
      BitsInjective(a[1..], b[1..]);
      assert a == [a[0]] + a[1..] && b == [b[0]] + b[1..];
    }
  }

  lemma {:induction false} BitsConcat(a: seq<byte>, b: seq<byte>)
    ensures Bits(a + b) == Bits(a) + Bits(b)
  {
    if a == [] {
      assert a + b == b;
    } else {
      assert (a + b)[1..] == a[1..] + b;
      BitsConcat(a[1..], b);
      Assoc(ByteBits(a[0]), Bits(a[1..]), Bits(b));
    }
  }

  lemma BitBurstDetected(c: bv32, p: seq<bool>, u: seq<bool>, v: seq<bool>, q: seq<bool>)
    requires |u| == |v| <= 32 && u != v
    ensures BitRun(c, p + u + q) != BitRun(c, p + v + q)
  {
    if BitRun(c, p + u + q) == BitRun(c, p + v + q) {
      var r := BitRun(c, p);
      BitRunConcat(c, p + u, q);
      BitRunConcat(c, p + v, q);
      BitRunConcat(c, p, u);
      BitRunConcat(c, p, v);
      BitRunInjective(BitRun(r, u), BitRun(r, v), q);
      BitRunIsRounds(r, u);
      BitRunIsRounds(r, v);
      BitStepsInjective(Xor(r, BitWord(u)), Xor(r, BitWord(v)), |u|);
      XorCancel(r, BitWord(u), BitWord(v));
      BitWordInjective(u, v);
    }
  }

  lemma ChecksumOfBits(data: seq<byte>)
    ensures Checksum(data) == Xor(BitRun(ONES, Bits(data)), ONES)
  {
    ChecksumIsStandard(data);
    RunIsBitRun(ONES, data);
  }

  lemma SplitAround(x: seq<bool>, y: seq<bool>, i: nat, e: nat)
    requires |x| == |y| && i <= e <= |x|
    requires forall j :: 0 <= j < |x| && !(i <= j < e) ==> x[j] == y[j]
    ensures x == x[..i] + x[i..e] + x[e..] && y == x[..i] + y[i..e] + x[e..]
  {
  }

  /** Two different byte strings of equal length whose bits agree outside 32
      consecutive positions, wherever these begin, never have the same checksum. */
  lemma BitWindowDetected(a: seq<byte>, b: seq<byte>, i: nat)
    requires |a| == |b| && a != b && i <= 8 * |a|
    requires forall j :: 0 <= j < 8 * |a| && !(i <= j < i + 32) ==> Bits(a)[j] == Bits(b)[j]
    ensures Checksum(a) != Checksum(b)
  {
    var x, y := Bits(a), Bits(b);
    var e := if i + 32 <= |x| then i + 32 else |x|;
    SplitAround(x, y, i, e);
    if x[i..e] == y[i..e] {
      BitsInjective(a, b);
    }
    BitBurstDetected(ONES, x[..i], x[i..e], y[i..e], x[e..]);
    ChecksumOfBits(a);
    ChecksumOfBits(b);
    XorXor(BitRun(ONES, x), ONES);
    XorXor(BitRun(ONES, y), ONES);
  }

  lemma BitsAgree(p: seq<byte>, u: seq<byte>, v: seq<byte>, q: seq<byte>)
    requires |u| == |v| <= 4
    ensures |Bits(p + u + q)| == |Bits(p + v + q)| == 8 * |p + u + q|
    ensures forall j :: 0 <= j < 8 * |p + u + q| && !(8 * |p| <= j < 8 * |p| + 32) ==>
      Bits(p + u + q)[j] == Bits(p + v + q)[j]
  {
    BitsConcat(p + u, q);
    BitsConcat(p + v, q);
    BitsConcat(p, u);
    BitsConcat(p, v);
  }

  lemma StillDiffer(p: seq<byte>, u: seq<byte>, v: seq<byte>, q: seq<byte>)
    requires |u| == |v| && u != v
    ensures p + u + q != p + v + q
  {
    assert u == (p + u + q)[|p|..|p| + |u|] && v == (p + v + q)[|p|..|p| + |u|];
  }

  /** Two byte strings that differ only in a stretch of up to four bytes never
      have the same checksum. */
  lemma BurstDetected(p: seq<byte>, u: seq<byte>, v: seq<byte>, q: seq<byte>)
    requires |u| == |v| <= 4 && u != v
    ensures Checksum(p + u + q) != Checksum(p + v + q)
  {
    BitsAgree(p, u, v, q);
    StillDiffer(p, u, v, q);
    BitWindowDetected(p + u + q, p + v + q, 8 * |p|);
  }

  /** The same, for equal-length strings that agree outside positions [i, i + 4). */
  lemma WindowDetected(a: seq<byte>, b: seq<byte>, i: nat)
    requires |a| == |b| && a != b && i <= |a|
    requires forall j :: 0 <= j < |a| && !(i <= j < i + 4) ==> a[j] == b[j]
    ensures Checksum(a) != Checksum(b)
  {
    var e := if i + 4 <= |a| then i + 4 else |a|;
    assert a == a[..i] + a[i..e] + a[e..];
    assert b == a[..i] + b[i..e] + a[e..];
    BurstDetected(a[..i], a[i..e], b[i..e], a[e..]);
  }
}
