/** The context key of the tweakable hash is derived, not chosen: it is what the compression function makes of the
    context string under BLAKE3's flags for deriving keys. The computation runs on 32-bit machine words; here they
    are shown to agree with the bit sequences of the model, operation by operation. */
module DeriveKey {
  import opened Words
  import opened Blake3
  import opened Wots
  import opened Xmss
  import opened MachineWords

  // ---- machine words and bit sequences -------------------------------------

  function Digit(v: bv32, m: bv32): bool { v & m != 0 }

  predicate OneBit(m: bv32) { m & (m - 1) == 0 && m != 0 }

  /** The mask of bit i. */
  function Mask(i: nat): bv32
  {
    if i == 0 then 1 else Mask(i - 1).RotateLeft(1)
  }

  lemma Masks()
    ensures Mask(0) == 0x1 && Mask(1) == 0x2 && Mask(2) == 0x4 && Mask(3) == 0x8 && Mask(4) == 0x10 && Mask(5) == 0x20 && Mask(6) == 0x40 && Mask(7) == 0x80
    ensures Mask(8) == 0x100 && Mask(9) == 0x200 && Mask(10) == 0x400 && Mask(11) == 0x800 && Mask(12) == 0x1000 && Mask(13) == 0x2000 && Mask(14) == 0x4000 && Mask(15) == 0x8000
    ensures Mask(16) == 0x1_0000 && Mask(17) == 0x2_0000 && Mask(18) == 0x4_0000 && Mask(19) == 0x8_0000 && Mask(20) == 0x10_0000 && Mask(21) == 0x20_0000 && Mask(22) == 0x40_0000 && Mask(23) == 0x80_0000
    ensures Mask(24) == 0x100_0000 && Mask(25) == 0x200_0000 && Mask(26) == 0x400_0000 && Mask(27) == 0x800_0000 && Mask(28) == 0x1000_0000 && Mask(29) == 0x2000_0000 && Mask(30) == 0x4000_0000 && Mask(31) == 0x8000_0000
  {
  }

  lemma MaskOne(i: nat)
    requires i < 32
    ensures OneBit(Mask(i))
  {
    hide Mask;
    Masks();
    assert i == 0 || i == 1 || i == 2 || i == 3 || i == 4 || i == 5 || i == 6 || i == 7 || i == 8 || i == 9 || i == 10 || i == 11 || i == 12 || i == 13 || i == 14 || i == 15
        || i == 16 || i == 17 || i == 18 || i == 19 || i == 20 || i == 21 || i == 22 || i == 23 || i == 24 || i == 25 || i == 26 || i == 27 || i == 28 || i == 29 || i == 30 || i == 31;
  }

  /** The bits of a machine word. */
  function WordOf(v: bv32): (w: Word)
    ensures forall i :: 0 <= i < 32 ==> w[i] == Digit(v, Mask(i))
  {
    seq(32, (i: nat) => Digit(v, Mask(i)))
  }

  lemma XorDigit(a: bv32, b: bv32, m: bv32)
    requires OneBit(m)
    ensures Digit(a ^ b, m) == (Digit(a, m) != Digit(b, m))
  {
  }

  lemma XorIs(a: bv32, b: bv32)
    ensures Words.Xor(WordOf(a), WordOf(b)) == WordOf(a ^ b)
  {
    hide Digit, Mask, OneBit;
    var x, y := Words.Xor(WordOf(a), WordOf(b)), WordOf(a ^ b);
    forall i | 0 <= i < 32
      ensures x[i] == y[i]
    {
      MaskOne(i);
      XorDigit(a, b, Mask(i));
    }
  }

  lemma Turn16(a: bv32, m: bv32)
    ensures Digit(a.RotateRight(16), m) == Digit(a, m.RotateLeft(16))
  {
  }

  lemma MaskTurn16(i: nat)
    requires i < 32
    ensures Mask((i + 16) % 32) == Mask(i).RotateLeft(16)
  {
    hide Mask;
    Masks();
    assert i == 0 || i == 1 || i == 2 || i == 3 || i == 4 || i == 5 || i == 6 || i == 7 || i == 8 || i == 9 || i == 10 || i == 11 || i == 12 || i == 13 || i == 14 || i == 15
        || i == 16 || i == 17 || i == 18 || i == 19 || i == 20 || i == 21 || i == 22 || i == 23 || i == 24 || i == 25 || i == 26 || i == 27 || i == 28 || i == 29 || i == 30 || i == 31;
  }

  lemma TurnIs16(a: bv32)
    ensures Rotr(WordOf(a), 16) == WordOf(a.RotateRight(16))
  {
    hide Digit, Mask;
    var x, y := Rotr(WordOf(a), 16), WordOf(a.RotateRight(16));
    forall i | 0 <= i < 32
      ensures x[i] == y[i]
    {
      Turn16(a, Mask(i));
      MaskTurn16(i);
    }
  }

  lemma Turn12(a: bv32, m: bv32)
    ensures Digit(a.RotateRight(12), m) == Digit(a, m.RotateLeft(12))
  {
  }

  lemma MaskTurn12(i: nat)
    requires i < 32
    ensures Mask((i + 12) % 32) == Mask(i).RotateLeft(12)
  {
    hide Mask;
    Masks();
    assert i == 0 || i == 1 || i == 2 || i == 3 || i == 4 || i == 5 || i == 6 || i == 7 || i == 8 || i == 9 || i == 10 || i == 11 || i == 12 || i == 13 || i == 14 || i == 15
        || i == 16 || i == 17 || i == 18 || i == 19 || i == 20 || i == 21 || i == 22 || i == 23 || i == 24 || i == 25 || i == 26 || i == 27 || i == 28 || i == 29 || i == 30 || i == 31;
  }

  lemma TurnIs12(a: bv32)
    ensures Rotr(WordOf(a), 12) == WordOf(a.RotateRight(12))
  {
    hide Digit, Mask;
    var x, y := Rotr(WordOf(a), 12), WordOf(a.RotateRight(12));
    forall i | 0 <= i < 32
      ensures x[i] == y[i]
    {
      Turn12(a, Mask(i));
      MaskTurn12(i);
    }
  }

  lemma Turn8(a: bv32, m: bv32)
    ensures Digit(a.RotateRight(8), m) == Digit(a, m.RotateLeft(8))
  {
  }

  lemma MaskTurn8(i: nat)
    requires i < 32
    ensures Mask((i + 8) % 32) == Mask(i).RotateLeft(8)
  {
    hide Mask;
    Masks();
    assert i == 0 || i == 1 || i == 2 || i == 3 || i == 4 || i == 5 || i == 6 || i == 7 || i == 8 || i == 9 || i == 10 || i == 11 || i == 12 || i == 13 || i == 14 || i == 15
        || i == 16 || i == 17 || i == 18 || i == 19 || i == 20 || i == 21 || i == 22 || i == 23 || i == 24 || i == 25 || i == 26 || i == 27 || i == 28 || i == 29 || i == 30 || i == 31;
  }

  lemma TurnIs8(a: bv32)
    ensures Rotr(WordOf(a), 8) == WordOf(a.RotateRight(8))
  {
    hide Digit, Mask;
    var x, y := Rotr(WordOf(a), 8), WordOf(a.RotateRight(8));
    forall i | 0 <= i < 32
      ensures x[i] == y[i]
    {
      Turn8(a, Mask(i));
      MaskTurn8(i);
    }
  }

  lemma Turn7(a: bv32, m: bv32)
    ensures Digit(a.RotateRight(7), m) == Digit(a, m.RotateLeft(7))
  {
  }

  lemma MaskTurn7(i: nat)
    requires i < 32
    ensures Mask((i + 7) % 32) == Mask(i).RotateLeft(7)
  {
    hide Mask;
    Masks();
    assert i == 0 || i == 1 || i == 2 || i == 3 || i == 4 || i == 5 || i == 6 || i == 7 || i == 8 || i == 9 || i == 10 || i == 11 || i == 12 || i == 13 || i == 14 || i == 15
        || i == 16 || i == 17 || i == 18 || i == 19 || i == 20 || i == 21 || i == 22 || i == 23 || i == 24 || i == 25 || i == 26 || i == 27 || i == 28 || i == 29 || i == 30 || i == 31;
  }

  lemma TurnIs7(a: bv32)
    ensures Rotr(WordOf(a), 7) == WordOf(a.RotateRight(7))
  {
    hide Digit, Mask;
    var x, y := Rotr(WordOf(a), 7), WordOf(a.RotateRight(7));
    forall i | 0 <= i < 32
      ensures x[i] == y[i]
    {
      Turn7(a, Mask(i));
      MaskTurn7(i);
    }
  }

  function CarryBits(a: bv32, b: bv32): bv32 { (a + b) ^ a ^ b }

  /** The carry out of the bit of mask m, at the next mask. */
  predicate CarriesOn(a: bv32, b: bv32, m: bv32, n: bv32)
  {
    Digit(CarryBits(a, b), n) == ((Digit(a, m) && Digit(b, m)) || (Digit(CarryBits(a, b), m) && (Digit(a, m) || Digit(b, m))))
  }

  lemma Carry0(a: bv32, b: bv32)
    ensures CarriesOn(a, b, 0x1, 0x2)
  {
  }

  lemma Carry1(a: bv32, b: bv32)
    ensures CarriesOn(a, b, 0x2, 0x4)
  {
  }

  lemma Carry2(a: bv32, b: bv32)
    ensures CarriesOn(a, b, 0x4, 0x8)
  {
  }

  lemma Carry3(a: bv32, b: bv32)
    ensures CarriesOn(a, b, 0x8, 0x10)
  {
  }

  lemma Carry4(a: bv32, b: bv32)
    ensures CarriesOn(a, b, 0x10, 0x20)
  {
  }

  lemma Carry5(a: bv32, b: bv32)
    ensures CarriesOn(a, b, 0x20, 0x40)
  {
  }

  lemma Carry6(a: bv32, b: bv32)
    ensures CarriesOn(a, b, 0x40, 0x80)
  {
  }

  lemma Carry7(a: bv32, b: bv32)
    ensures CarriesOn(a, b, 0x80, 0x100)
  {
  }

  lemma Carry8(a: bv32, b: bv32)
    ensures CarriesOn(a, b, 0x100, 0x200)
  {
  }

  lemma Carry9(a: bv32, b: bv32)
    ensures CarriesOn(a, b, 0x200, 0x400)
  {
  }

  lemma Carry10(a: bv32, b: bv32)
    ensures CarriesOn(a, b, 0x400, 0x800)
  {
  }

  lemma Carry11(a: bv32, b: bv32)
    ensures CarriesOn(a, b, 0x800, 0x1000)
  {
  }

  lemma Carry12(a: bv32, b: bv32)
    ensures CarriesOn(a, b, 0x1000, 0x2000)
  {
  }

  lemma Carry13(a: bv32, b: bv32)
    ensures CarriesOn(a, b, 0x2000, 0x4000)
  {
  }

  lemma Carry14(a: bv32, b: bv32)
    ensures CarriesOn(a, b, 0x4000, 0x8000)
  {
  }

  lemma Carry15(a: bv32, b: bv32)
    ensures CarriesOn(a, b, 0x8000, 0x1_0000)
  {
  }

  lemma Carry16(a: bv32, b: bv32)
    ensures CarriesOn(a, b, 0x1_0000, 0x2_0000)
  {
  }

  lemma Carry17(a: bv32, b: bv32)
    ensures CarriesOn(a, b, 0x2_0000, 0x4_0000)
  {
  }

  lemma Carry18(a: bv32, b: bv32)
    ensures CarriesOn(a, b, 0x4_0000, 0x8_0000)
  {
  }

  lemma Carry19(a: bv32, b: bv32)
    ensures CarriesOn(a, b, 0x8_0000, 0x10_0000)
  {
  }

  lemma Carry20(a: bv32, b: bv32)
    ensures CarriesOn(a, b, 0x10_0000, 0x20_0000)
  {
  }

  lemma Carry21(a: bv32, b: bv32)
    ensures CarriesOn(a, b, 0x20_0000, 0x40_0000)
  {
  }

  lemma Carry22(a: bv32, b: bv32)
    ensures CarriesOn(a, b, 0x40_0000, 0x80_0000)
  {
  }

  lemma Carry23(a: bv32, b: bv32)
    ensures CarriesOn(a, b, 0x80_0000, 0x100_0000)
  {
  }

  lemma Carry24(a: bv32, b: bv32)
    ensures CarriesOn(a, b, 0x100_0000, 0x200_0000)
  {
  }

  lemma Carry25(a: bv32, b: bv32)
    ensures CarriesOn(a, b, 0x200_0000, 0x400_0000)
  {
  }

  lemma Carry26(a: bv32, b: bv32)
    ensures CarriesOn(a, b, 0x400_0000, 0x800_0000)
  {
  }

  lemma Carry27(a: bv32, b: bv32)
    ensures CarriesOn(a, b, 0x800_0000, 0x1000_0000)
  {
  }

  lemma Carry28(a: bv32, b: bv32)
    ensures CarriesOn(a, b, 0x1000_0000, 0x2000_0000)
  {
  }

  lemma Carry29(a: bv32, b: bv32)
    ensures CarriesOn(a, b, 0x2000_0000, 0x4000_0000)
  {
  }

  lemma Carry30(a: bv32, b: bv32)
    ensures CarriesOn(a, b, 0x4000_0000, 0x8000_0000)
  {
  }

  lemma CarryDigit(a: bv32, b: bv32, i: nat)
    requires i < 31
    ensures CarriesOn(a, b, Mask(i), Mask(i + 1))
  {
    hide Mask, CarriesOn;
    Masks();
    if i == 0 {
      Carry0(a, b);
    } else if i == 1 {
      Carry1(a, b);
    } else if i == 2 {
      Carry2(a, b);
    } else if i == 3 {
      Carry3(a, b);
    } else if i == 4 {
      Carry4(a, b);
    } else if i == 5 {
      Carry5(a, b);
    } else if i == 6 {
      Carry6(a, b);
    } else if i == 7 {
      Carry7(a, b);
    } else if i == 8 {
      Carry8(a, b);
    } else if i == 9 {
      Carry9(a, b);
    } else if i == 10 {
      Carry10(a, b);
    } else if i == 11 {
      Carry11(a, b);
    } else if i == 12 {
      Carry12(a, b);
    } else if i == 13 {
      Carry13(a, b);
    } else if i == 14 {
      Carry14(a, b);
    } else if i == 15 {
      Carry15(a, b);
    } else if i == 16 {
      Carry16(a, b);
    } else if i == 17 {
      Carry17(a, b);
    } else if i == 18 {
      Carry18(a, b);
    } else if i == 19 {
      Carry19(a, b);
    } else if i == 20 {
      Carry20(a, b);
    } else if i == 21 {
      Carry21(a, b);
    } else if i == 22 {
      Carry22(a, b);
    } else if i == 23 {
      Carry23(a, b);
    } else if i == 24 {
      Carry24(a, b);
    } else if i == 25 {
      Carry25(a, b);
    } else if i == 26 {
      Carry26(a, b);
    } else if i == 27 {
      Carry27(a, b);
    } else if i == 28 {
      Carry28(a, b);
    } else if i == 29 {
      Carry29(a, b);
    } else {
      Carry30(a, b);
    }
  }

  lemma NoCarryIn(a: bv32, b: bv32)
    ensures !Digit(CarryBits(a, b), 1)
  {
  }

  lemma SumDigit(a: bv32, b: bv32, m: bv32)
    requires OneBit(m)
    ensures Digit(a + b, m) == ((Digit(a, m) != Digit(b, m)) != Digit(CarryBits(a, b), m))
  {
  }

  lemma {:induction false} CarryIs(a: bv32, b: bv32, i: nat)
    requires i < 32
    ensures Carry(WordOf(a), WordOf(b), i) == Digit(CarryBits(a, b), Mask(i))
    decreases i
  {
    hide Digit, Mask, OneBit, CarryBits;
    if i == 0 {
      NoCarryIn(a, b);
      Masks();
    } else {
      CarryIs(a, b, i - 1);
      CarryDigit(a, b, i - 1);
    }
  }

  lemma AddIs(a: bv32, b: bv32)
    ensures Words.Add(WordOf(a), WordOf(b)) == WordOf(a + b)
  {
    hide Digit, Mask, OneBit, CarryBits, Carry;
    var x, y := Words.Add(WordOf(a), WordOf(b)), WordOf(a + b);
    forall i | 0 <= i < 32
      ensures x[i] == y[i]
    {
      MaskOne(i);
      CarryIs(a, b, i);
      SumDigit(a, b, Mask(i));
    }
  }

  // ---- numbers -------------------------------------------------------------

  /** The number of eight bits, lowest first. */
  function Eight(a: bool, b: bool, c: bool, d: bool, e: bool, f: bool, g: bool, h: bool): nat
  {
    Bit(a) + 2 * Bit(b) + 4 * Bit(c) + 8 * Bit(d) + 16 * Bit(e) + 32 * Bit(f) + 64 * Bit(g) + 128 * Bit(h)
  }

  function Octet0(v: bv32): nat
  {
    (if v & 0x1 != 0 then 1 else 0) + (if v & 0x2 != 0 then 2 else 0) + (if v & 0x4 != 0 then 4 else 0) + (if v & 0x8 != 0 then 8 else 0)
    + (if v & 0x10 != 0 then 16 else 0) + (if v & 0x20 != 0 then 32 else 0) + (if v & 0x40 != 0 then 64 else 0) + (if v & 0x80 != 0 then 128 else 0)
  }

  function Octet1(v: bv32): nat
  {
    (if v & 0x100 != 0 then 1 else 0) + (if v & 0x200 != 0 then 2 else 0) + (if v & 0x400 != 0 then 4 else 0) + (if v & 0x800 != 0 then 8 else 0)
    + (if v & 0x1000 != 0 then 16 else 0) + (if v & 0x2000 != 0 then 32 else 0) + (if v & 0x4000 != 0 then 64 else 0) + (if v & 0x8000 != 0 then 128 else 0)
  }

  function Octet2(v: bv32): nat
  {
    (if v & 0x1_0000 != 0 then 1 else 0) + (if v & 0x2_0000 != 0 then 2 else 0) + (if v & 0x4_0000 != 0 then 4 else 0) + (if v & 0x8_0000 != 0 then 8 else 0)
    + (if v & 0x10_0000 != 0 then 16 else 0) + (if v & 0x20_0000 != 0 then 32 else 0) + (if v & 0x40_0000 != 0 then 64 else 0) + (if v & 0x80_0000 != 0 then 128 else 0)
  }

  function Octet3(v: bv32): nat
  {
    (if v & 0x100_0000 != 0 then 1 else 0) + (if v & 0x200_0000 != 0 then 2 else 0) + (if v & 0x400_0000 != 0 then 4 else 0) + (if v & 0x800_0000 != 0 then 8 else 0)
    + (if v & 0x1000_0000 != 0 then 16 else 0) + (if v & 0x2000_0000 != 0 then 32 else 0) + (if v & 0x4000_0000 != 0 then 64 else 0) + (if v & 0x8000_0000 != 0 then 128 else 0)
  }

  /** The number a machine word stands for. */
  function Value(v: bv32): nat { Octet0(v) + 0x100 * Octet1(v) + 0x1_0000 * Octet2(v) + 0x100_0000 * Octet3(v) }

  lemma DigitIs(v: bv32, m: bv32)
    ensures Digit(v, m) == (v & m != 0)
  {
  }

  lemma ToNatCons(b: Bits)
    requires b != []
    ensures ToNat(b) == Bit(b[0]) + 2 * ToNat(b[1..])
  {
  }

  lemma FourBits(b: Bits)
    requires |b| == 4
    ensures ToNat(b) == Bit(b[0]) + 2 * Bit(b[1]) + 4 * Bit(b[2]) + 8 * Bit(b[3])
  {
    hide ToNat, Bit;
    var c := b[1..];
    var d := c[1..];
    var e := d[1..];
    ToNatCons(b);
    ToNatCons(c);
    ToNatCons(d);
    ToNatCons(e);
    assert e[1..] == Zeros(0);
    ToNatZeros(0);
  }

  lemma EightBits(b: Byte)
    ensures ToNat(b) == Eight(b[0], b[1], b[2], b[3], b[4], b[5], b[6], b[7])
  {
    hide ToNat, Pow2, Bit;
    var low: Bits, high: Bits := b[..4], b[4..];
    FourBits(low);
    FourBits(high);
    assert Pow2(4) == 16 by { PowFour(); }
    assert b == low + high;
    ToNatAppend(low, high);
  }

  lemma PowFour()
    ensures Pow2(4) == 16
  {
  }

  lemma OctetIs0(v: bv32)
    ensures Eight(Digit(v, 0x1), Digit(v, 0x2), Digit(v, 0x4), Digit(v, 0x8), Digit(v, 0x10), Digit(v, 0x20), Digit(v, 0x40), Digit(v, 0x80)) == Octet0(v)
  {
    hide Digit;
    DigitIs(v, 0x1);
    DigitIs(v, 0x2);
    DigitIs(v, 0x4);
    DigitIs(v, 0x8);
    DigitIs(v, 0x10);
    DigitIs(v, 0x20);
    DigitIs(v, 0x40);
    DigitIs(v, 0x80);
  }

  lemma ByteValue0(v: bv32)
    ensures ToNat(ByteOf(WordOf(v), 0)) == Octet0(v)
  {
    hide ToNat, Digit, Mask, Eight, Octet0;
    OctetIs0(v);
    var w, b := WordOf(v), ByteOf(WordOf(v), 0);
    EightBits(b);
    Masks();
    assert b[0] == w[0] && b[1] == w[1] && b[2] == w[2] && b[3] == w[3] && b[4] == w[4] && b[5] == w[5] && b[6] == w[6] && b[7] == w[7];
  }

  lemma OctetIs1(v: bv32)
    ensures Eight(Digit(v, 0x100), Digit(v, 0x200), Digit(v, 0x400), Digit(v, 0x800), Digit(v, 0x1000), Digit(v, 0x2000), Digit(v, 0x4000), Digit(v, 0x8000)) == Octet1(v)
  {
    hide Digit;
    DigitIs(v, 0x100);
    DigitIs(v, 0x200);
    DigitIs(v, 0x400);
    DigitIs(v, 0x800);
    DigitIs(v, 0x1000);
    DigitIs(v, 0x2000);
    DigitIs(v, 0x4000);
    DigitIs(v, 0x8000);
  }

  lemma ByteValue1(v: bv32)
    ensures ToNat(ByteOf(WordOf(v), 1)) == Octet1(v)
  {
    hide ToNat, Digit, Mask, Eight, Octet1;
    OctetIs1(v);
    var w, b := WordOf(v), ByteOf(WordOf(v), 1);
    EightBits(b);
    Masks();
    assert b[0] == w[8] && b[1] == w[9] && b[2] == w[10] && b[3] == w[11] && b[4] == w[12] && b[5] == w[13] && b[6] == w[14] && b[7] == w[15];
  }

  lemma OctetIs2(v: bv32)
    ensures Eight(Digit(v, 0x1_0000), Digit(v, 0x2_0000), Digit(v, 0x4_0000), Digit(v, 0x8_0000), Digit(v, 0x10_0000), Digit(v, 0x20_0000), Digit(v, 0x40_0000), Digit(v, 0x80_0000)) == Octet2(v)
  {
    hide Digit;
    DigitIs(v, 0x1_0000);
    DigitIs(v, 0x2_0000);
    DigitIs(v, 0x4_0000);
    DigitIs(v, 0x8_0000);
    DigitIs(v, 0x10_0000);
    DigitIs(v, 0x20_0000);
    DigitIs(v, 0x40_0000);
    DigitIs(v, 0x80_0000);
  }

  lemma ByteValue2(v: bv32)
    ensures ToNat(ByteOf(WordOf(v), 2)) == Octet2(v)
  {
    hide ToNat, Digit, Mask, Eight, Octet2;
    OctetIs2(v);
    var w, b := WordOf(v), ByteOf(WordOf(v), 2);
    EightBits(b);
    Masks();
    assert b[0] == w[16] && b[1] == w[17] && b[2] == w[18] && b[3] == w[19] && b[4] == w[20] && b[5] == w[21] && b[6] == w[22] && b[7] == w[23];
  }

  lemma OctetIs3(v: bv32)
    ensures Eight(Digit(v, 0x100_0000), Digit(v, 0x200_0000), Digit(v, 0x400_0000), Digit(v, 0x800_0000), Digit(v, 0x1000_0000), Digit(v, 0x2000_0000), Digit(v, 0x4000_0000), Digit(v, 0x8000_0000)) == Octet3(v)
  {
    hide Digit;
    DigitIs(v, 0x100_0000);
    DigitIs(v, 0x200_0000);
    DigitIs(v, 0x400_0000);
    DigitIs(v, 0x800_0000);
    DigitIs(v, 0x1000_0000);
    DigitIs(v, 0x2000_0000);
    DigitIs(v, 0x4000_0000);
    DigitIs(v, 0x8000_0000);
  }

  lemma ByteValue3(v: bv32)
    ensures ToNat(ByteOf(WordOf(v), 3)) == Octet3(v)
  {
    hide ToNat, Digit, Mask, Eight, Octet3;
    OctetIs3(v);
    var w, b := WordOf(v), ByteOf(WordOf(v), 3);
    EightBits(b);
    Masks();
    assert b[0] == w[24] && b[1] == w[25] && b[2] == w[26] && b[3] == w[27] && b[4] == w[28] && b[5] == w[29] && b[6] == w[30] && b[7] == w[31];
  }

  lemma ValueIs(v: bv32)
    ensures ToNat(WordOf(v)) == Value(v)
  {
    hide ToNat, Digit, WordOf, Octet0, Octet1, Octet2, Octet3, ByteOf;
    FourBytes(WordOf(v));
    ByteValue0(v);
    ByteValue1(v);
    ByteValue2(v);
    ByteValue3(v);
  }

  /** A number below 2^32 as a machine word. */
  lemma NumberIs(n: nat, v: bv32)
    requires n < 0x1_0000_0000 && Value(v) == n
    ensures Word32(n) == WordOf(v)
  {
    hide ToNat, Word32, Value, WordOf;
    ValueIs(v);
    WordValue(n);
    ToNatInjective(WordOf(v), Word32(n));
  }

  // ---- the round function --------------------------------------------------

  function WordIn(a: Machine): Word { WordOf(a.v) }

  lemma WordInIs(x: bv32)
    ensures WordIn(Machine(x)) == WordOf(x)
  {
    hide WordOf;
  }

  lemma SumWords(x: bv32, y: bv32, z: bv32)
    requires Adds(z, x, y)
    ensures Words.Add(WordOf(x), WordOf(y)) == WordOf(z)
  {
    hide WordOf, Words.Add;
    AddIs(x, y);
  }

  lemma SumMachines(x: bv32, y: bv32, z: bv32)
    requires MachineWords.Sum(Machine(z), Machine(x), Machine(y))
    ensures Words.Add(WordIn(Machine(x)), WordIn(Machine(y))) == WordIn(Machine(z))
  {
    hide WordOf, Words.Add, Adds, WordIn;
    WordInIs(x);
    WordInIs(y);
    WordInIs(z);
    SumWords(x, y, z);
  }

  lemma SumIs(z: Machine, x: Machine, y: Machine)
    requires MachineWords.Sum(z, x, y)
    ensures Words.Add(WordIn(x), WordIn(y)) == WordIn(z)
  {
    hide *;
    SumMachines(x.v, y.v, z.v);
  }

  lemma TurnedWords16(x: bv32, y: bv32, z: bv32)
    requires Turns16(z, x, y)
    ensures Rotr(Words.Xor(WordOf(x), WordOf(y)), 16) == WordOf(z)
  {
    hide WordOf, Words.Xor, Rotr;
    XorIs(x, y);
    TurnIs16(x ^ y);
  }

  lemma TurnedMachines16(x: bv32, y: bv32, z: bv32)
    requires Turned(Machine(z), Machine(x), Machine(y), 16)
    ensures Rotr(Words.Xor(WordIn(Machine(x)), WordIn(Machine(y))), 16) == WordIn(Machine(z))
  {
    hide WordOf, Words.Xor, Rotr, WordIn, Turns16;
    WordInIs(x);
    WordInIs(y);
    WordInIs(z);
    TurnedWords16(x, y, z);
  }

  lemma TurnedWords12(x: bv32, y: bv32, z: bv32)
    requires Turns12(z, x, y)
    ensures Rotr(Words.Xor(WordOf(x), WordOf(y)), 12) == WordOf(z)
  {
    hide WordOf, Words.Xor, Rotr;
    XorIs(x, y);
    TurnIs12(x ^ y);
  }

  lemma TurnedMachines12(x: bv32, y: bv32, z: bv32)
    requires Turned(Machine(z), Machine(x), Machine(y), 12)
    ensures Rotr(Words.Xor(WordIn(Machine(x)), WordIn(Machine(y))), 12) == WordIn(Machine(z))
  {
    hide WordOf, Words.Xor, Rotr, WordIn, Turns12;
    WordInIs(x);
    WordInIs(y);
    WordInIs(z);
    TurnedWords12(x, y, z);
  }

  lemma TurnedWords8(x: bv32, y: bv32, z: bv32)
    requires Turns8(z, x, y)
    ensures Rotr(Words.Xor(WordOf(x), WordOf(y)), 8) == WordOf(z)
  {
    hide WordOf, Words.Xor, Rotr;
    XorIs(x, y);
    TurnIs8(x ^ y);
  }

  lemma TurnedMachines8(x: bv32, y: bv32, z: bv32)
    requires Turned(Machine(z), Machine(x), Machine(y), 8)
    ensures Rotr(Words.Xor(WordIn(Machine(x)), WordIn(Machine(y))), 8) == WordIn(Machine(z))
  {
    hide WordOf, Words.Xor, Rotr, WordIn, Turns8;
    WordInIs(x);
    WordInIs(y);
    WordInIs(z);
    TurnedWords8(x, y, z);
  }

  lemma TurnedWords7(x: bv32, y: bv32, z: bv32)
    requires Turns7(z, x, y)
    ensures Rotr(Words.Xor(WordOf(x), WordOf(y)), 7) == WordOf(z)
  {
    hide WordOf, Words.Xor, Rotr;
    XorIs(x, y);
    TurnIs7(x ^ y);
  }

  lemma TurnedMachines7(x: bv32, y: bv32, z: bv32)
    requires Turned(Machine(z), Machine(x), Machine(y), 7)
    ensures Rotr(Words.Xor(WordIn(Machine(x)), WordIn(Machine(y))), 7) == WordIn(Machine(z))
  {
    hide WordOf, Words.Xor, Rotr, WordIn, Turns7;
    WordInIs(x);
    WordInIs(y);
    WordInIs(z);
    TurnedWords7(x, y, z);
  }

  lemma TurnedIs(z: Machine, x: Machine, y: Machine, r: nat)
    requires Turned(z, x, y, r) && (r == 16 || r == 12 || r == 8 || r == 7)
    ensures Rotr(Words.Xor(WordIn(x), WordIn(y)), r) == WordIn(z)
  {
    hide *;
    if r == 16 {
      TurnedMachines16(x.v, y.v, z.v);
    } else if r == 12 {
      TurnedMachines12(x.v, y.v, z.v);
    } else if r == 8 {
      TurnedMachines8(x.v, y.v, z.v);
    } else {
      TurnedMachines7(x.v, y.v, z.v);
    }
  }

  /** The words of v that quarter round q works on. */
  predicate At(v: seq<Word>, q: Quad, f: Four)
    requires |v| == 16
  {
    v[q.0] == WordIn(f.a) && v[q.1] == WordIn(f.b) && v[q.2] == WordIn(f.c) && v[q.3] == WordIn(f.d)
  }

  /** w has f in those places, and is like v elsewhere. */
  predicate Moved(v: seq<Word>, w: seq<Word>, q: Quad, f: Four)
    requires |v| == |w| == 16
  {
    At(w, q, f) && forall i :: 0 <= i < 16 && i != q.0 && i != q.1 && i != q.2 && i != q.3 ==> w[i] == v[i]
  }

  lemma HalfIs(v: seq<Word>, q: Quad, f: Four, g: Four, s: Machine, x: Machine, r1: nat, r2: nat)
    requires |v| == 16 && At(v, q, f) && Halves(f, g, s, x, r1, r2) && ((r1 == 16 && r2 == 12) || (r1 == 8 && r2 == 7))
    ensures Moved(v, Half(v, q, WordIn(x), r1, r2), q, g)
  {
    hide WordIn, MachineWords.Sum, Turned, Words.Add, Words.Xor, Rotr;
    SumIs(s, f.a, f.b);
    SumIs(g.a, s, x);
    TurnedIs(g.d, f.d, g.a, r1);
    SumIs(g.c, f.c, g.d);
    TurnedIs(g.b, f.b, g.c, r2);
  }

  lemma MixIs(v: seq<Word>, q: Quad, f: Four, e: Four, g: Four, s: Machine, t: Machine, x: Machine, y: Machine)
    requires |v| == 16 && At(v, q, f) && Mixes(f, e, g, s, t, x, y)
    ensures Moved(v, G(v, q, WordIn(x), WordIn(y)), q, g)
  {
    hide WordIn, Halves, Half;
    HalfIs(v, q, f, e, s, x, 16, 12);
    HalfIs(Half(v, q, WordIn(x), 16, 12), q, e, g, t, y, 8, 7);
  }

  /** A state by columns, or by diagonals. */
  predicate ByColumns(v: seq<Word>, t: State)
  {
    |v| == 16 && At(v, QuadAt(0), t.p) && At(v, QuadAt(1), t.q) && At(v, QuadAt(2), t.r) && At(v, QuadAt(3), t.s)
  }

  predicate ByDiagonals(v: seq<Word>, t: State)
  {
    |v| == 16 && At(v, QuadAt(4), t.p) && At(v, QuadAt(5), t.q) && At(v, QuadAt(6), t.r) && At(v, QuadAt(7), t.s)
  }

  lemma Regroup(v: seq<Word>, t: State)
    ensures ByColumns(v, t) ==> ByDiagonals(v, Diagonals(t))
    ensures ByDiagonals(v, t) ==> ByColumns(v, Columns(t))
  {
    hide WordIn;
  }

  /** The message is the context string. */
  predicate IsText(m: seq<Word>)
  {
    |m| == 16 && forall i :: 0 <= i < 16 ==> m[i] == WordIn(TextWord(i))
  }

  lemma RoundNext(v: seq<Word>, m: seq<Word>, s: Perm, k: nat)
    requires |v| == |m| == 16 && k < 8
    ensures Round(v, m, s, k + 1) == G(Round(v, m, s, k), QuadAt(k), m[s[2 * k]], m[s[2 * k + 1]])
  {
    hide G;
  }

  lemma QuarterIs(v: seq<Word>, m: seq<Word>, s: Perm, k: nat, f: Four, e: Four, g: Four, u: Machine, t: Machine)
    requires |v| == 16 && IsText(m) && k < 8
    requires At(Round(v, m, s, k), QuadAt(k), f) && Mixes(f, e, g, u, t, TextWord(s[2 * k]), TextWord(s[2 * k + 1]))
    ensures Moved(Round(v, m, s, k), Round(v, m, s, k + 1), QuadAt(k), g)
  {
    hide At, Moved, WordIn, G, Round, Mixes, QuadAt, TextWord;
    RoundNext(v, m, s, k);
    MixIs(Round(v, m, s, k), QuadAt(k), f, e, g, u, t, TextWord(s[2 * k]), TextWord(s[2 * k + 1]));
  }

  /** Four quarter rounds on disjoint columns. */
  lemma ColumnsMixed(v: seq<Word>, m: seq<Word>, s: Perm, f: State, g: State)
    requires |v| == 16 && IsText(m) && ByColumns(Round(v, m, s, 0), f)
    requires Takes(f, g, Pick(s[0], s[2], s[4], s[6]), Pick(s[1], s[3], s[5], s[7]))
    ensures ByColumns(Round(v, m, s, 4), g)
  {
    hide WordIn, Round, Mixes, TextWord, IsText;
    var e, u, t :| MixAll(f, e, g, u, t, Pick(s[0], s[2], s[4], s[6]), Pick(s[1], s[3], s[5], s[7]));
    QuarterIs(v, m, s, 0, f.p, e.p, g.p, u.a, t.a);
    QuarterIs(v, m, s, 1, f.q, e.q, g.q, u.b, t.b);
    QuarterIs(v, m, s, 2, f.r, e.r, g.r, u.c, t.c);
    QuarterIs(v, m, s, 3, f.s, e.s, g.s, u.d, t.d);
  }

  lemma DiagonalsMixed(v: seq<Word>, m: seq<Word>, s: Perm, f: State, g: State)
    requires |v| == 16 && IsText(m) && ByDiagonals(Round(v, m, s, 4), f)
    requires Takes(f, g, Pick(s[8], s[10], s[12], s[14]), Pick(s[9], s[11], s[13], s[15]))
    ensures ByDiagonals(Round(v, m, s, 8), g)
  {
    hide WordIn, Round, Mixes, TextWord, IsText;
    var e, u, t :| MixAll(f, e, g, u, t, Pick(s[8], s[10], s[12], s[14]), Pick(s[9], s[11], s[13], s[15]));
    QuarterIs(v, m, s, 4, f.p, e.p, g.p, u.a, t.a);
    QuarterIs(v, m, s, 5, f.q, e.q, g.q, u.b, t.b);
    QuarterIs(v, m, s, 6, f.r, e.r, g.r, u.c, t.c);
    QuarterIs(v, m, s, 7, f.s, e.s, g.s, u.d, t.d);
  }

  lemma NoQuarter(v: seq<Word>, m: seq<Word>, s: Perm)
    requires |v| == |m| == 16
    ensures Round(v, m, s, 0) == v
  {
  }

  lemma RoundIs(v: seq<Word>, m: seq<Word>, s: Perm, f: State, g: State, h: State)
    requires IsText(m) && ByColumns(v, f)
    requires Takes(f, g, Pick(s[0], s[2], s[4], s[6]), Pick(s[1], s[3], s[5], s[7]))
    requires Takes(Diagonals(g), h, Pick(s[8], s[10], s[12], s[14]), Pick(s[9], s[11], s[13], s[15]))
    ensures ByColumns(Round(v, m, s, 8), Columns(h))
  {
    hide *;
    BothSixteen(v, m, f);
    NoQuarter(v, m, s);
    ColumnsMixed(v, m, s, f, g);
    Regroup(Round(v, m, s, 4), g);
    DiagonalsMixed(v, m, s, Diagonals(g), h);
    Regroup(Round(v, m, s, 8), h);
  }

  lemma BothSixteen(v: seq<Word>, m: seq<Word>, f: State)
    requires IsText(m) && ByColumns(v, f)
    ensures |v| == |m| == 16
  {
  }

  lemma NextRound(v: seq<Word>, m: seq<Word>, r: nat)
    requires |v| == |m| == 16
    ensures Rounds(v, m, 0) == v && Rounds(v, m, r + 1) == Round(Rounds(v, m, r), m, PermAt(r), 8)
  {
    hide Round, PermAt;
  }

  lemma PermNext(r: nat)
    ensures PermAt(0) == IDENTITY && PermAt(r + 1) == NextPerm(PermAt(r))
  {
    hide NextPerm;
  }

  lemma Perm0()
    ensures PermAt(0) == [0, 1, 2, 3, 4, 5, 6, 7, 8, 9, 10, 11, 12, 13, 14, 15]
  {
    hide PermAt;
    PermNext(0);
  }

  lemma Perm1()
    ensures PermAt(1) == [2, 6, 3, 10, 7, 0, 4, 13, 1, 11, 12, 5, 9, 14, 15, 8]
  {
    hide PermAt;
    PermNext(0);
    Perm0();
  }

  lemma Perm2()
    ensures PermAt(2) == [3, 4, 10, 12, 13, 2, 7, 14, 6, 5, 9, 0, 11, 15, 8, 1]
  {
    hide PermAt;
    PermNext(1);
    Perm1();
  }

  lemma Perm3()
    ensures PermAt(3) == [10, 7, 12, 9, 14, 3, 13, 15, 4, 0, 11, 2, 5, 8, 1, 6]
  {
    hide PermAt;
    PermNext(2);
    Perm2();
  }

  lemma Perm4()
    ensures PermAt(4) == [12, 13, 9, 11, 15, 10, 14, 8, 7, 2, 5, 3, 0, 1, 6, 4]
  {
    hide PermAt;
    PermNext(3);
    Perm3();
  }

  lemma Perm5()
    ensures PermAt(5) == [9, 14, 11, 5, 8, 12, 15, 1, 13, 3, 0, 10, 2, 6, 4, 7]
  {
    hide PermAt;
    PermNext(4);
    Perm4();
  }

  lemma Perm6()
    ensures PermAt(6) == [11, 15, 5, 0, 1, 9, 8, 6, 14, 10, 2, 12, 3, 4, 7, 13]
  {
    hide PermAt;
    PermNext(5);
    Perm5();
  }

  lemma Seven0(v: seq<Word>, m: seq<Word>)
    requires IsText(m) && ByColumns(v, Start())
    ensures ByColumns(Rounds(v, m, 1), Columns(Exit1()))
  {
    hide IsText, ByColumns, Takes, Start, Exit0, Exit1, PermAt, Rounds, Pick, Columns, Diagonals;
    BothSixteen(v, m, Start());
    NextRound(v, m, 0);
    Perm0();
    Step0();
    Step1();
    RoundIs(Rounds(v, m, 0), m, PermAt(0), Start(), Exit0(), Exit1());
  }

  lemma Seven1(v: seq<Word>, m: seq<Word>)
    requires IsText(m) && ByColumns(v, Start())
    ensures ByColumns(Rounds(v, m, 2), Columns(Exit3()))
  {
    hide IsText, ByColumns, Takes, Start, Exit2, Exit3, PermAt, Rounds, Pick, Exit1, Columns, Diagonals;
    BothSixteen(v, m, Start());
    NextRound(v, m, 1);
    Perm1();
    Step2();
    Step3();
    Seven0(v, m);
    RoundIs(Rounds(v, m, 1), m, PermAt(1), Columns(Exit1()), Exit2(), Exit3());
  }

  lemma Seven2(v: seq<Word>, m: seq<Word>)
    requires IsText(m) && ByColumns(v, Start())
    ensures ByColumns(Rounds(v, m, 3), Columns(Exit5()))
  {
    hide IsText, ByColumns, Takes, Start, Exit4, Exit5, PermAt, Rounds, Pick, Exit3, Columns, Diagonals;
    BothSixteen(v, m, Start());
    NextRound(v, m, 2);
    Perm2();
    Step4();
    Step5();
    Seven1(v, m);
    RoundIs(Rounds(v, m, 2), m, PermAt(2), Columns(Exit3()), Exit4(), Exit5());
  }

  lemma Seven3(v: seq<Word>, m: seq<Word>)
    requires IsText(m) && ByColumns(v, Start())
    ensures ByColumns(Rounds(v, m, 4), Columns(Exit7()))
  {
    hide IsText, ByColumns, Takes, Start, Exit6, Exit7, PermAt, Rounds, Pick, Exit5, Columns, Diagonals;
    BothSixteen(v, m, Start());
    NextRound(v, m, 3);
    Perm3();
    Step6();
    Step7();
    Seven2(v, m);
    RoundIs(Rounds(v, m, 3), m, PermAt(3), Columns(Exit5()), Exit6(), Exit7());
  }

  lemma Seven4(v: seq<Word>, m: seq<Word>)
    requires IsText(m) && ByColumns(v, Start())
    ensures ByColumns(Rounds(v, m, 5), Columns(Exit9()))
  {
    hide IsText, ByColumns, Takes, Start, Exit8, Exit9, PermAt, Rounds, Pick, Exit7, Columns, Diagonals;
    BothSixteen(v, m, Start());
    NextRound(v, m, 4);
    Perm4();
    Step8();
    Step9();
    Seven3(v, m);
    RoundIs(Rounds(v, m, 4), m, PermAt(4), Columns(Exit7()), Exit8(), Exit9());
  }

  lemma Seven5(v: seq<Word>, m: seq<Word>)
    requires IsText(m) && ByColumns(v, Start())
    ensures ByColumns(Rounds(v, m, 6), Columns(Exit11()))
  {
    hide IsText, ByColumns, Takes, Start, Exit10, Exit11, PermAt, Rounds, Pick, Exit9, Columns, Diagonals;
    BothSixteen(v, m, Start());
    NextRound(v, m, 5);
    Perm5();
    Step10();
    Step11();
    Seven4(v, m);
    RoundIs(Rounds(v, m, 5), m, PermAt(5), Columns(Exit9()), Exit10(), Exit11());
  }

  lemma Seven6(v: seq<Word>, m: seq<Word>)
    requires IsText(m) && ByColumns(v, Start())
    ensures ByColumns(Rounds(v, m, 7), Columns(Exit13()))
  {
    hide IsText, ByColumns, Takes, Start, Exit12, Exit13, PermAt, Rounds, Pick, Exit11, Columns, Diagonals;
    BothSixteen(v, m, Start());
    NextRound(v, m, 6);
    Perm6();
    Step12();
    Step13();
    Seven5(v, m);
    RoundIs(Rounds(v, m, 6), m, PermAt(6), Columns(Exit11()), Exit12(), Exit13());
  }

  // ---- the ends ------------------------------------------------------------

  const CONTEXT: string := "blind-mss tweakable hash v2"

  /** DERIVE_KEY_CONTEXT, CHUNK_START, CHUNK_END and ROOT. */
  const CONTEXT_FLAGS: nat := 32 + 1 + 2 + 8

  function InitialKey(): (cv: seq<Word>)
    ensures |cv| == 8
  {
    seq(8, (i: nat) => IV(i))
  }

  /** The one block of the context string. */
  function ContextBlock(): (m: seq<Word>)
    ensures |m| == 16
  {
    BlockWords(Domain(CONTEXT), 0)
  }

  lemma NumberIn(n: nat, v: bv32)
    requires n < 0x1_0000_0000 && Value(v) == n
    ensures Word32(n) == WordIn(Machine(v))
  {
    hide Word32, Value, WordOf;
    WordInIs(v);
    NumberIs(n, v);
  }

  /** Four characters as a little-endian word. */
  lemma TextIs(a: Byte, b: Byte, c: Byte, d: Byte, w: nat, x: nat, y: nat, z: nat, v: bv32)
    requires w < 256 && x < 256 && y < 256 && z < 256 && a == Byte8(w) && b == Byte8(x) && c == Byte8(y) && d == Byte8(z)
    requires Value(v) == w + 0x100 * x + 0x1_0000 * y + 0x100_0000 * z
    ensures a + b + c + d == WordIn(Machine(v))
  {
    hide ToNat, Value, WordOf, FromNat;
    var r: Bits := a;
    var word: Word := r + b + c + d;
    FourBytes(word);
    assert ByteOf(word, 0) == a && ByteOf(word, 1) == b && ByteOf(word, 2) == c && ByteOf(word, 3) == d;
    ByteRead(w);
    ByteRead(x);
    ByteRead(y);
    ByteRead(z);
    ValueIs(v);
    WordInIs(v);
    ToNatInjective(word, WordOf(v));
  }

  lemma CharAt(k: nat)
    ensures k < 27 ==> Padded(Domain(CONTEXT), k) == Byte8(CONTEXT[k] as int)
    ensures k >= 27 ==> Padded(Domain(CONTEXT), k) == Byte8(0)
  {
    hide Byte8;
    if k >= 27 { ZeroByte(); }
  }

  lemma ZeroByte()
    ensures Byte8(0) == Zeros(8)
  {
    forall i | 0 <= i < 8
      ensures !Byte8(0)[i]
    {
      FromZero(8, i);
    }
  }

  lemma Letters0()
    ensures CONTEXT[0] as int == 98 && CONTEXT[1] as int == 108 && CONTEXT[2] as int == 105 && CONTEXT[3] as int == 110
  {
  }

  lemma Text0()
    ensures ContextBlock()[0] == WordIn(TextWord(0))
  {
    hide WordIn, Byte8, Domain, Padded;
    Letters0();
    CharAt(0);
    CharAt(1);
    CharAt(2);
    CharAt(3);
    var f := Domain(CONTEXT);
    TextIs(Padded(f, 0), Padded(f, 1), Padded(f, 2), Padded(f, 3), 98, 108, 105, 110, 0x6E696C62);
  }

  lemma Letters1()
    ensures CONTEXT[4] as int == 100 && CONTEXT[5] as int == 45 && CONTEXT[6] as int == 109 && CONTEXT[7] as int == 115
  {
  }

  lemma Text1()
    ensures ContextBlock()[1] == WordIn(TextWord(1))
  {
    hide WordIn, Byte8, Domain, Padded;
    Letters1();
    CharAt(4);
    CharAt(5);
    CharAt(6);
    CharAt(7);
    var f := Domain(CONTEXT);
    TextIs(Padded(f, 4), Padded(f, 5), Padded(f, 6), Padded(f, 7), 100, 45, 109, 115, 0x736D2D64);
  }

  lemma Letters2()
    ensures CONTEXT[8] as int == 115 && CONTEXT[9] as int == 32 && CONTEXT[10] as int == 116 && CONTEXT[11] as int == 119
  {
  }

  lemma Text2()
    ensures ContextBlock()[2] == WordIn(TextWord(2))
  {
    hide WordIn, Byte8, Domain, Padded;
    Letters2();
    CharAt(8);
    CharAt(9);
    CharAt(10);
    CharAt(11);
    var f := Domain(CONTEXT);
    TextIs(Padded(f, 8), Padded(f, 9), Padded(f, 10), Padded(f, 11), 115, 32, 116, 119, 0x77742073);
  }

  lemma Letters3()
    ensures CONTEXT[12] as int == 101 && CONTEXT[13] as int == 97 && CONTEXT[14] as int == 107 && CONTEXT[15] as int == 97
  {
  }

  lemma Text3()
    ensures ContextBlock()[3] == WordIn(TextWord(3))
  {
    hide WordIn, Byte8, Domain, Padded;
    Letters3();
    CharAt(12);
    CharAt(13);
    CharAt(14);
    CharAt(15);
    var f := Domain(CONTEXT);
    TextIs(Padded(f, 12), Padded(f, 13), Padded(f, 14), Padded(f, 15), 101, 97, 107, 97, 0x616B6165);
  }

  lemma Letters4()
    ensures CONTEXT[16] as int == 98 && CONTEXT[17] as int == 108 && CONTEXT[18] as int == 101 && CONTEXT[19] as int == 32
  {
  }

  lemma Text4()
    ensures ContextBlock()[4] == WordIn(TextWord(4))
  {
    hide WordIn, Byte8, Domain, Padded;
    Letters4();
    CharAt(16);
    CharAt(17);
    CharAt(18);
    CharAt(19);
    var f := Domain(CONTEXT);
    TextIs(Padded(f, 16), Padded(f, 17), Padded(f, 18), Padded(f, 19), 98, 108, 101, 32, 0x20656C62);
  }

  lemma Letters5()
    ensures CONTEXT[20] as int == 104 && CONTEXT[21] as int == 97 && CONTEXT[22] as int == 115 && CONTEXT[23] as int == 104
  {
  }

  lemma Text5()
    ensures ContextBlock()[5] == WordIn(TextWord(5))
  {
    hide WordIn, Byte8, Domain, Padded;
    Letters5();
    CharAt(20);
    CharAt(21);
    CharAt(22);
    CharAt(23);
    var f := Domain(CONTEXT);
    TextIs(Padded(f, 20), Padded(f, 21), Padded(f, 22), Padded(f, 23), 104, 97, 115, 104, 0x68736168);
  }

  lemma Letters6()
    ensures CONTEXT[24] as int == 32 && CONTEXT[25] as int == 118 && CONTEXT[26] as int == 50
  {
  }

  lemma Text6()
    ensures ContextBlock()[6] == WordIn(TextWord(6))
  {
    hide WordIn, Byte8, Domain, Padded;
    Letters6();
    CharAt(24);
    CharAt(25);
    CharAt(26);
    CharAt(27);
    var f := Domain(CONTEXT);
    TextIs(Padded(f, 24), Padded(f, 25), Padded(f, 26), Padded(f, 27), 32, 118, 50, 0, 0x00327620);
  }

  lemma TextRest(w: nat)
    requires 7 <= w < 16
    ensures ContextBlock()[w] == WordIn(TextWord(w))
  {
    hide WordIn, Byte8, Domain, Padded;
    CharAt(4 * w);
    CharAt(4 * w + 1);
    CharAt(4 * w + 2);
    CharAt(4 * w + 3);
    var f := Domain(CONTEXT);
    TextIs(Padded(f, 4 * w), Padded(f, 4 * w + 1), Padded(f, 4 * w + 2), Padded(f, 4 * w + 3), 0, 0, 0, 0, 0);
  }

  lemma ContextIsText()
    ensures IsText(ContextBlock())
  {
    hide WordIn, TextWord, BlockWords;
    Text0();
    Text1();
    Text2();
    Text3();
    Text4();
    Text5();
    Text6();
    forall w: nat | 7 <= w < 16
      ensures ContextBlock()[w] == WordIn(TextWord(w))
    {
      TextRest(w);
    }
  }

  function Begin(): (v: seq<Word>)
    ensures |v| == 16
  {
    InitialState(InitialKey(), Word32(|CONTEXT|), Word32(CONTEXT_FLAGS))
  }

  lemma BeginIs()
    ensures Begin() == InitialState(InitialKey(), Word32(|CONTEXT|), Word32(CONTEXT_FLAGS))
  {
    hide InitialState, Word32;
  }

  lemma BeginIsStart()
    ensures ByColumns(Begin(), Start())
  {
    hide Word32, WordIn;
    NumberIn(0x6A09E667, 0x6A09E667);
    NumberIn(0xBB67AE85, 0xBB67AE85);
    NumberIn(0x3C6EF372, 0x3C6EF372);
    NumberIn(0xA54FF53A, 0xA54FF53A);
    NumberIn(0x510E527F, 0x510E527F);
    NumberIn(0x9B05688C, 0x9B05688C);
    NumberIn(0x1F83D9AB, 0x1F83D9AB);
    NumberIn(0x5BE0CD19, 0x5BE0CD19);
    NumberIn(27, 0x1B);
    NumberIn(43, 0x2B);
    NumberIn(0, 0);
    ZeroIsNumber();
    assert |CONTEXT| == 27;
  }

  lemma ZeroIsNumber()
    ensures Word32(0) == ZERO
  {
    forall i | 0 <= i < 32
      ensures !Word32(0)[i]
    {
      FromZero(32, i);
    }
  }

  lemma KeyWordIs(a: bv32, c: bv32, k: bv32, n: nat)
    requires n < 0x1_0000_0000 && Value(k) == n && k == a ^ c
    ensures Words.Xor(WordIn(Machine(a)), WordIn(Machine(c))) == Word32(n)
  {
    hide Word32, WordOf, Value, Words.Xor;
    WordInIs(a);
    WordInIs(c);
    XorIs(a, c);
    NumberIs(n, k);
  }

  lemma EndIsKey(v: seq<Word>)
    requires ByColumns(v, Columns(Exit13()))
    ensures Finish(v) == Key(8)
  {
    hide Word32, WordIn, Words.Xor;
    KeyWordIs(0xB1F0FFBE, 0x234CBB94, 0x92BC442A, 0x92BC442A);
    KeyWordIs(0x21223528, 0x505C8CF1, 0x717EB9D9, 0x717EB9D9);
    KeyWordIs(0x5E1EA8E3, 0xB8FDF067, 0xE6E35884, 0xE6E35884);
    KeyWordIs(0x4C1E5597, 0x29CFF662, 0x65D1A3F5, 0x65D1A3F5);
    KeyWordIs(0xBB83FA41, 0x05F7950E, 0xBE746F4F, 0xBE746F4F);
    KeyWordIs(0xAE73C043, 0x952CB095, 0x3B5F70D6, 0x3B5F70D6);
    KeyWordIs(0xC78C4C64, 0x68F1A81C, 0xAF7DE478, 0xAF7DE478);
    KeyWordIs(0xFE687D51, 0x12DEF0E8, 0xECB68DB9, 0xECB68DB9);
  }

  /** The context key: one compression of the context string from the initial words, with the flags for a context. */
  lemma ContextKeyDerived()
    ensures Compress(InitialKey(), ContextBlock(), Word32(|CONTEXT|), Word32(CONTEXT_FLAGS)) == Key(8)
  {
    hide *;
    ContextIsText();
    BeginIsStart();
    Seven6(Begin(), ContextBlock());
    BothSixteen(Begin(), ContextBlock(), Start());
    EndIsKey(Rounds(Begin(), ContextBlock(), 7));
    BeginIs();
    CompressIsRounds(InitialKey(), ContextBlock(), Word32(|CONTEXT|), Word32(CONTEXT_FLAGS));
  }

  lemma CompressIsRounds(cv: seq<Word>, m: seq<Word>, len: Word, flags: Word)
    requires |cv| == 8 && |m| == 16
    ensures Compress(cv, m, len, flags) == Finish(Rounds(InitialState(cv, len, flags), m, 7))
  {
    hide Rounds, Finish, InitialState;
  }
}
