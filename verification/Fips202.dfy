/** Section 3 of FIPS 202 read off the standard: the five step mappings on a state array, with the rotations
    generated by the walk of section 3.2.2 and the round constants by the shift register of section 3.2.5. The round
    of module Keccak, with its fused mappings and its two tables, is that round. */
module Fips202 {
  import opened Words
  import opened Keccak
  import opened KeccakTrace

  // ---- round constants -----------------------------------------------------

  datatype Reg = Reg(a: bool, b: bool, c: bool, d: bool, e: bool, f: bool, g: bool, h: bool)

  /** The register after t steps of Algorithm 5. */
  function Register(t: nat): Reg
  {
    if t == 0 then Reg(true, false, false, false, false, false, false, false) else Shifted(Register(t - 1))
  }

  /** One step: a clear bit enters on the left, and the bit pushed out is added at four places. */
  function Shifted(r: Reg): Reg
  {
    Reg(r.h, r.a, r.b, r.c, r.d != r.h, r.e != r.h, r.f != r.h, r.g)
  }

  function Rc(t: nat): bool { Register(t % 255).a }

  /** Bit z of the constant of a round: Algorithm 6 sets bits 2^j - 1 for j up to 6. */
  predicate ConstantBit(round: nat, z: nat)
  {
    exists j :: 0 <= j <= 6 && z == Pow2(j) - 1 && Rc(j + 7 * round)
  }

  function SevenOn(r: Reg): Reg
  {
    Shifted(Shifted(Shifted(Shifted(Shifted(Shifted(Shifted(r)))))))
  }

  /** The value of seven bits at their places. */
  function Value(a: bool, b: bool, c: bool, d: bool, e: bool, f: bool, g: bool): nat
  {
    Bit(a) + 2 * Bit(b) + 8 * Bit(c) + 128 * Bit(d) + 0x8000 * Bit(e) + 0x8000_0000 * Bit(f) + 0x8000_0000_0000_0000 * Bit(g)
  }

  function ConstantValue(b: Bits): nat
    requires |b| == 7
  {
    Value(b[0], b[1], b[2], b[3], b[4], b[5], b[6])
  }

  /** The seven output bits from a register on. */
  function Outputs(r: Reg): (b: Bits)
    ensures |b| == 7
  {
    var r1 := Shifted(r);
    var r2 := Shifted(r1);
    var r3 := Shifted(r2);
    var r4 := Shifted(r3);
    var r5 := Shifted(r4);
    [r.a, r1.a, r2.a, r3.a, r4.a, r5.a, Shifted(r5).a]
  }

  /** The constant of a round as the register generates it. */
  function Generated(round: nat): nat
  {
    ConstantValue(Outputs(Register(7 * round)))
  }

  lemma RegisterStep(t: nat)
    ensures Register(t + 1) == Shifted(Register(t))
  {
  }

  lemma RegisterSeven(t: nat)
    ensures Register(t + 7) == SevenOn(Register(t))
  {
    hide Register, Shifted;
    RegisterStep(t);
    RegisterStep(t + 1);
    RegisterStep(t + 2);
    RegisterStep(t + 3);
    RegisterStep(t + 4);
    RegisterStep(t + 5);
    RegisterStep(t + 6);
  }

  lemma RegisterOutputs(t: nat)
    ensures forall j :: 0 <= j <= 6 ==> Outputs(Register(t))[j] == Register(t + j).a
  {
    hide Register, Shifted;
    RegisterStep(t);
    RegisterStep(t + 1);
    RegisterStep(t + 2);
    RegisterStep(t + 3);
    RegisterStep(t + 4);
    RegisterStep(t + 5);
  }

  function Xor3(x: bool, y: bool, z: bool): bool { (x != y) != z }

  /** The register seven steps on, field by field. */
  function Later(r: Reg): Reg
  {
    Reg(Xor3(r.b, r.d, r.e), Xor3(r.c, r.e, r.f), Xor3(r.d, r.f, r.g), Xor3(r.e, r.g, r.h), Xor3(Xor3(r.b, r.d, r.e), r.f, r.h),
        Xor3(Xor3(r.b, r.c, r.d), r.f, r.g), Xor3(r.b, r.c, r.g != r.h), Xor3(r.a, r.c, r.d != r.h))
  }

  function OutputValue(r: Reg): nat
  {
    Value(r.a, r.h, r.g, r.f != r.h, Xor3(r.e, r.g, r.h), Xor3(r.d, r.f, r.g), Xor3(r.c, r.e, r.f))
  }

  lemma LaterIsSevenOn(r: Reg)
    ensures SevenOn(r) == Later(r)
  {
  }

  lemma OutputsAre(r: Reg)
    ensures ConstantValue(Outputs(r)) == OutputValue(r)
  {
    hide Value;
    var b := Outputs(r);
    assert b[0] == r.a && b[1] == r.h && b[2] == r.g && b[3] == (r.f != r.h);
    assert b[4] == Xor3(r.e, r.g, r.h) && b[5] == Xor3(r.d, r.f, r.g) && b[6] == Xor3(r.c, r.e, r.f);
  }

  /** One round from a known register: its constant, and the register seven steps on. */
  lemma TableStep(round: nat, r: Reg, c: nat)
    requires Register(7 * round) == r && OutputValue(r) == c
    ensures Generated(round) == c && Register(7 * (round + 1)) == Later(r)
  {
    hide Register, Outputs, SevenOn, Later, ConstantValue, OutputValue;
    RegisterSeven(7 * round);
    LaterIsSevenOn(r);
    OutputsAre(r);
    assert 7 * round + 7 == 7 * (round + 1);
  }

  lemma FirstRegister()
    ensures Register(7 * 0) == Reg(true, false, false, false, false, false, false, false)
  {
  }

  lemma Rounds0()
    requires Register(7 * 0) == Reg(true, false, false, false, false, false, false, false)
    ensures Register(7 * 6) == Reg(true, false, true, false, true, true, false, false)
    ensures Generated(0) == 0x0000000000000001 && Generated(1) == 0x0000000000008082 && Generated(2) == 0x800000000000808A
    ensures Generated(3) == 0x8000000080008000 && Generated(4) == 0x000000000000808B && Generated(5) == 0x0000000080000001
  {
    hide Register, Generated;
    TableStep(0, Reg(true, false, false, false, false, false, false, false), 0x0000000000000001);
    TableStep(1, Reg(false, false, false, false, false, false, false, true), 0x0000000000008082);
    TableStep(2, Reg(false, false, false, true, true, false, true, true), 0x800000000000808A);
    TableStep(3, Reg(false, true, false, true, true, false, false, false), 0x8000000080008000);
    TableStep(4, Reg(true, true, true, true, true, false, true, true), 0x000000000000808B);
    TableStep(5, Reg(true, false, false, true, false, false, false, false), 0x0000000080000001);
  }

  lemma Rounds6()
    requires Register(7 * 6) == Reg(true, false, true, false, true, true, false, false)
    ensures Register(7 * 12) == Reg(true, false, true, false, true, false, true, true)
    ensures Generated(6) == 0x8000000080008081 && Generated(7) == 0x8000000000008009 && Generated(8) == 0x000000000000008A
    ensures Generated(9) == 0x0000000000000088 && Generated(10) == 0x0000000080008009 && Generated(11) == 0x000000008000000A
  {
    hide Register, Generated;
    TableStep(6, Reg(true, false, true, false, true, true, false, false), 0x8000000080008081);
    TableStep(7, Reg(true, true, true, true, false, false, true, false), 0x8000000000008009);
    TableStep(8, Reg(false, true, false, true, false, false, true, true), 0x000000000000008A);
    TableStep(9, Reg(false, false, false, false, true, true, true, false), 0x0000000000000088);
    TableStep(10, Reg(true, false, false, false, false, false, true, false), 0x0000000080008009);
    TableStep(11, Reg(false, false, true, true, false, true, true, true), 0x000000008000000A);
  }

  lemma Rounds12()
    requires Register(7 * 12) == Reg(true, false, true, false, true, false, true, true)
    ensures Register(7 * 18) == Reg(false, true, false, false, true, true, true, true)
    ensures Generated(12) == 0x000000008000808B && Generated(13) == 0x800000000000008B && Generated(14) == 0x8000000000008089
    ensures Generated(15) == 0x8000000000008003 && Generated(16) == 0x8000000000008002 && Generated(17) == 0x8000000000000080
  {
    hide Register, Generated;
    TableStep(12, Reg(true, false, true, false, true, false, true, true), 0x000000008000808B);
    TableStep(13, Reg(true, false, true, true, false, false, true, true), 0x800000000000008B);
    TableStep(14, Reg(true, true, false, false, false, true, true, false), 0x8000000000008089);
    TableStep(15, Reg(true, true, false, true, false, true, false, true), 0x8000000000008003);
    TableStep(16, Reg(false, true, false, true, false, true, false, true), 0x8000000000008002);
    TableStep(17, Reg(false, true, false, true, false, true, false, false), 0x8000000000000080);
  }

  lemma Rounds18()
    requires Register(7 * 18) == Reg(false, true, false, false, true, true, true, true)
    ensures Register(7 * 24) == Reg(false, true, true, true, false, false, false, true)
    ensures Generated(18) == 0x000000000000800A && Generated(19) == 0x800000008000000A && Generated(20) == 0x8000000080008081
    ensures Generated(21) == 0x8000000000008080 && Generated(22) == 0x0000000080000001 && Generated(23) == 0x8000000080008008
  {
    hide Register, Generated;
    TableStep(18, Reg(false, true, false, false, true, true, true, true), 0x000000000000800A);
    TableStep(19, Reg(false, false, false, true, false, true, true, true), 0x800000008000000A);
    TableStep(20, Reg(true, true, true, false, true, true, false, false), 0x8000000080008081);
    TableStep(21, Reg(false, true, true, true, true, true, false, false), 0x8000000000008080);
    TableStep(22, Reg(true, true, false, true, false, false, false, false), 0x0000000080000001);
    TableStep(23, Reg(false, false, true, false, false, false, true, false), 0x8000000080008008);
  }

  lemma Entries0()
    ensures CONSTANTS[0] == 0x0000000000000001 && CONSTANTS[1] == 0x0000000000008082 && CONSTANTS[2] == 0x800000000000808A
    ensures CONSTANTS[3] == 0x8000000080008000 && CONSTANTS[4] == 0x000000000000808B && CONSTANTS[5] == 0x0000000080000001
  {
  }

  lemma Entries6()
    ensures CONSTANTS[6] == 0x8000000080008081 && CONSTANTS[7] == 0x8000000000008009 && CONSTANTS[8] == 0x000000000000008A
    ensures CONSTANTS[9] == 0x0000000000000088 && CONSTANTS[10] == 0x0000000080008009 && CONSTANTS[11] == 0x000000008000000A
  {
  }

  lemma Entries12()
    ensures CONSTANTS[12] == 0x000000008000808B && CONSTANTS[13] == 0x800000000000008B && CONSTANTS[14] == 0x8000000000008089
    ensures CONSTANTS[15] == 0x8000000000008003 && CONSTANTS[16] == 0x8000000000008002 && CONSTANTS[17] == 0x8000000000000080
  {
  }

  lemma Entries18()
    ensures CONSTANTS[18] == 0x000000000000800A && CONSTANTS[19] == 0x800000008000000A && CONSTANTS[20] == 0x8000000080008081
    ensures CONSTANTS[21] == 0x8000000000008080 && CONSTANTS[22] == 0x0000000080000001 && CONSTANTS[23] == 0x8000000080008008
  {
  }

  /** Every entry of the table of round constants is generated by the register. */
  lemma TableIsGenerated(round: nat)
    requires round < 24
    ensures CONSTANTS[round] == Generated(round)
  {
    hide *;
    FirstRegister();
    Rounds0();
    Rounds6();
    Rounds12();
    Rounds18();
    Entries0();
    Entries6();
    Entries12();
    Entries18();
  }

  // ---- from values to bits -------------------------------------------------

  function Extended(a: Bits, k: nat, b: bool): (r: Bits)
    ensures |r| == |a| + k + 1
  {
    a + Zeros(k) + [b]
  }

  /** A lane that is clear except at the seven places. */
  function SevenBits(b: Bits): (l: Lane)
    requires |b| == 7
  {
    Extended(Extended(Extended(Extended(Extended([b[0], b[1]], 1, b[2]), 3, b[3]), 7, b[4]), 15, b[5]), 31, b[6])
  }

  lemma ExtendedValue(a: Bits, k: nat, b: bool, p: nat)
    requires Pow2(|a| + k) == p
    ensures ToNat(Extended(a, k, b)) == ToNat(a) + (if b then p else 0)
  {
    hide ToNat, Pow2;
    ToNatAppend(a, Zeros(k));
    ToNatZeros(k);
    ToNatSnoc(a + Zeros(k), b);
  }

  lemma PowsAre()
    ensures Pow2(3) == 8 && Pow2(7) == 128 && Pow2(15) == 0x8000 && Pow2(31) == 0x8000_0000 && Pow2(63) == 0x8000_0000_0000_0000
  {
    assert Pow2(15) == 0x8000;
    assert Pow2(24) == 0x100_0000;
    assert Pow2(31) == 0x8000_0000;
    assert Pow2(40) == 0x100_0000_0000;
    assert Pow2(48) == 0x1_0000_0000_0000;
    assert Pow2(56) == 0x100_0000_0000_0000;
  }

  lemma TwoBits(a: bool, b: bool)
    ensures ToNat([a, b]) == Bit(a) + 2 * Bit(b)
  {
    assert [a, b][1..] == [b];
    assert [b][1..] == [];
    assert ToNat([b]) == Bit(b) + 2 * ToNat([]);
  }

  lemma SevenValue(b: Bits)
    requires |b| == 7
    ensures ToNat(SevenBits(b)) == ConstantValue(b)
  {
    hide ToNat, Pow2, Extended;
    PowsAre();
    var b1: Bits := [b[0], b[1]];
    var b3 := Extended(b1, 1, b[2]);
    var b7 := Extended(b3, 3, b[3]);
    var b15 := Extended(b7, 7, b[4]);
    var b31 := Extended(b15, 15, b[5]);
    TwoBits(b[0], b[1]);
    ExtendedValue(b1, 1, b[2], 8);
    ExtendedValue(b3, 3, b[3], 128);
    ExtendedValue(b7, 7, b[4], 0x8000);
    ExtendedValue(b15, 15, b[5], 0x8000_0000);
    ExtendedValue(b31, 31, b[6], 0x8000_0000_0000_0000);
  }

  lemma NatIsBits(a: Bits)
    ensures FromNat(ToNat(a), |a|) == a
  {
    hide ToNat, FromNat, Pow2;
    ToNatBound(a);
    FromToNat(ToNat(a), |a|);
    ToNatInjective(FromNat(ToNat(a), |a|), a);
  }

  lemma Places()
    ensures Pow2(0) == 1 && Pow2(1) == 2 && Pow2(2) == 4 && Pow2(3) == 8 && Pow2(4) == 16 && Pow2(5) == 32 && Pow2(6) == 64
  {
  }

  lemma SevenBitsAt(b: Bits, z: nat)
    requires |b| == 7 && z < 64
    ensures SevenBits(b)[z] <==> exists j :: 0 <= j <= 6 && z == Pow2(j) - 1 && b[j]
  {
    hide Pow2;
    Places();
    if SevenBits(b)[z] {
      var j := if z == 0 then 0 else if z == 1 then 1 else if z == 3 then 2 else if z == 7 then 3 else if z == 15 then 4 else if z == 31 then 5 else 6;
      assert z == Pow2(j) - 1 && b[j];
    }
    if j :| 0 <= j <= 6 && z == Pow2(j) - 1 && b[j] {
      assert j == 0 || j == 1 || j == 2 || j == 3 || j == 4 || j == 5 || j == 6;
    }
  }

  lemma OutputIsRc(round: nat, j: nat)
    requires round < 24 && j <= 6
    ensures Outputs(Register(7 * round))[j] == Rc(j + 7 * round)
  {
    hide Register, Outputs;
    RegisterOutputs(7 * round);
    assert 7 * round + j == (j + 7 * round) % 255;
  }

  /** Section 3.2.5: bit 2^j - 1 of the constant of round i is rc(j + 7i), for j up to 6, and all others are clear. */
  lemma ConstantsAreGenerated(round: nat, z: nat)
    requires round < 24 && z < 64
    ensures RoundConstant(round)[z] <==> ConstantBit(round, z)
  {
    hide Register, ToNat, FromNat, Pow2, ConstantValue, SevenBits, Outputs;
    var b := Outputs(Register(7 * round));
    TableIsGenerated(round);
    SevenValue(b);
    NatIsBits(SevenBits(b));
    SevenBitsAt(b, z);
    assert RoundConstant(round) == SevenBits(b);
    if j :| 0 <= j <= 6 && z == Pow2(j) - 1 && b[j] {
      OutputIsRc(round, j);
    }
    if j :| 0 <= j <= 6 && z == Pow2(j) - 1 && Rc(j + 7 * round) {
      OutputIsRc(round, j);
    }
  }

  // ---- the state array -----------------------------------------------------

  /** A[x, y, z] for all integers: x and y count modulo 5, z modulo 64. */
  type Array = (int, int, int) -> bool

  function Cell(s: State, x: int, y: int, z: int): bool
  {
    LaneAt(s, Mod5(y), Mod5(x))[Mod64(z)]
  }

  ghost predicate Shows(a: Array, s: State)
  {
    forall x, y, z :: a(x, y, z) == Cell(s, x, y, z)
  }

  // ---- the step mappings of section 3.2 ------------------------------------

  function ColumnSum(a: Array, x: int, z: int): bool
  {
    (((a(x, 0, z) != a(x, 1, z)) != a(x, 2, z)) != a(x, 3, z)) != a(x, 4, z)
  }

  function ThetaOf(a: Array): Array
  {
    (x: int, y: int, z: int) => a(x, y, z) != (ColumnSum(a, x - 1, z) != ColumnSum(a, x + 1, z - 1))
  }

  /** How far rho turns the lane (x, y): by the triangular number of the step at which the walk visits it. The walk
      never comes to the origin. */
  ghost function Turn(x: nat, y: nat): nat
  {
    if t: nat :| t < 24 && Walk(t) == (x, y) then (t + 1) * (t + 2) / 2 else 0
  }

  ghost function RhoOf(a: Array): Array
  {
    (x: int, y: int, z: int) => a(x, y, z - Turn(Mod5(x), Mod5(y)))
  }

  function Diagonal(x: int, y: int): int { x + 3 * y }

  function PiOf(a: Array): Array
  {
    (x: int, y: int, z: int) => a(Diagonal(x, y), x, z)
  }

  function ChiOf(a: Array): Array
  {
    (x: int, y: int, z: int) => a(x, y, z) != (!a(x + 1, y, z) && a(x + 2, y, z))
  }

  function IotaOf(a: Array, round: nat): Array
  {
    (x: int, y: int, z: int) => a(x, y, z) != (Mod5(x) == 0 && Mod5(y) == 0 && ConstantBit(round, Mod64(z)))
  }

  ghost function Rnd(a: Array, round: nat): Array
  {
    IotaOf(ChiOf(PiOf(RhoOf(ThetaOf(a)))), round)
  }

  /** The first n rounds. */
  ghost function RndsOf(a: Array, n: nat): Array
  {
    if n == 0 then a else Rnd(RndsOf(a, n - 1), n - 1)
  }

  // ---- the lanes compute them ----------------------------------------------

  lemma AddBit(a: Lane, b: Lane, z: int)
    ensures AddLane(a, b)[Mod64(z)] == (a[Mod64(z)] != b[Mod64(z)])
  {
    hide Mod64;
  }

  lemma ParityBit(a: Array, s: State, x: int, z: int)
    requires Shows(a, s)
    ensures ColumnParity(s, Mod5(x))[Mod64(z)] == ColumnSum(a, x, z)
  {
    hide Mod64, AddLane, LaneAt;
    var c := Mod5(x);
    var p01 := AddLane(LaneAt(s, 0, c), LaneAt(s, 1, c));
    var p012 := AddLane(p01, LaneAt(s, 2, c));
    AddBit(LaneAt(s, 0, c), LaneAt(s, 1, c), z);
    AddBit(p01, LaneAt(s, 2, c), z);
    AddBit(p012, LaneAt(s, 3, c), z);
    AddBit(AddLane(p012, LaneAt(s, 3, c)), LaneAt(s, 4, c), z);
    assert Mod5(0) == 0 && Mod5(1) == 1 && Mod5(2) == 2 && Mod5(3) == 3 && Mod5(4) == 4;
  }

  lemma RotBit(a: Lane, k: int, z: int)
    ensures RotLane(a, k)[Mod64(z)] == a[Mod64(z - k)]
  {
    hide Mod64;
    Mod64Of(z, -k, 0);
  }

  lemma EffectBit(p: Plane, x: int, z: int)
    ensures Effect(p, Mod5(x))[Mod64(z)] == (p[Mod5(x - 1)][Mod64(z)] != p[Mod5(x + 1)][Mod64(z - 1)])
  {
    hide Mod64, Mod5, AddLane, RotLane;
    var c: int := Mod5(x);
    Mod5Of(x, -1, 0);
    Mod5Of(x, 1, 0);
    AddBit(p[Mod5(c - 1)], RotLane(p[Mod5(c + 1)], 1), z);
    RotBit(p[Mod5(c + 1)], 1, z);
  }

  lemma ThetaBit(s: State, x: int, y: int, z: int)
    ensures Cell(Theta(s), x, y, z) == (Cell(s, x, y, z) != (ColumnParity(s, Mod5(x - 1))[Mod64(z)] != ColumnParity(s, Mod5(x + 1))[Mod64(z - 1)]))
  {
    hide Mod64, Mod5, AddLane, RotLane, LaneAt, ColumnParity, AddEffect, Effect;
    var p, c := Parity(s), Mod5(x);
    EffectAt(s, p, Mod5(y), c);
    AddBit(LaneAt(s, Mod5(y), c), Effect(p, c), z);
    EffectBit(p, x, z);
  }

  lemma ThetaCell(a: Array, s: State, x: int, y: int, z: int)
    requires Shows(a, s)
    ensures Cell(Theta(s), x, y, z) == ThetaOf(a)(x, y, z)
  {
    hide Mod64, Mod5, ColumnSum, ColumnParity, Theta, Cell, Shows;
    ShowsAt(a, s, x, y, z);
    ThetaBit(s, x, y, z);
    ParityBit(a, s, x - 1, z);
    ParityBit(a, s, x + 1, z - 1);
  }

  lemma ShowsAt(a: Array, s: State, x: int, y: int, z: int)
    requires Shows(a, s)
    ensures a(x, y, z) == Cell(s, x, y, z)
  {
  }

  lemma {:induction false} NeverOrigin(t: nat)
    ensures Walk(t) != (0, 0)
  {
    if t > 0 { NeverOrigin(t - 1); }
  }

  lemma Visited(t: nat, x: nat, y: nat)
    requires x < 5 && y < 5 && Walk(t) == (x, y)
    ensures Walk(t + 1) == (y, (2 * x + 3 * y) % 5)
  {
  }

  /** The walk comes to every other lane. */
  lemma Visits(x: nat, y: nat) returns (t: nat)
    requires x < 5 && y < 5 && (x, y) != (0, 0)
    ensures t < 24 && Walk(t) == (x, y)
  {
    hide Walk;
    WalkStart();
    Visited(0, 1, 0);
    Visited(1, 0, 2);
    Visited(2, 2, 1);
    Visited(3, 1, 2);
    Visited(4, 2, 3);
    Visited(5, 3, 3);
    Visited(6, 3, 0);
    Visited(7, 0, 1);
    Visited(8, 1, 3);
    Visited(9, 3, 1);
    Visited(10, 1, 4);
    Visited(11, 4, 4);
    Visited(12, 4, 0);
    Visited(13, 0, 3);
    Visited(14, 3, 4);
    Visited(15, 4, 3);
    Visited(16, 3, 2);
    Visited(17, 2, 2);
    Visited(18, 2, 0);
    Visited(19, 0, 4);
    Visited(20, 4, 2);
    Visited(21, 2, 4);
    Visited(22, 4, 1);
    t := if (x, y) == (1, 0) then 0 else if (x, y) == (0, 2) then 1 else if (x, y) == (2, 1) then 2 else if (x, y) == (1, 2) then 3
         else if (x, y) == (2, 3) then 4 else if (x, y) == (3, 3) then 5 else if (x, y) == (3, 0) then 6 else if (x, y) == (0, 1) then 7
         else if (x, y) == (1, 3) then 8 else if (x, y) == (3, 1) then 9 else if (x, y) == (1, 4) then 10 else if (x, y) == (4, 4) then 11
         else if (x, y) == (4, 0) then 12 else if (x, y) == (0, 3) then 13 else if (x, y) == (3, 4) then 14 else if (x, y) == (4, 3) then 15
         else if (x, y) == (3, 2) then 16 else if (x, y) == (2, 2) then 17 else if (x, y) == (2, 0) then 18 else if (x, y) == (0, 4) then 19
         else if (x, y) == (4, 2) then 20 else if (x, y) == (2, 4) then 21 else if (x, y) == (4, 1) then 22 else 23;
  }

  lemma TurnIs(x: nat, y: nat)
    requires x < 5 && y < 5
    ensures Offset(x, y) == Turn(x, y) % 64
  {
    hide Walk, Offset, OffsetOk;
    if (x, y) == (0, 0) {
      forall t: nat
        ensures Walk(t) != (0, 0)
      {
        NeverOrigin(t);
      }
      OriginStays();
    } else {
      var u := Visits(x, y);
      var t: nat :| t < 24 && Walk(t) == (x, y) && Turn(x, y) == (t + 1) * (t + 2) / 2;
      OffsetsAreTriangular(t);
      OffsetIs(t);
    }
  }

  lemma OriginStays()
    ensures Offset(0, 0) == 0
  {
  }

  lemma OffsetIs(t: nat)
    requires OffsetOk(t)
    ensures Offset(Walk(t).0, Walk(t).1) == (t + 1) * (t + 2) / 2 % 64
  {
  }

  lemma RhoCell(a: Array, s: State, x: int, y: int, z: int)
    requires Shows(a, s)
    ensures Cell(Rho(s), x, y, z) == RhoOf(a)(x, y, z)
  {
    hide Mod64, Mod5, Offset, Turn, RotLane, LaneAt, Rho, Shows, Cell;
    var u, v := Mod5(x), Mod5(y);
    RhoLane(s, x, y, z);
    TurnIs(u, v);
    RotBit(LaneAt(s, v, u), Offset(u, v), z);
    var t := Turn(u, v);
    TurnWraps(z, t);
    ShowsAt(a, s, x, y, z - t);
    CellIs(s, x, y, z - t);
  }

  lemma RhoLane(s: State, x: int, y: int, z: int)
    ensures Cell(Rho(s), x, y, z) == RotLane(LaneAt(s, Mod5(y), Mod5(x)), Offset(Mod5(x), Mod5(y)))[Mod64(z)]
  {
    hide Mod64, Mod5, Offset, RotLane, LaneAt, Rho;
    PiRhoAt(s, Mod5(y), Mod5(x));
  }

  lemma CellIs(s: State, x: int, y: int, z: int)
    ensures Cell(s, x, y, z) == LaneAt(s, Mod5(y), Mod5(x))[Mod64(z)]
  {
  }

  lemma TurnWraps(z: int, t: nat)
    ensures Mod64(z - t % 64) == Mod64(z - t)
  {
  }

  lemma PiLaneBit(s: State, x: int, y: int, z: int)
    ensures Cell(Pi(s), x, y, z) == LaneAt(s, Mod5(x), Mod5(x + 3 * y))[Mod64(z)]
  {
    hide Mod64, Mod5, LaneAt, Pi, PiRhoLane, InversePiRhoLane, RotLane, Offset, Row;
    PiRhoAt(s, Mod5(y), Mod5(x));
    Mod5Sum(x, y);
  }

  lemma PiCell(a: Array, s: State, x: int, y: int, z: int)
    requires Shows(a, s)
    ensures Cell(Pi(s), x, y, z) == PiOf(a)(x, y, z)
  {
    hide Mod64, Mod5, LaneAt, Pi, Shows, Cell;
    PiLaneBit(s, x, y, z);
    ShowsAt(a, s, Diagonal(x, y), x, z);
    CellIs(s, Diagonal(x, y), x, z);
  }

  lemma Mod5Sum(x: int, y: int)
    ensures Mod5(Mod5(x) + 3 * Mod5(y)) == Mod5(x + 3 * y)
  {
  }

  lemma ChiCell(a: Array, s: State, x: int, y: int, z: int)
    requires Shows(a, s)
    ensures Cell(Chi(s), x, y, z) == ChiOf(a)(x, y, z)
  {
    hide Mod64, Mod5, LaneAt, Chi, Shows, Cell;
    var u, v := Mod5(x), Mod5(y);
    Mod5Of(x, 1, 0);
    Mod5Of(x, 2, 0);
    ChiAtBit(s, v, u, Mod64(z), Mod5(x + 1), Mod5(x + 2));
    CellIs(Chi(s), x, y, z);
    CellIs(s, x, y, z);
    CellIs(s, x + 1, y, z);
    CellIs(s, x + 2, y, z);
    ShowsAt(a, s, x, y, z);
    ShowsAt(a, s, x + 1, y, z);
    ShowsAt(a, s, x + 2, y, z);
  }

  lemma IotaCell(a: Array, s: State, round: nat, x: int, y: int, z: int)
    requires Shows(a, s) && round < 24
    ensures Cell(Iota(s, round), x, y, z) == IotaOf(a, round)(x, y, z)
  {
    hide Mod64, Mod5, AddLane, RoundConstant, ConstantBit, Shows;
    ShowsAt(a, s, x, y, z);
    AddBit(s[0], RoundConstant(round), z);
    ConstantsAreGenerated(round, Mod64(z));
  }

  /** The round of the program is Rnd of FIPS 202, on every state and at every index. */
  lemma ForwardIsStandard(a: Array, s: State, round: nat)
    requires Shows(a, s) && round < 24
    ensures Shows(Rnd(a, round), Forward(s, round))
  {
    hide Theta, Rho, Pi, Chi, Iota, Forward, ThetaOf, RhoOf, PiOf, ChiOf, IotaOf, Cell;
    ForwardIsRnd(s, round);
    var s1, a1 := Theta(s), ThetaOf(a);
    forall x, y, z
      ensures a1(x, y, z) == Cell(s1, x, y, z)
    {
      ThetaCell(a, s, x, y, z);
    }
    var s2, a2 := Rho(s1), RhoOf(a1);
    forall x, y, z
      ensures a2(x, y, z) == Cell(s2, x, y, z)
    {
      RhoCell(a1, s1, x, y, z);
    }
    var s3, a3 := Pi(s2), PiOf(a2);
    forall x, y, z
      ensures a3(x, y, z) == Cell(s3, x, y, z)
    {
      PiCell(a2, s2, x, y, z);
    }
    var s4, a4 := Chi(s3), ChiOf(a3);
    forall x, y, z
      ensures a4(x, y, z) == Cell(s4, x, y, z)
    {
      ChiCell(a3, s3, x, y, z);
    }
    var s5, a5 := Iota(s4, round), IotaOf(a4, round);
    forall x, y, z
      ensures a5(x, y, z) == Cell(s5, x, y, z)
    {
      IotaCell(a4, s4, round, x, y, z);
    }
  }

  /** The first n rounds of the program are the standard's; with n = 24, the permutation Keccak-f of section 3.4. */
  lemma {:induction false} RoundsAreStandard(a: Array, s: State, n: nat)
    requires Shows(a, s) && n <= 24
    ensures Shows(RndsOf(a, n), Rounds(s, 0, n))
  {
    hide Shows, Rnd, Forward;
    if n > 0 {
      RoundsAreStandard(a, s, n - 1);
      ForwardIsStandard(RndsOf(a, n - 1), Rounds(s, 0, n - 1), n - 1);
    }
  }
}
