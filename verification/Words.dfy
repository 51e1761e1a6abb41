/** Fixed-width machine words as bit sequences, least significant bit first.
    A uint32_t is a Word, a byte is a Byte; XOR, AND, shifts and rotations act bit by bit,
    and addition is modulo 2^32 (AddIsModular ties the ripple-carry form to the integers). */
module Words {
  type Bits = seq<bool>
  type Word = w: Bits | |w| == 32 witness seq(32, _ => false)
  type Byte = b: Bits | |b| == 8 witness seq(8, _ => false)

  function Zeros(n: nat): (r: Bits)
    ensures |r| == n && forall i :: 0 <= i < n ==> !r[i]
  {
    seq(n, _ => false)
  }

  function Ones(n: nat): (r: Bits)
    ensures |r| == n && forall i :: 0 <= i < n ==> r[i]
  {
    seq(n, _ => true)
  }

  const ZERO: Word := Zeros(32)
  const ONES: Word := Ones(32)

  function XorBits(a: Bits, b: Bits): (r: Bits)
    requires |a| == |b|
    ensures |r| == |a| && forall i :: 0 <= i < |a| ==> r[i] == (a[i] != b[i])
  {
    seq(|a|, i requires 0 <= i < |a| => a[i] != b[i])
  }

  function Xor(a: Word, b: Word): (r: Word)
    ensures forall i :: 0 <= i < 32 ==> r[i] == (a[i] != b[i])
  {
    XorBits(a, b)
  }

  function And(a: Word, b: Word): (r: Word)
    ensures forall i :: 0 <= i < 32 ==> r[i] == (a[i] && b[i])
  {
    seq(32, i requires 0 <= i < 32 => a[i] && b[i])
  }

  function Or(a: Word, b: Word): (r: Word)
    ensures forall i :: 0 <= i < 32 ==> r[i] == (a[i] || b[i])
  {
    seq(32, i requires 0 <= i < 32 => a[i] || b[i])
  }

  function Shl(a: Word, n: nat): (r: Word)
    ensures forall i :: 0 <= i < 32 ==> r[i] == (i >= n && a[i - n])
  {
    seq(32, i requires 0 <= i < 32 => i >= n && a[i - n])
  }

  function Shr(a: Word, n: nat): (r: Word)
    ensures forall i :: 0 <= i < 32 ==> r[i] == (i + n < 32 && a[i + n])
  {
    seq(32, i requires 0 <= i < 32 => i + n < 32 && a[i + n])
  }

  function Rotr(a: Word, n: nat): (r: Word)
    ensures forall i :: 0 <= i < 32 ==> r[i] == a[(i + n) % 32]
  {
    seq(32, i requires 0 <= i < 32 => a[(i + n) % 32])
  }

  /** All 32 bits equal to bit k: `0u - ((x >> k) & 1u)`. */
  function Broadcast(a: Word, k: nat): (r: Word)
    requires k < 32
    ensures forall i :: 0 <= i < 32 ==> r[i] == a[k]
  {
    seq(32, _ => a[k])
  }

  /** XOR of the first n bits. */
  function ParityTo(a: Bits, n: nat): bool
    requires n <= |a|
  {
    if n == 0 then false else ParityTo(a, n - 1) != a[n - 1]
  }

  /** A word whose only bit that may be set is bit 0. */
  function BitWord(b: bool): (r: Word)
    ensures r[0] == b && forall i :: 1 <= i < 32 ==> !r[i]
  {
    [b] + Zeros(31)
  }

  /** The carry into bit i of a + b. */
  function Carry(a: Word, b: Word, i: nat): bool
    requires i <= 32
  {
    if i == 0 then false
    else
      var c := Carry(a, b, i - 1);
      (a[i - 1] && b[i - 1]) || (c && (a[i - 1] || b[i - 1]))
  }

  function Add(a: Word, b: Word): (r: Word)
    ensures forall i :: 0 <= i < 32 ==> r[i] == ((a[i] != b[i]) != Carry(a, b, i))
  {
    seq(32, i requires 0 <= i < 32 => (a[i] != b[i]) != Carry(a, b, i))
  }

  /** The carry word `(a + b) ^ a ^ b`. */
  function CarryWord(a: Word, b: Word): (r: Word)
    ensures forall i :: 0 <= i < 32 ==> r[i] == Carry(a, b, i)
  {
    seq(32, i requires 0 <= i < 32 => Carry(a, b, i))
  }

  function Bit(b: bool): nat { if b then 1 else 0 }

  function Pow2(n: nat): (r: nat)
    ensures r >= 1
  {
    if n == 0 then 1 else 2 * Pow2(n - 1)
  }

  /** The unsigned value of a bit sequence. */
  function ToNat(a: Bits): nat
  {
    if a == [] then 0 else Bit(a[0]) + 2 * ToNat(a[1..])
  }

  /** The n low bits of v. */
  function FromNat(v: nat, n: nat): (r: Bits)
    ensures |r| == n
  {
    if n == 0 then [] else [v % 2 == 1] + FromNat(v / 2, n - 1)
  }

  function Word32(v: nat): Word { FromNat(v, 32) }

  lemma {:induction false} ToNatSnoc(a: Bits, b: bool)
    ensures ToNat(a + [b]) == ToNat(a) + Bit(b) * Pow2(|a|)
  {
    if a == [] {
    } else {
      assert (a + [b])[1..] == a[1..] + [b];
      ToNatSnoc(a[1..], b);
    }
  }

  lemma {:induction false} ToNatBound(a: Bits)
    ensures ToNat(a) < Pow2(|a|)
  {
    if a != [] {
      ToNatBound(a[1..]);
    }
  }

  lemma {:induction false} ToNatInjective(a: Bits, b: Bits)
    requires |a| == |b| && ToNat(a) == ToNat(b)
    ensures a == b
  {
    if a != [] {
      ToNatInjective(a[1..], b[1..]);
      assert a == [a[0]] + a[1..] && b == [b[0]] + b[1..];
    }
  }

  lemma {:induction false} FromToNat(v: nat, n: nat)
    requires v < Pow2(n)
    ensures ToNat(FromNat(v, n)) == v
  {
    if n > 0 {
      FromToNat(v / 2, n - 1);
      assert FromNat(v, n)[1..] == FromNat(v / 2, n - 1);
    }
  }

  lemma Pow8()
    ensures Pow2(8) == 256
  {
    assert Pow2(4) == 16;
  }

  lemma Pow32()
    ensures Pow2(32) == 0x1_0000_0000
  {
    assert Pow2(8) == 0x100;
    assert Pow2(16) == 0x1_0000;
    assert Pow2(24) == 0x100_0000;
  }

  lemma WordValue(v: nat)
    requires v < 0x1_0000_0000
    ensures ToNat(Word32(v)) == v
  {
    hide ToNat, FromNat, Pow2;
    Pow32();
    FromToNat(v, 32);
  }

  lemma ByteRead(v: nat)
    requires v < 256
    ensures ToNat(FromNat(v, 8)) == v
  {
    hide ToNat, FromNat, Pow2;
    Pow8();
    FromToNat(v, 8);
  }

  lemma {:induction false} ToNatZeros(n: nat)
    ensures ToNat(Zeros(n)) == 0
  {
    if n > 0 {
      assert Zeros(n)[1..] == Zeros(n - 1);
      ToNatZeros(n - 1);
    }
  }

  lemma {:induction false} ToNatAppend(a: Bits, b: Bits)
    ensures ToNat(a + b) == ToNat(a) + Pow2(|a|) * ToNat(b)
  {
    if a == [] {
      assert a + b == b;
    } else {
      assert (a + b)[1..] == a[1..] + b;
      ToNatAppend(a[1..], b);
      TwiceProduct(Pow2(|a| - 1), ToNat(b));
    }
  }

  lemma TwiceProduct(p: nat, t: nat)
    ensures 2 * (p * t) == (2 * p) * t
  {
  }

  /** v >> h, as h halvings. */
  function Up(v: nat, h: nat): nat
    decreases h
  {
    if h == 0 then v else Up(v, h - 1) / 2
  }

  lemma {:induction false} UpHalf(v: nat, h: nat)
    ensures Up(v / 2, h) == Up(v, h + 1)
    decreases h
  {
    if h > 0 { UpHalf(v, h - 1); }
  }

  /** Bit i of the n low bits of v is the lowest bit of v after i halvings. */
  lemma {:induction false} FromNatBit(v: nat, n: nat, i: nat)
    requires i < n
    ensures FromNat(v, n)[i] == (Up(v, i) % 2 == 1)
    decreases i
  {
    if i > 0 {
      FromNatBit(v / 2, n - 1, i - 1);
      UpHalf(v, i - 1);
    }
  }

  lemma {:induction false} FromZero(n: nat, i: nat)
    requires i < n
    ensures !FromNat(0, n)[i]
    decreases i
  {
    if i > 0 { FromZero(n - 1, i - 1); }
  }

  // ---- remainders ----------------------------------------------------------

  lemma Times(d: int, m: int)
    requires m >= 0
    ensures d >= 1 ==> d * m >= m
    ensures d <= -1 ==> d * m <= -m
    ensures d <= 0 ==> d * m <= 0
  {
  }

  lemma ModOf(r: nat, q: nat, m: nat)
    requires r < m
    ensures (q * m + r) % m == r && (q * m + r) / m == q
  {
    var v := q * m + r;
    var d := v / m - q;
    assert v % m - r == -d * m;
    Times(d, m);
    Times(-d, m);
  }

  /** The first i bits of a + b, with the carry out of them. */
  lemma {:induction false} AddPrefix(a: Word, b: Word, i: nat)
    requires i <= 32
    ensures ToNat(Add(a, b)[..i]) + Bit(Carry(a, b, i)) * Pow2(i) == ToNat(a[..i]) + ToNat(b[..i])
  {
    hide Pow2, Bit, Carry, Add;
    if i == 0 {
      AddNothing(a, b);
    } else {
      AddPrefix(a, b, i - 1);
      var s := Add(a, b);
      assert s[..i] == s[..i - 1] + [s[i - 1]];
      assert a[..i] == a[..i - 1] + [a[i - 1]];
      assert b[..i] == b[..i - 1] + [b[i - 1]];
      ToNatSnoc(s[..i - 1], s[i - 1]);
      ToNatSnoc(a[..i - 1], a[i - 1]);
      ToNatSnoc(b[..i - 1], b[i - 1]);
      CarryStep(a, b, i - 1);
    }
  }

  lemma AddNothing(a: Word, b: Word)
    ensures !Carry(a, b, 0) && ToNat(a[..0]) == ToNat(b[..0]) == ToNat(Add(a, b)[..0]) == 0 && Bit(false) == 0
  {
  }

  /** One column of the addition, at the weight of its bit. */
  lemma CarryStep(a: Word, b: Word, i: nat)
    requires i < 32
    ensures Bit(Add(a, b)[i]) * Pow2(i) + Bit(Carry(a, b, i + 1)) * Pow2(i + 1) == Bit(a[i]) * Pow2(i) + Bit(b[i]) * Pow2(i) + Bit(Carry(a, b, i)) * Pow2(i)
  {
    hide Pow2, Carry, Bit;
    TwicePow2(i);
    CarryBits(a, b, i);
    ColumnWeight(a[i], b[i], Carry(a, b, i), Pow2(i));
  }

  lemma TwicePow2(i: nat)
    ensures Pow2(i + 1) == 2 * Pow2(i)
  {
  }

  lemma CarryBits(a: Word, b: Word, i: nat)
    requires i < 32
    ensures Add(a, b)[i] == ((a[i] != b[i]) != Carry(a, b, i))
    ensures Carry(a, b, i + 1) == ((a[i] && b[i]) || (Carry(a, b, i) && (a[i] || b[i])))
  {
  }

  lemma ColumnWeight(a: bool, b: bool, c: bool, p: nat)
    ensures Bit((a != b) != c) * p + Bit((a && b) || (c && (a || b))) * (2 * p) == Bit(a) * p + Bit(b) * p + Bit(c) * p
  {
  }

  /** Addition of words is addition of their values modulo 2^32. */
  lemma AddIsModular(a: Word, b: Word)
    ensures ToNat(Add(a, b)) == (ToNat(a) + ToNat(b)) % Pow2(32)
  {
    hide ToNat, Pow2, Carry, Add;
    AddPrefix(a, b, 32);
    assert a[..32] == a && b[..32] == b && Add(a, b)[..32] == Add(a, b);
    ToNatBound(Add(a, b));
    ModOf(ToNat(Add(a, b)), Bit(Carry(a, b, 32)), Pow2(32));
  }

  // ---- prefix XOR ----------------------------------------------------------

  /** The doubling cascade `v ^= v << 1; v ^= v << 2; ... ; v << 1`. */
  function PrefixXorShift(v: Word): Word
  {
    var v1 := Xor(v, Shl(v, 1));
    var v2 := Xor(v1, Shl(v1, 2));
    var v3 := Xor(v2, Shl(v2, 4));
    var v4 := Xor(v3, Shl(v3, 8));
    var v5 := Xor(v4, Shl(v4, 16));
    Shl(v5, 1)
  }

  /** XOR of the n bits of v at positions i, i-1, ..., i-n+1; positions below 0 count as clear. */
  function Window(v: Word, i: int, n: nat): bool
    requires i < 32
    decreases n
  {
    if n == 0 then false else (i >= 0 && v[i]) != Window(v, i - 1, n - 1)
  }

  lemma {:induction false} WindowSplit(v: Word, i: int, m: nat, n: nat)
    requires i < 32
    ensures Window(v, i, m + n) == (Window(v, i, m) != Window(v, i - m, n))
    decreases m
  {
    if m > 0 { WindowSplit(v, i - 1, m - 1, n); }
  }

  lemma {:induction false} WindowBelowZero(v: Word, i: int, n: nat)
    requires i < 0
    ensures !Window(v, i, n)
    decreases n
  {
    if n > 0 { WindowBelowZero(v, i - 1, n - 1); }
  }

  lemma {:induction false} WindowIsParity(v: Word, i: int, n: nat)
    requires -1 <= i < 32 && n > i
    ensures Window(v, i, n) == ParityTo(v, i + 1)
    decreases n
  {
    if i < 0 {
      WindowBelowZero(v, i, n);
    } else {
      WindowIsParity(v, i - 1, n - 1);
    }
  }

  lemma DoubleWindow(v: Word, u: Word, n: nat)
    requires forall i :: 0 <= i < 32 ==> u[i] == Window(v, i, n)
    ensures forall i :: 0 <= i < 32 ==> Xor(u, Shl(u, n))[i] == Window(v, i, 2 * n)
  {
    forall i | 0 <= i < 32
      ensures Xor(u, Shl(u, n))[i] == Window(v, i, 2 * n)
    {
      WindowSplit(v, i, n, n);
      if i < n { WindowBelowZero(v, i - n, n); }
    }
  }

  /** Bit i of the cascade is the XOR of all bits below i. */
  lemma PrefixXorShiftBits(v: Word)
    ensures forall i :: 0 <= i < 32 ==> PrefixXorShift(v)[i] == ParityTo(v, i)
  {
    var v1 := Xor(v, Shl(v, 1));
    var v2 := Xor(v1, Shl(v1, 2));
    var v3 := Xor(v2, Shl(v2, 4));
    var v4 := Xor(v3, Shl(v3, 8));
    var v5 := Xor(v4, Shl(v4, 16));
    assert forall i :: 0 <= i < 32 ==> v[i] == Window(v, i, 1);
    DoubleWindow(v, v, 1);
    DoubleWindow(v, v1, 2);
    DoubleWindow(v, v2, 4);
    DoubleWindow(v, v3, 8);
    DoubleWindow(v, v4, 16);
    forall i | 0 <= i < 32
      ensures PrefixXorShift(v)[i] == ParityTo(v, i)
    {
      if i > 0 { WindowIsParity(v, i - 1, 32); }
    }
  }
}
