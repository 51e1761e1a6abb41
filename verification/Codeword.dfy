/** The target-sum codeword: 42 three-bit coordinates read off 128 digest bits. */
module Codeword {
  import opened Words
  import opened Wots

  const DIGEST_BYTES: nat := 16
  const PER_WORD: nat := 21

  type Digest = d: seq<Byte> | |d| >= 16 witness seq(16, _ => Zeros(8))

  function DigestBit(d: Digest, j: nat): bool
    requires j < 128
  {
    d[j / 8][j % 8]
  }

  /** Coordinates 0..20 start at bit 0, coordinates 21..41 at bit 64. */
  function BitPos(i: nat): (p: nat)
    requires i < CHAINS
    ensures p + 2 < 128
  {
    if i < PER_WORD then 3 * i else 64 + 3 * (i - PER_WORD)
  }

  function CoordBits(d: Digest, i: nat): (b: Bits)
    requires i < CHAINS
    ensures |b| == 3
  {
    [DigestBit(d, BitPos(i)), DigestBit(d, BitPos(i) + 1), DigestBit(d, BitPos(i) + 2)]
  }

  function Coord(d: Digest, i: nat): (c: nat)
    requires i < CHAINS
    ensures c <= MAX_STEPS
  {
    var b := CoordBits(d, i);
    Bit(b[0]) + 2 * Bit(b[1]) + 4 * Bit(b[2])
  }

  function Coords(d: Digest): (r: seq<nat>)
    ensures |r| == CHAINS && forall i :: 0 <= i < CHAINS ==> r[i] == Coord(d, i) && r[i] <= MAX_STEPS
  {
    seq(CHAINS, i requires 0 <= i < CHAINS => Coord(d, i))
  }

  /** The two digest bits no coordinate covers are clear. */
  predicate LeftoverClear(d: Digest)
  {
    !DigestBit(d, 63) && !DigestBit(d, 127)
  }

  /** A digest the signer may use. */
  predicate Accepted(d: Digest)
  {
    LeftoverClear(d) && Sum(Coords(d)) == TARGET_SUM
  }

  /** The extraction loop; the digest is refused exactly when a leftover bit is set. */
  method ExtractCoords(d: Digest) returns (ok: bool, coords: seq<nat>)
    ensures coords == Coords(d) && ok == LeftoverClear(d)
  {
    coords := [];
    for i := 0 to CHAINS
      invariant coords == Coords(d)[..i]
    {
      var pos := BitPos(i);
      var c := 0;
      var weight := 1;
      for k := 0 to 3
        invariant weight == if k == 0 then 1 else if k == 1 then 2 else if k == 2 then 4 else 8
        invariant c == (if k > 0 then Bit(DigestBit(d, pos)) else 0) + (if k > 1 then 2 * Bit(DigestBit(d, pos + 1)) else 0)
                     + (if k > 2 then 4 * Bit(DigestBit(d, pos + 2)) else 0)
      {
        c := c + weight * Bit(DigestBit(d, pos + k));
        weight := 2 * weight;
      }
      coords := coords + [c];
    }
    ok := !(d[7][7] || d[DIGEST_BYTES - 1][7]);
  }

  /** Eight digest bytes as one number, least significant byte first. */
  function HalfBits(d: Digest, h: nat): (b: Bits)
    requires h < 2
    ensures |b| == 64 && forall j :: 0 <= j < 64 ==> b[j] == DigestBit(d, 64 * h + j)
  {
    seq(64, j requires 0 <= j < 64 => DigestBit(d, 64 * h + j))
  }

  /** The number with these octal digits, lowest first, below a top digit. */
  function Octal(cs: seq<nat>, top: nat): nat
  {
    if cs == [] then top else cs[0] + 8 * Octal(cs[1..], top)
  }

  lemma ToNatCons(b: Bits)
    ensures ToNat(b) == if b == [] then 0 else Bit(b[0]) + 2 * ToNat(b[1..])
  {
  }

  lemma {:induction false} OctalOf(b: Bits, cs: seq<nat>)
    requires |b| == 3 * |cs| + 1
    requires forall i :: 0 <= i < |cs| ==> cs[i] == Bit(b[3 * i]) + 2 * Bit(b[3 * i + 1]) + 4 * Bit(b[3 * i + 2])
    ensures ToNat(b) == Octal(cs, Bit(b[3 * |cs|]))
  {
    hide ToNat;
    if cs == [] {
      ToNatCons(b);
      ToNatCons(b[1..]);
    } else {
      var rest := b[3..];
      assert b[1..][1..][1..] == rest;
      assert cs[0] == Bit(b[3 * 0]) + 2 * Bit(b[3 * 0 + 1]) + 4 * Bit(b[3 * 0 + 2]);
      forall i | 0 <= i < |cs[1..]|
        ensures cs[1..][i] == Bit(rest[3 * i]) + 2 * Bit(rest[3 * i + 1]) + 4 * Bit(rest[3 * i + 2])
      {
        assert cs[1..][i] == cs[i + 1] && 3 * (i + 1) == 3 * i + 3;
      }
      OctalOf(rest, cs[1..]);
      ToNatCons(b);
      ToNatCons(b[1..]);
      ToNatCons(b[1..][1..]);
      assert rest[3 * |cs[1..]|] == b[3 * |cs|];
    }
  }

  /** The coordinates are octal digits: 21 of them make up each half of the digest, read as a number with the lowest
      digit first, and the leftover bit is what is left on top. */
  lemma CoordsAreDigits(d: Digest, h: nat)
    requires h < 2
    ensures ToNat(HalfBits(d, h)) == Octal(Coords(d)[PER_WORD * h..PER_WORD * h + PER_WORD], Bit(DigestBit(d, 64 * h + 63)))
  {
    hide ToNat, Octal;
    var b, cs := HalfBits(d, h), Coords(d)[PER_WORD * h..PER_WORD * h + PER_WORD];
    forall i | 0 <= i < PER_WORD
      ensures cs[i] == Bit(b[3 * i]) + 2 * Bit(b[3 * i + 1]) + 4 * Bit(b[3 * i + 2])
    {
      assert cs[i] == Coord(d, PER_WORD * h + i);
      assert BitPos(PER_WORD * h + i) == 64 * h + 3 * i;
    }
    OctalOf(b, cs);
  }

  /** The codeword and the two leftover bits determine all 128 digest bits. */
  lemma CodewordInjective(d: Digest, e: Digest)
    requires LeftoverClear(d) && LeftoverClear(e) && Coords(d) == Coords(e)
    ensures d[..16] == e[..16]
  {
    forall j | 0 <= j < 128
      ensures DigestBit(d, j) == DigestBit(e, j)
    {
      BitOfCoord(d, e, j);
    }
    forall i | 0 <= i < 16
      ensures d[i] == e[i]
    {
      forall b | 0 <= b < 8
        ensures d[i][b] == e[i][b]
      {
        assert DigestBit(d, 8 * i + b) == DigestBit(e, 8 * i + b);
      }
    }
  }

  lemma BitOfCoord(d: Digest, e: Digest, j: nat)
    requires LeftoverClear(d) && LeftoverClear(e) && Coords(d) == Coords(e) && j < 128
    ensures DigestBit(d, j) == DigestBit(e, j)
  {
    if j != 63 && j != 127 {
      var i := if j < 63 then j / 3 else PER_WORD + (j - 64) / 3;
      assert Coords(d)[i] == Coords(e)[i];
      assert BitPos(i) <= j <= BitPos(i) + 2;
    }
  }

  /** No accepted codeword is componentwise below another: raising every chain of a signature can
      never reach the codeword of a different accepted digest. */
  lemma CodewordsIncomparable(d: Digest, e: Digest)
    requires Accepted(d) && Accepted(e) && d[..16] != e[..16]
    ensures exists i :: 0 <= i < CHAINS && Coords(d)[i] < Coords(e)[i]
    ensures exists i :: 0 <= i < CHAINS && Coords(d)[i] > Coords(e)[i]
  {
    if forall i :: 0 <= i < CHAINS ==> Coords(d)[i] >= Coords(e)[i] {
      SumPins(Coords(e), Coords(d));
      CodewordInjective(d, e);
      assert false;
    }
    if forall i :: 0 <= i < CHAINS ==> Coords(d)[i] <= Coords(e)[i] {
      SumPins(Coords(d), Coords(e));
      CodewordInjective(d, e);
      assert false;
    }
  }
}
