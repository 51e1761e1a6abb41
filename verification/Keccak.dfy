/** The Keccak round on 25 lanes of 64 bits, its inverse by sparse passes, and the step mappings of
    section 3.2 of FIPS 202 it is made of. Lane (row, column) has index 5 * row + column, so FIPS 202's
    A[x, y, z] is bit z of the lane with row y and column x. */
module Keccak {
  import opened Words

  type Lane = b: Bits | |b| == 64 witness seq(64, _ => false)
  type State = s: seq<Lane> | |s| == 25 witness seq(25, _ => seq(64, _ => false))
  /** One lane per column: column parities. */
  type Plane = s: seq<Lane> | |s| == 5 witness seq(5, _ => seq(64, _ => false))

  function AddLane(a: Lane, b: Lane): (r: Lane)
    ensures forall z :: 0 <= z < 64 ==> r[z] == (a[z] != b[z])
  {
    XorBits(a, b)
  }

  function MulLane(a: Lane, b: Lane): (r: Lane)
    ensures forall z :: 0 <= z < 64 ==> r[z] == (a[z] && b[z])
  {
    seq(64, z requires 0 <= z < 64 => a[z] && b[z])
  }

  function OneLane(): (r: Lane)
    ensures forall z :: 0 <= z < 64 ==> r[z]
  {
    Ones(64)
  }

  function Mod5(x: int): (r: nat)
    ensures r < 5
  {
    x % 5
  }

  function Mod64(z: int): (r: nat)
    ensures r < 64
  {
    z % 64
  }

  lemma Mod5Of(x: int, d: int, m: int)
    ensures Mod5(Mod5(x) + d) == Mod5(x + d) && Mod5(x + 5 * m) == Mod5(x)
    ensures 0 <= x < 5 ==> Mod5(x) == x
  {
  }

  lemma Mod64Of(z: int, d: int, m: int)
    ensures Mod64(Mod64(z) + d) == Mod64(z + d) && Mod64(z + 64 * m) == Mod64(z)
    ensures 0 <= z < 64 ==> Mod64(z) == z
  {
  }

  /** Bit z moves to position z + shift. */
  function RotLane(a: Lane, shift: int): Lane
  {
    seq(64, z requires 0 <= z < 64 => a[Mod64(z - shift)])
  }

  lemma RotTwice(a: Lane, i: int, j: int)
    ensures RotLane(RotLane(a, i), j) == RotLane(a, i + j)
  {
    hide Mod64;
    var f, g := RotLane(RotLane(a, i), j), RotLane(a, i + j);
    forall z | 0 <= z < 64
      ensures f[z] == g[z]
    {
      Mod64Of(z - j, -i, 0);
      assert z - j - i == z - (i + j);
    }
  }

  lemma RotFull(a: Lane)
    ensures RotLane(a, 64) == a
  {
    hide Mod64;
    forall z | 0 <= z < 64
      ensures RotLane(a, 64)[z] == a[z]
    {
      Mod64Of(z, 0, -1);
      assert z - 64 == z + 64 * -1;
    }
  }

  /** Rotating on by 64 minus the shift undoes a rotation. */
  lemma RotBack(a: Lane, i: int, j: int)
    requires i + j == 64
    ensures RotLane(RotLane(a, i), j) == a
  {
    RotTwice(a, i, j);
    RotFull(a);
  }

  function LaneAt(s: State, row: nat, col: nat): Lane
    requires row < 5 && col < 5
  {
    s[5 * row + col]
  }

  // ---- theta ---------------------------------------------------------------

  function ColumnParity(s: State, x: nat): Lane
    requires x < 5
  {
    AddLane(AddLane(AddLane(AddLane(LaneAt(s, 0, x), LaneAt(s, 1, x)), LaneAt(s, 2, x)), LaneAt(s, 3, x)), LaneAt(s, 4, x))
  }

  function Parity(s: State): (p: Plane)
    ensures forall x :: 0 <= x < 5 ==> p[x] == ColumnParity(s, x)
  {
    [ColumnParity(s, 0), ColumnParity(s, 1), ColumnParity(s, 2), ColumnParity(s, 3), ColumnParity(s, 4)]
  }

  function Effect(p: Plane, x: nat): Lane
    requires x < 5
  {
    AddLane(p[Mod5(x - 1)], RotLane(p[Mod5(x + 1)], 1))
  }

  /** Adds to every lane the effect of the parities p on its column. */
  function AddEffect(s: State, p: Plane): (r: State)
    ensures forall i :: 0 <= i < 25 ==> r[i] == AddLane(s[i], Effect(p, Mod5(i)))
  {
    seq(25, i requires 0 <= i < 25 => AddLane(s[i], Effect(p, Mod5(i))))
  }

  lemma EffectAt(s: State, p: Plane, row: nat, x: nat)
    requires row < 5 && x < 5
    ensures LaneAt(AddEffect(s, p), row, x) == AddLane(LaneAt(s, row, x), Effect(p, x))
  {
    hide Effect;
    Mod5Of(x, 0, row);
    assert Mod5(5 * row + x) == x;
  }

  function Theta(s: State): State { AddEffect(s, Parity(s)) }

  // ---- theta backwards -----------------------------------------------------

  /** One trinomial pass over the parities, I + P^-k + R^k P^k in the source's shifts. */
  function Pass(p: Plane, k: int): (r: Plane)
    ensures forall x :: 0 <= x < 5 ==> r[x] == PassLane(p, k, x)
  {
    seq(5, x requires 0 <= x < 5 => PassLane(p, k, x))
  }

  function PassLane(p: Plane, k: int, x: int): Lane
  {
    AddLane(AddLane(p[Mod5(x)], p[Mod5(x - k)]), RotLane(p[Mod5(x + k)], k))
  }

  function PassAll(p: Plane, powers: seq<int>): Plane
  {
    if powers == [] then p else Pass(PassAll(p, powers[..|powers| - 1]), powers[|powers| - 1])
  }

  const POWERS: seq<int> := [1, 2, 4, 8, 16, 32, 128]

  function InverseTheta(s: State): State { AddEffect(s, PassAll(Parity(s), POWERS)) }

  /** Bit z of column x, both taken modulo their range. */
  function BitOf(p: Plane, x: int, z: int): bool { p[Mod5(x)][Mod64(z)] }

  /** A pass, bit by bit. */
  lemma PassBit(p: Plane, k: int, x: int, z: int)
    ensures BitOf(Pass(p, k), x, z) == ((BitOf(p, x, z) != BitOf(p, x - k, z)) != BitOf(p, x + k, z - k))
  {
    hide Mod5, Mod64;
    var c := Mod5(x);
    Mod5Of(x, -k, 0);
    Mod5Of(x, k, 0);
    Mod5Of(x, 0, 0);
    Mod5Of(c, 0, 0);
    Mod64Of(z, -k, 0);
    assert Pass(p, k)[c] == PassLane(p, k, c);
  }

  lemma SamePlane(p: Plane, q: Plane)
    requires forall x, z :: 0 <= x < 5 && 0 <= z < 64 ==> BitOf(p, x, z) == BitOf(q, x, z)
    ensures p == q
  {
    forall x | 0 <= x < 5
      ensures p[x] == q[x]
    {
      forall z | 0 <= z < 64
        ensures p[x][z] == q[x][z]
      {
        Mod5Of(x, 0, 0);
        Mod64Of(z, 0, 0);
        assert BitOf(p, x, z) == BitOf(q, x, z);
      }
    }
  }

  lemma PassesCommute(p: Plane, j: int, k: int)
    ensures Pass(Pass(p, j), k) == Pass(Pass(p, k), j)
  {
    hide BitOf, Pass;
    forall x, z | 0 <= x < 5 && 0 <= z < 64
      ensures BitOf(Pass(Pass(p, j), k), x, z) == BitOf(Pass(Pass(p, k), j), x, z)
    {
      PassTwiceBit(p, j, k, x, z);
      PassTwiceBit(p, k, j, x, z);
      assert x - k - j == x - j - k && x + k - j == x - j + k && x - k + j == x + j - k;
    }
    SamePlane(Pass(Pass(p, j), k), Pass(Pass(p, k), j));
  }

  lemma PassTwiceBit(p: Plane, j: int, k: int, x: int, z: int)
    ensures BitOf(Pass(Pass(p, j), k), x, z)
         == ((((BitOf(p, x, z) != BitOf(p, x - j, z)) != BitOf(p, x + j, z - j))
              != ((BitOf(p, x - k, z) != BitOf(p, x - k - j, z)) != BitOf(p, x - k + j, z - j)))
             != ((BitOf(p, x + k, z - k) != BitOf(p, x + k - j, z - k)) != BitOf(p, x + k + j, z - k - j)))
  {
    hide BitOf, Pass;
    PassBit(Pass(p, j), k, x, z);
    PassBit(p, j, x, z);
    PassBit(p, j, x - k, z);
    PassBit(p, j, x + k, z - k);
  }

  /** Squaring a pass doubles its power: the cross terms meet and cancel. */
  lemma PassSquared(p: Plane, k: int)
    ensures Pass(Pass(p, k), k) == Pass(p, 2 * k)
  {
    hide BitOf, Pass;
    forall x, z | 0 <= x < 5 && 0 <= z < 64
      ensures BitOf(Pass(Pass(p, k), k), x, z) == BitOf(Pass(p, 2 * k), x, z)
    {
      PassTwiceBit(p, k, k, x, z);
      PassBit(p, 2 * k, x, z);
      assert x - k - k == x - 2 * k && x + k + k == x + 2 * k && z - k - k == z - 2 * k;
    }
    SamePlane(Pass(Pass(p, k), k), Pass(p, 2 * k));
  }

  lemma BitWraps(p: Plane, x: int, z: int, m: int, n: int)
    ensures BitOf(p, x + 5 * m, z + 64 * n) == BitOf(p, x, z)
  {
    Mod5Of(x, 0, m);
    Mod64Of(z, 0, n);
  }

  /** L^64 L^128 = L^192 = I: with no rotation left, the nine column shifts cancel in pairs. */
  lemma PassFull(p: Plane)
    ensures Pass(Pass(p, 64), 128) == p
  {
    hide BitOf, Pass;
    forall x, z | 0 <= x < 5 && 0 <= z < 64
      ensures BitOf(Pass(Pass(p, 64), 128), x, z) == BitOf(p, x, z)
    {
      PassTwiceBit(p, 64, 128, x, z);
      BitWraps(p, x + 1, z, -13, 0);
      BitWraps(p, x + 4, z, 12, -1);
      BitWraps(p, x + 2, z, -26, 0);
      BitWraps(p, x + 3, z, -39, 0);
      BitWraps(p, x + 1, z, -13, -1);
      BitWraps(p, x + 3, z, 25, -2);
      BitWraps(p, x + 4, z, 12, -2);
      BitWraps(p, x + 2, z, 38, -3);
    }
    SamePlane(Pass(Pass(p, 64), 128), p);
  }

  lemma PassAllUnfold(p: Plane)
    ensures PassAll(p, POWERS) == Pass(Pass(Pass(Pass(Pass(Pass(Pass(p, 1), 2), 4), 8), 16), 32), 128)
  {
    hide Pass;
    var s := POWERS;
    assert s[..6] == [1, 2, 4, 8, 16, 32] && s[..6][..5] == [1, 2, 4, 8, 16];
    PassAllSnoc(p, [], 1);
    PassAllSnoc(p, [1], 2);
    PassAllSnoc(p, [1, 2], 4);
    PassAllSnoc(p, [1, 2, 4], 8);
    PassAllSnoc(p, [1, 2, 4, 8], 16);
    PassAllSnoc(p, [1, 2, 4, 8, 16], 32);
    PassAllSnoc(p, [1, 2, 4, 8, 16, 32], 128);
    assert [] + [1] == [1] && [1] + [2] == [1, 2] && [1, 2] + [4] == [1, 2, 4] && [1, 2, 4] + [8] == [1, 2, 4, 8];
    assert [1, 2, 4, 8] + [16] == [1, 2, 4, 8, 16] && [1, 2, 4, 8, 16] + [32] == [1, 2, 4, 8, 16, 32] && [1, 2, 4, 8, 16, 32] + [128] == s;
  }

  lemma PassAllSnoc(p: Plane, powers: seq<int>, k: int)
    ensures PassAll(p, powers + [k]) == Pass(PassAll(p, powers), k)
  {
    assert (powers + [k])[..|powers|] == powers;
  }

  /** The seven passes invert theta's action on column parities, from either side. */
  lemma PassesInvert(p: Plane)
    ensures PassAll(Pass(p, 1), POWERS) == p && Pass(PassAll(p, POWERS), 1) == p
  {
    hide Pass, PassAll;
    var p1 := Pass(p, 1);
    PassAllUnfold(p1);
    PassSquared(p, 1);
    PassSquared(p, 2);
    PassSquared(p, 4);
    PassSquared(p, 8);
    PassSquared(p, 16);
    PassSquared(p, 32);
    PassFull(p);
    assert Pass(Pass(Pass(Pass(Pass(Pass(Pass(p1, 1), 2), 4), 8), 16), 32), 128) == p;
    PassAllUnfold(p);
    var q1 := Pass(p, 1);
    var q2 := Pass(q1, 2);
    var q4 := Pass(q2, 4);
    var q8 := Pass(q4, 8);
    var q16 := Pass(q8, 16);
    var q32 := Pass(q16, 32);
    PassesCommute(q32, 128, 1);
    PassesCommute(q16, 32, 1);
    PassesCommute(q8, 16, 1);
    PassesCommute(q4, 8, 1);
    PassesCommute(q2, 4, 1);
    PassesCommute(q1, 2, 1);
  }

  lemma AddLaneGroup(a: Lane, b: Lane)
    ensures AddLane(AddLane(a, b), b) == a
  {
  }

  /** Adding the effect of q changes the parities by that effect, five times over, that is once. */
  lemma EffectOnParity(s: State, q: Plane, x: nat)
    requires x < 5
    ensures ColumnParity(AddEffect(s, q), x) == AddLane(ColumnParity(s, x), Effect(q, x))
  {
    hide Effect, AddEffect;
    EffectAt(s, q, 0, x);
    EffectAt(s, q, 1, x);
    EffectAt(s, q, 2, x);
    EffectAt(s, q, 3, x);
    EffectAt(s, q, 4, x);
    FiveTimes(LaneAt(s, 0, x), LaneAt(s, 1, x), LaneAt(s, 2, x), LaneAt(s, 3, x), LaneAt(s, 4, x), Effect(q, x));
  }

  lemma FiveTimes(a: Lane, b: Lane, c: Lane, e: Lane, f: Lane, d: Lane)
    ensures AddLane(AddLane(AddLane(AddLane(AddLane(a, d), AddLane(b, d)), AddLane(c, d)), AddLane(e, d)), AddLane(f, d))
         == AddLane(AddLane(AddLane(AddLane(AddLane(a, b), c), e), f), d)
  {
    var l, r := AddLane(AddLane(AddLane(AddLane(AddLane(a, d), AddLane(b, d)), AddLane(c, d)), AddLane(e, d)), AddLane(f, d)),
                AddLane(AddLane(AddLane(AddLane(AddLane(a, b), c), e), f), d);
    forall z | 0 <= z < 64
      ensures l[z] == r[z]
    {
    }
  }

  /** The passes' first power is theta's own action on parities. */
  lemma PassIsEffect(p: Plane, x: nat)
    requires x < 5
    ensures Pass(p, 1)[x] == AddLane(p[x], Effect(p, x))
  {
    hide Mod5, Mod64;
    Mod5Of(x, 0, 0);
    AddLaneAssociates(p[x], p[Mod5(x - 1)], RotLane(p[Mod5(x + 1)], 1));
  }

  lemma AddLaneAssociates(a: Lane, b: Lane, c: Lane)
    ensures AddLane(AddLane(a, b), c) == AddLane(a, AddLane(b, c))
  {
    var l, r := AddLane(AddLane(a, b), c), AddLane(a, AddLane(b, c));
    forall z | 0 <= z < 64
      ensures l[z] == r[z]
    {
    }
  }

  lemma EffectTwice(s: State, q: Plane)
    ensures AddEffect(AddEffect(s, q), q) == s
  {
    hide Effect;
    var r := AddEffect(AddEffect(s, q), q);
    forall i | 0 <= i < 25
      ensures r[i] == s[i]
    {
      AddLaneGroup(s[i], Effect(q, Mod5(i)));
    }
  }

  lemma ParityOfAdded(s: State, q: Plane, want: Plane)
    requires forall x :: 0 <= x < 5 ==> AddLane(Parity(s)[x], Effect(q, x)) == want[x]
    ensures Parity(AddEffect(s, q)) == want
  {
    hide Effect, ColumnParity;
    forall x | 0 <= x < 5
      ensures Parity(AddEffect(s, q))[x] == want[x]
    {
      EffectOnParity(s, q, x);
    }
  }

  /** inverse_theta is a two-sided inverse of theta on every state. */
  lemma ThetaInverse(s: State)
    ensures InverseTheta(Theta(s)) == s && Theta(InverseTheta(s)) == s
  {
    hide AddEffect, Effect, PassAll, Pass;
    var p := Parity(s);
    forall x | 0 <= x < 5
      ensures AddLane(p[x], Effect(p, x)) == Pass(p, 1)[x]
    {
      PassIsEffect(p, x);
    }
    ParityOfAdded(s, p, Pass(p, 1));
    PassesInvert(p);
    EffectTwice(s, p);
    var q := PassAll(p, POWERS);
    forall x | 0 <= x < 5
      ensures AddLane(p[x], Effect(q, x)) == q[x]
    {
      PassIsEffect(q, x);
      AddLaneGroup(q[x], Effect(q, x));
    }
    ParityOfAdded(s, q, q);
    EffectTwice(s, q);
  }

  // ---- rho and pi ----------------------------------------------------------

  function Row(i: int): (r: nat)
    requires 0 <= i < 25
    ensures r < 5
  {
    i / 5
  }

  lemma RowAndColumn(x: nat, y: nat)
    requires x < 5 && y < 5
    ensures 5 * x + y < 25 && Row(5 * x + y) == x && Mod5(5 * x + y) == y
  {
  }

  /** The rotation of the lane at column x and row y, at index 5 * x + y. */
  const OFFSETS: seq<nat> := [0, 36, 3, 41, 18, 1, 44, 10, 45, 2, 62, 6, 43, 15, 61, 28, 55, 25, 21, 56, 27, 20, 39, 8, 14]

  function Offset(col: nat, row: nat): (r: nat)
    requires col < 5 && row < 5
    ensures r < 64
  {
    assert forall i :: 0 <= i < 25 ==> OFFSETS[i] < 64;
    OFFSETS[5 * col + row]
  }

  function Rho(s: State): (r: State)
    ensures forall i :: 0 <= i < 25 ==> r[i] == RotLane(s[i], Offset(Mod5(i), Row(i)))
  {
    seq(25, i requires 0 <= i < 25 => RotLane(s[i], Offset(Mod5(i), Row(i))))
  }

  function PiLane(s: State, row: nat, col: nat): Lane
    requires row < 5 && col < 5
  {
    LaneAt(s, col, Mod5(col + 3 * row))
  }

  /** FIPS 202's pi: the lane at column x and row y comes from column x + 3y and row x. */
  function Pi(s: State): (r: State)
    ensures forall i :: 0 <= i < 25 ==> r[i] == PiLane(s, Row(i), Mod5(i))
  {
    seq(25, i requires 0 <= i < 25 => PiLane(s, Row(i), Mod5(i)))
  }

  function PiRhoLane(s: State, x: nat, y: nat): Lane
    requires x < 5 && y < 5
  {
    RotLane(LaneAt(s, y, Mod5(3 * x + y)), Offset(Mod5(3 * x + y), y))
  }

  /** Both at once, as the round reads its lanes: row x, column y of the result is row y, column 3x + y. */
  function PiRho(s: State): (r: State)
    ensures forall i :: 0 <= i < 25 ==> r[i] == PiRhoLane(s, Row(i), Mod5(i))
  {
    seq(25, i requires 0 <= i < 25 => PiRhoLane(s, Row(i), Mod5(i)))
  }

  /** The row that pi takes to row y, column 3x + y, is x. */
  function FromRow(row: nat, col: nat): (x: nat)
    requires row < 5 && col < 5
    ensures x < 5 && Mod5(3 * x + row) == col
  {
    Mod5(2 * (col - row))
  }

  function InversePiRhoLane(s: State, row: nat, col: nat): Lane
    requires row < 5 && col < 5
  {
    RotLane(LaneAt(s, FromRow(row, col), row), 64 - Offset(col, row))
  }

  function InversePiRho(s: State): (r: State)
    ensures forall i :: 0 <= i < 25 ==> r[i] == InversePiRhoLane(s, Row(i), Mod5(i))
  {
    seq(25, i requires 0 <= i < 25 => InversePiRhoLane(s, Row(i), Mod5(i)))
  }

  lemma FromRowUnique(x: nat, y: nat)
    requires x < 5 && y < 5
    ensures FromRow(y, Mod5(3 * x + y)) == x
  {
  }

  lemma PiRhoAt(s: State, x: nat, y: nat)
    requires x < 5 && y < 5
    ensures LaneAt(PiRho(s), x, y) == PiRhoLane(s, x, y) && LaneAt(InversePiRho(s), x, y) == InversePiRhoLane(s, x, y)
    ensures LaneAt(Pi(s), x, y) == PiLane(s, x, y) && LaneAt(Rho(s), x, y) == RotLane(LaneAt(s, x, y), Offset(y, x))
  {
    hide Mod5, Row, PiRhoLane, InversePiRhoLane, PiLane, Offset;
    RowAndColumn(x, y);
  }

  lemma SameLanes(a: State, b: State)
    requires forall x, y :: 0 <= x < 5 && 0 <= y < 5 ==> LaneAt(a, x, y) == LaneAt(b, x, y)
    ensures a == b
  {
    forall i | 0 <= i < 25
      ensures a[i] == b[i]
    {
      assert LaneAt(a, i / 5, i % 5) == LaneAt(b, i / 5, i % 5);
    }
  }

  lemma PiRhoFrom(s: State, x: nat, y: nat, c: nat)
    requires x < 5 && y < 5 && c == Mod5(3 * x + y)
    ensures LaneAt(PiRho(s), x, y) == RotLane(LaneAt(s, y, c), Offset(c, y))
  {
    hide Mod5, Offset, LaneAt, RotLane, PiRho;
    PiRhoAt(s, x, y);
  }

  lemma InversePiRhoFrom(s: State, row: nat, col: nat, f: nat)
    requires row < 5 && col < 5 && f == FromRow(row, col)
    ensures LaneAt(InversePiRho(s), row, col) == RotLane(LaneAt(s, f, row), 64 - Offset(col, row))
  {
    hide FromRow, Offset, LaneAt, RotLane, InversePiRho;
    PiRhoAt(s, row, col);
  }

  lemma PiRhoBack(s: State, x: nat, y: nat)
    requires x < 5 && y < 5
    ensures LaneAt(InversePiRho(PiRho(s)), x, y) == LaneAt(s, x, y)
  {
    hide *;
    var f := FromRow(x, y);
    InversePiRhoFrom(PiRho(s), x, y, f);
    PiRhoFrom(s, f, x, y);
    RotBack(LaneAt(s, x, y), Offset(y, x), 64 - Offset(y, x));
  }

  lemma PiRhoForth(s: State, x: nat, y: nat)
    requires x < 5 && y < 5
    ensures LaneAt(PiRho(InversePiRho(s)), x, y) == LaneAt(s, x, y)
  {
    hide *;
    var c := Mod5(3 * x + y);
    FromRowUnique(x, y);
    PiRhoFrom(InversePiRho(s), x, y, c);
    InversePiRhoFrom(s, y, c, x);
    RotBack(LaneAt(s, x, y), 64 - Offset(c, y), Offset(c, y));
  }

  lemma PiRhoInverse(s: State)
    ensures InversePiRho(PiRho(s)) == s && PiRho(InversePiRho(s)) == s
  {
    hide *;
    forall x, y | 0 <= x < 5 && 0 <= y < 5
      ensures LaneAt(InversePiRho(PiRho(s)), x, y) == LaneAt(s, x, y) && LaneAt(PiRho(InversePiRho(s)), x, y) == LaneAt(s, x, y)
    {
      PiRhoBack(s, x, y);
      PiRhoForth(s, x, y);
    }
    SameLanes(InversePiRho(PiRho(s)), s);
    SameLanes(PiRho(InversePiRho(s)), s);
  }

  lemma PiRhoIsPiAfterRho(s: State)
    ensures PiRho(s) == Pi(Rho(s))
  {
    hide RotLane, Mod5, Offset, PiRho, Pi, Rho, LaneAt;
    forall x, y | 0 <= x < 5 && 0 <= y < 5
      ensures LaneAt(PiRho(s), x, y) == LaneAt(Pi(Rho(s)), x, y)
    {
      PiRhoAt(s, x, y);
      PiRhoAt(Rho(s), x, y);
      PiRhoAt(s, y, Mod5(3 * x + y));
      assert y + 3 * x == 3 * x + y;
    }
    SameLanes(PiRho(s), Pi(Rho(s)));
  }

  // ---- chi -----------------------------------------------------------------

  /** One output bit of chi from the bits at columns y, y + 1 and y + 2 of a row. */
  function ChiBit(a: bool, b: bool, c: bool): bool { a != (!b && c) }

  function ChiLane(a: Lane, b: Lane, c: Lane): (r: Lane)
    ensures forall z :: 0 <= z < 64 ==> r[z] == ChiBit(a[z], b[z], c[z])
  {
    AddLane(MulLane(AddLane(b, OneLane()), c), a)
  }

  function ChiAt(s: State, x: nat, y: nat): Lane
    requires x < 5 && y < 5
  {
    ChiLane(LaneAt(s, x, y), LaneAt(s, x, Mod5(y + 1)), LaneAt(s, x, Mod5(y + 2)))
  }

  function Chi(s: State): (r: State)
    ensures forall i :: 0 <= i < 25 ==> r[i] == ChiAt(s, Row(i), Mod5(i))
  {
    seq(25, i requires 0 <= i < 25 => ChiAt(s, Row(i), Mod5(i)))
  }

  function Add3(a: Lane, b: Lane, c: Lane): Lane { AddLane(AddLane(a, b), c) }

  function Sum7(a: Lane, b: Lane, c: Lane, d: Lane, e: Lane, f: Lane, g: Lane): Lane
  {
    AddLane(AddLane(AddLane(AddLane(Add3(a, b, c), d), e), f), g)
  }

  /** The five degree-3 polynomials that invert chi on a row, monomial by monomial. */
  function UnchiLane(a: Lane, b: Lane, c: Lane, d: Lane, e: Lane, y: nat): Lane
    requires y < 5
  {
    if y == 0 then Sum7(a, c, e, MulLane(b, c), MulLane(b, e), MulLane(d, e), MulLane(MulLane(b, d), e))
    else if y == 1 then Sum7(a, b, d, MulLane(a, c), MulLane(a, e), MulLane(c, d), MulLane(MulLane(a, c), e))
    else if y == 2 then Sum7(b, c, e, MulLane(a, b), MulLane(b, d), MulLane(d, e), MulLane(MulLane(a, b), d))
    else if y == 3 then Sum7(a, c, d, MulLane(a, e), MulLane(b, c), MulLane(c, e), MulLane(MulLane(b, c), e))
    else Sum7(b, d, e, MulLane(a, b), MulLane(a, d), MulLane(c, d), MulLane(MulLane(a, c), d))
  }

  function UnchiAt(s: State, x: nat, y: nat): Lane
    requires x < 5 && y < 5
  {
    UnchiLane(LaneAt(s, x, 0), LaneAt(s, x, 1), LaneAt(s, x, 2), LaneAt(s, x, 3), LaneAt(s, x, 4), y)
  }

  function InverseChi(s: State): (r: State)
    ensures forall i :: 0 <= i < 25 ==> r[i] == UnchiAt(s, Row(i), Mod5(i))
  {
    seq(25, i requires 0 <= i < 25 => UnchiAt(s, Row(i), Mod5(i)))
  }

  lemma ChiAtRow(s: State, x: nat, y: nat)
    requires x < 5 && y < 5
    ensures LaneAt(Chi(s), x, y) == ChiAt(s, x, y) && LaneAt(InverseChi(s), x, y) == UnchiAt(s, x, y)
  {
    hide Mod5, Row, ChiAt, UnchiAt;
    RowAndColumn(x, y);
  }

  /** The same polynomials on one row of bits. */
  function UnchiBit(a: bool, b: bool, c: bool, d: bool, e: bool, y: nat): bool
    requires y < 5
  {
    if y == 0 then ((((((a != c) != e) != (b && c)) != (b && e)) != (d && e)) != (b && d && e))
    else if y == 1 then ((((((a != b) != d) != (a && c)) != (a && e)) != (c && d)) != (a && c && e))
    else if y == 2 then ((((((b != c) != e) != (a && b)) != (b && d)) != (d && e)) != (a && b && d))
    else if y == 3 then ((((((a != c) != d) != (a && e)) != (b && c)) != (c && e)) != (b && c && e))
    else ((((((b != d) != e) != (a && b)) != (a && d)) != (c && d)) != (a && c && d))
  }

  lemma UnchiLaneBit(a: Lane, b: Lane, c: Lane, d: Lane, e: Lane, y: nat, z: nat)
    requires y < 5 && z < 64
    ensures UnchiLane(a, b, c, d, e, y)[z] == UnchiBit(a[z], b[z], c[z], d[z], e[z], y)
  {
  }

  lemma RowInverse(a: bool, b: bool, c: bool, d: bool, e: bool)
    ensures var a', b', c', d', e' := ChiBit(a, b, c), ChiBit(b, c, d), ChiBit(c, d, e), ChiBit(d, e, a), ChiBit(e, a, b);
            && UnchiBit(a', b', c', d', e', 0) == a && UnchiBit(a', b', c', d', e', 1) == b && UnchiBit(a', b', c', d', e', 2) == c
            && UnchiBit(a', b', c', d', e', 3) == d && UnchiBit(a', b', c', d', e', 4) == e
    ensures var u, v, w, x, y := UnchiBit(a, b, c, d, e, 0), UnchiBit(a, b, c, d, e, 1), UnchiBit(a, b, c, d, e, 2),
                                 UnchiBit(a, b, c, d, e, 3), UnchiBit(a, b, c, d, e, 4);
            ChiBit(u, v, w) == a && ChiBit(v, w, x) == b && ChiBit(w, x, y) == c && ChiBit(x, y, u) == d && ChiBit(y, u, v) == e
  {
  }

  /** Five lanes of one row, bit z. */
  predicate RowIs(s: State, x: nat, z: nat, a: bool, b: bool, c: bool, d: bool, e: bool)
    requires x < 5 && z < 64
  {
    LaneAt(s, x, 0)[z] == a && LaneAt(s, x, 1)[z] == b && LaneAt(s, x, 2)[z] == c && LaneAt(s, x, 3)[z] == d && LaneAt(s, x, 4)[z] == e
  }

  lemma ChiBitAt(s: State, x: nat, y: nat, z: nat, u: nat, v: nat)
    requires x < 5 && y < 5 && z < 64 && u == Mod5(y + 1) && v == Mod5(y + 2)
    ensures ChiAt(s, x, y)[z] == ChiBit(LaneAt(s, x, y)[z], LaneAt(s, x, u)[z], LaneAt(s, x, v)[z])
  {
    hide LaneAt, ChiBit, Mod5;
  }

  lemma ChiAtBit(s: State, x: nat, y: nat, z: nat, u: nat, v: nat)
    requires x < 5 && y < 5 && z < 64 && u == Mod5(y + 1) && v == Mod5(y + 2)
    ensures LaneAt(Chi(s), x, y)[z] == ChiBit(LaneAt(s, x, y)[z], LaneAt(s, x, u)[z], LaneAt(s, x, v)[z])
  {
    hide *;
    ChiAtRow(s, x, y);
    ChiBitAt(s, x, y, z, u, v);
  }

  lemma ChiRow(s: State, x: nat, z: nat, a: bool, b: bool, c: bool, d: bool, e: bool)
    requires x < 5 && z < 64 && RowIs(s, x, z, a, b, c, d, e)
    ensures RowIs(Chi(s), x, z, ChiBit(a, b, c), ChiBit(b, c, d), ChiBit(c, d, e), ChiBit(d, e, a), ChiBit(e, a, b))
  {
    hide Chi, ChiBit, LaneAt, ChiLane, ChiAt;
    ChiAtBit(s, x, 0, z, 1, 2);
    ChiAtBit(s, x, 1, z, 2, 3);
    ChiAtBit(s, x, 2, z, 3, 4);
    ChiAtBit(s, x, 3, z, 4, 0);
    ChiAtBit(s, x, 4, z, 0, 1);
  }

  lemma UnchiRow(s: State, x: nat, z: nat, a: bool, b: bool, c: bool, d: bool, e: bool)
    requires x < 5 && z < 64 && RowIs(s, x, z, a, b, c, d, e)
    ensures RowIs(InverseChi(s), x, z, UnchiBit(a, b, c, d, e, 0), UnchiBit(a, b, c, d, e, 1), UnchiBit(a, b, c, d, e, 2),
                  UnchiBit(a, b, c, d, e, 3), UnchiBit(a, b, c, d, e, 4))
  {
    hide InverseChi, UnchiBit, LaneAt, UnchiLane;
    UnchiAtBit(s, x, 0, z);
    UnchiAtBit(s, x, 1, z);
    UnchiAtBit(s, x, 2, z);
    UnchiAtBit(s, x, 3, z);
    UnchiAtBit(s, x, 4, z);
  }

  lemma UnchiAtBit(s: State, x: nat, y: nat, z: nat)
    requires x < 5 && y < 5 && z < 64
    ensures LaneAt(InverseChi(s), x, y)[z]
         == UnchiBit(LaneAt(s, x, 0)[z], LaneAt(s, x, 1)[z], LaneAt(s, x, 2)[z], LaneAt(s, x, 3)[z], LaneAt(s, x, 4)[z], y)
  {
    hide InverseChi, UnchiBit, LaneAt, UnchiLane;
    ChiAtRow(s, x, y);
    UnchiLaneBit(LaneAt(s, x, 0), LaneAt(s, x, 1), LaneAt(s, x, 2), LaneAt(s, x, 3), LaneAt(s, x, 4), y, z);
  }

  lemma SameRows(s: State, t: State)
    requires forall x, z :: 0 <= x < 5 && 0 <= z < 64 ==>
               RowIs(t, x, z, LaneAt(s, x, 0)[z], LaneAt(s, x, 1)[z], LaneAt(s, x, 2)[z], LaneAt(s, x, 3)[z], LaneAt(s, x, 4)[z])
    ensures s == t
  {
    forall x, y | 0 <= x < 5 && 0 <= y < 5
      ensures LaneAt(s, x, y) == LaneAt(t, x, y)
    {
      forall z | 0 <= z < 64
        ensures LaneAt(s, x, y)[z] == LaneAt(t, x, y)[z]
      {
        assert RowIs(t, x, z, LaneAt(s, x, 0)[z], LaneAt(s, x, 1)[z], LaneAt(s, x, 2)[z], LaneAt(s, x, 3)[z], LaneAt(s, x, 4)[z]);
      }
    }
    SameLanes(s, t);
  }

  lemma ChiRowInverse(s: State, x: nat, z: nat)
    requires x < 5 && z < 64
    ensures RowIs(InverseChi(Chi(s)), x, z, LaneAt(s, x, 0)[z], LaneAt(s, x, 1)[z], LaneAt(s, x, 2)[z], LaneAt(s, x, 3)[z], LaneAt(s, x, 4)[z])
    ensures RowIs(Chi(InverseChi(s)), x, z, LaneAt(s, x, 0)[z], LaneAt(s, x, 1)[z], LaneAt(s, x, 2)[z], LaneAt(s, x, 3)[z], LaneAt(s, x, 4)[z])
  {
    var a, b, c, d, e := LaneAt(s, x, 0)[z], LaneAt(s, x, 1)[z], LaneAt(s, x, 2)[z], LaneAt(s, x, 3)[z], LaneAt(s, x, 4)[z];
    hide Chi, InverseChi, ChiBit, UnchiBit, LaneAt;
    RowInverse(a, b, c, d, e);
    ChiRow(s, x, z, a, b, c, d, e);
    UnchiRow(Chi(s), x, z, ChiBit(a, b, c), ChiBit(b, c, d), ChiBit(c, d, e), ChiBit(d, e, a), ChiBit(e, a, b));
    UnchiRow(s, x, z, a, b, c, d, e);
    ChiRow(InverseChi(s), x, z, UnchiBit(a, b, c, d, e, 0), UnchiBit(a, b, c, d, e, 1), UnchiBit(a, b, c, d, e, 2),
           UnchiBit(a, b, c, d, e, 3), UnchiBit(a, b, c, d, e, 4));
  }

  /** The degree-3 polynomials invert chi, from either side. */
  lemma ChiInverse(s: State)
    ensures InverseChi(Chi(s)) == s && Chi(InverseChi(s)) == s
  {
    hide *;
    forall x, z | 0 <= x < 5 && 0 <= z < 64
      ensures RowIs(InverseChi(Chi(s)), x, z, LaneAt(s, x, 0)[z], LaneAt(s, x, 1)[z], LaneAt(s, x, 2)[z], LaneAt(s, x, 3)[z], LaneAt(s, x, 4)[z])
      ensures RowIs(Chi(InverseChi(s)), x, z, LaneAt(s, x, 0)[z], LaneAt(s, x, 1)[z], LaneAt(s, x, 2)[z], LaneAt(s, x, 3)[z], LaneAt(s, x, 4)[z])
    {
      ChiRowInverse(s, x, z);
    }
    SameRows(s, InverseChi(Chi(s)));
    SameRows(s, Chi(InverseChi(s)));
  }

  // ---- the round -----------------------------------------------------------

  const CONSTANTS: seq<nat> := [
    0x0000000000000001, 0x0000000000008082, 0x800000000000808A, 0x8000000080008000, 0x000000000000808B, 0x0000000080000001,
    0x8000000080008081, 0x8000000000008009, 0x000000000000008A, 0x0000000000000088, 0x0000000080008009, 0x000000008000000A,
    0x000000008000808B, 0x800000000000008B, 0x8000000000008089, 0x8000000000008003, 0x8000000000008002, 0x8000000000000080,
    0x000000000000800A, 0x800000008000000A, 0x8000000080008081, 0x8000000000008080, 0x0000000080000001, 0x8000000080008008]

  function RoundConstant(round: nat): Lane
    requires round < 24
  {
    FromNat(CONSTANTS[round], 64)
  }

  function Iota(s: State, round: nat): State
    requires round < 24
  {
    s[0 := AddLane(s[0], RoundConstant(round))]
  }

  function Forward(s: State, round: nat): State
    requires round < 24
  {
    Iota(Chi(PiRho(Theta(s))), round)
  }

  function Backward(s: State, round: nat): State
    requires round < 24
  {
    InverseTheta(InversePiRho(InverseChi(Iota(s, round))))
  }

  lemma IotaTwice(s: State, round: nat)
    requires round < 24
    ensures Iota(Iota(s, round), round) == s
  {
    hide RoundConstant;
    AddLaneGroup(s[0], RoundConstant(round));
  }

  /** The backward round undoes the forward round of the same index on every state, and is undone by it. */
  lemma RoundInverse(s: State, round: nat)
    requires round < 24
    ensures Backward(Forward(s, round), round) == s && Forward(Backward(s, round), round) == s
  {
    hide Theta, InverseTheta, PiRho, InversePiRho, Chi, InverseChi, Iota;
    var t := Theta(s);
    IotaTwice(Chi(PiRho(t)), round);
    ChiInverse(PiRho(t));
    PiRhoInverse(t);
    ThetaInverse(s);
    var u := Iota(s, round);
    var v := InverseChi(u);
    ThetaInverse(InversePiRho(v));
    PiRhoInverse(v);
    ChiInverse(u);
    IotaTwice(s, round);
  }

  /** The fused forward round is the composition of the five step mappings. */
  lemma ForwardIsRnd(s: State, round: nat)
    requires round < 24
    ensures Forward(s, round) == Iota(Chi(Pi(Rho(Theta(s)))), round)
  {
    hide Theta, PiRho, Pi, Rho, Chi, Iota;
    PiRhoIsPiAfterRho(Theta(s));
  }

  // ---- the offsets of rho --------------------------------------------------

  /** Column and row visited at step t of the walk that defines rho's offsets. */
  function Walk(t: nat): (p: (nat, nat))
    ensures p.0 < 5 && p.1 < 5
  {
    if t == 0 then (1, 0) else (Walk(t - 1).1, Mod5(2 * Walk(t - 1).0 + 3 * Walk(t - 1).1))
  }

  predicate OffsetOk(t: nat)
  {
    Offset(Walk(t).0, Walk(t).1) == (t + 1) * (t + 2) / 2 % 64
  }

  /** One step of the walk from a known place, and the offset found there. */
  lemma WalkStep(t: nat, x: nat, y: nat)
    requires x < 5 && y < 5 && Walk(t) == (x, y) && OFFSETS[5 * x + y] == (t + 1) * (t + 2) / 2 % 64
    ensures Walk(t + 1) == (y, (2 * x + 3 * y) % 5) && OffsetOk(t)
  {
  }

  lemma WalkStart()
    ensures Walk(0) == (1, 0)
  {
  }

  /** The offset table is FIPS 202's: the lane visited at step t is rotated by (t + 1)(t + 2) / 2. */
  lemma OffsetsAreTriangular(t: nat)
    requires t < 24
    ensures OffsetOk(t)
  {
    hide Walk, OffsetOk;
    WalkStart();
    WalkStep(0, 1, 0);
    WalkStep(1, 0, 2);
    WalkStep(2, 2, 1);
    WalkStep(3, 1, 2);
    WalkStep(4, 2, 3);
    WalkStep(5, 3, 3);
    WalkStep(6, 3, 0);
    WalkStep(7, 0, 1);
    WalkStep(8, 1, 3);
    WalkStep(9, 3, 1);
    WalkStep(10, 1, 4);
    WalkStep(11, 4, 4);
    WalkStep(12, 4, 0);
    WalkStep(13, 0, 3);
    WalkStep(14, 3, 4);
    WalkStep(15, 4, 3);
    WalkStep(16, 3, 2);
    WalkStep(17, 2, 2);
    WalkStep(18, 2, 0);
    WalkStep(19, 0, 4);
    WalkStep(20, 4, 2);
    WalkStep(21, 2, 4);
    WalkStep(22, 4, 1);
    WalkStep(23, 1, 1);
  }
}
