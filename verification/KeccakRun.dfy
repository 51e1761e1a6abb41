/** The rounds as the constraint generator runs them, lane by lane in place. */
module KeccakRun {
  import opened Words
  import opened Keccak

  /** Column parities, one lane at a time. */
  method Parities(state: array<Lane>, c: array<Lane>)
    requires state.Length == 25 && c.Length == 5 && state != c
    modifies c
    ensures c[..] == Parity(state[..])
  {
    hide *;
    for x := 0 to 5
      invariant forall i :: 0 <= i < x ==> c[i] == Parity(state[..])[i]
    {
      c[x] := AddLane(state[x], state[5 + x]);
      c[x] := AddLane(c[x], state[10 + x]);
      c[x] := AddLane(c[x], state[15 + x]);
      c[x] := AddLane(c[x], state[20 + x]);
      ParityAt(state[..], x);
    }
  }

  lemma ParityAt(s: State, x: nat)
    requires x < 5
    ensures Parity(s)[x] == AddLane(AddLane(AddLane(AddLane(s[x], s[5 + x]), s[10 + x]), s[15 + x]), s[20 + x])
  {
  }

  /** Which lanes the scattered row and column order of a round has visited before step (x, y). */
  predicate Visited(i: nat, x: nat, y: nat)
    requires i < 25
  {
    var f := FromRow(Row(i), Mod5(i));
    f < x || (f == x && Row(i) < y)
  }

  lemma VisitNext(x: nat, y: nat)
    requires x < 5 && y < 5
    ensures var at := 5 * y + Mod5(3 * x + y);
            at < 25 && Row(at) == y && Mod5(at) == Mod5(3 * x + y) && !Visited(at, x, y)
            && forall i :: 0 <= i < 25 ==> (Visited(i, x, y + 1) <==> Visited(i, x, y) || i == at)
  {
    hide FromRow, Mod5, Row;
    var c := Mod5(3 * x + y);
    var at := 5 * y + c;
    FromRowUnique(x, y);
    RowAndColumn(y, c);
    forall i | 0 <= i < 25
      ensures Visited(i, x, y + 1) <==> Visited(i, x, y) || i == at
    {
      IndexOf(i);
    }
  }

  lemma IndexOf(i: nat)
    requires i < 25
    ensures i == 5 * Row(i) + Mod5(i)
  {
  }

  lemma VisitRow(x: nat)
    ensures forall i :: 0 <= i < 25 ==> (Visited(i, x, 5) <==> Visited(i, x + 1, 0))
    ensures forall i :: 0 <= i < 25 ==> !Visited(i, 0, 0) && Visited(i, 5, 0)
  {
    hide FromRow, Mod5, Row;
  }

  /** The lanes visited so far hold t, the others still s. */
  predicate Blend(o: seq<Lane>, s: State, t: State, x: nat, y: nat)
  {
    |o| == 25 && forall i :: 0 <= i < 25 ==> o[i] == if Visited(i, x, y) then t[i] else s[i]
  }

  lemma BlendStart(s: State, t: State)
    ensures Blend(s, s, t, 0, 0)
  {
    hide Visited;
    VisitRow(0);
  }

  lemma BlendStep(o: seq<Lane>, s: State, t: State, x: nat, y: nat, col: nat)
    requires Blend(o, s, t, x, y) && x < 5 && y < 5 && col == (3 * x + y) % 5
    ensures 5 * y + col < 25 && o[5 * y + col] == s[5 * y + col] && Blend(o[5 * y + col := t[5 * y + col]], s, t, x, y + 1)
  {
    hide Visited, Mod5, Row;
    VisitNext(x, y);
    Mod5Is(3 * x + y);
  }

  lemma BlendRow(o: seq<Lane>, s: State, t: State, x: nat)
    requires Blend(o, s, t, x, 5)
    ensures Blend(o, s, t, x + 1, 0)
  {
    hide Visited;
    VisitRow(x);
  }

  lemma BlendEnd(o: seq<Lane>, s: State, t: State)
    requires Blend(o, s, t, 5, 0)
    ensures o == t
  {
    hide Visited;
    VisitRow(5);
  }

  /** Theta in place: every lane gets the effect of the parities on its column. */
  method ThetaInPlace(state: array<Lane>)
    requires state.Length == 25
    modifies state
    ensures state[..] == Theta(old(state[..]))
  {
    hide *;
    var c, d := new Lane[5], new Lane[5];
    ghost var s: State := state[..];
    Parities(state, c);
    ghost var p := Parity(s);
    for x := 0 to 5
      invariant forall i :: 0 <= i < x ==> d[i] == Effect(p, i)
      invariant state[..] == s && c[..] == p
    {
      var rot := RotLane(c[(x + 1) % 5], 1);
      d[x] := AddLane(c[(x + 4) % 5], rot);
      EffectIs(p, x);
    }
    ghost var t := Theta(s);
    BlendStart(s, t);
    for x := 0 to 5
      invariant Blend(state[..], s, t, x, 0) && forall i :: 0 <= i < 5 ==> d[i] == Effect(p, i)
    {
      var col := (x * 3) % 5;
      for y := 0 to 5
        invariant col == (3 * x + y) % 5
        invariant Blend(state[..], s, t, x, y) && forall i :: 0 <= i < 5 ==> d[i] == Effect(p, i)
      {
        ghost var was := state[..];
        BlendStep(was, s, t, x, y, col);
        ThetaAt(s, y, col);
        state[5 * y + col] := AddLane(state[5 * y + col], d[col]);
        assert state[..] == was[5 * y + col := t[5 * y + col]];
        NextColumn(3 * x + y);
        col := (col + 1) % 5;
      }
      BlendRow(state[..], s, t, x);
    }
    BlendEnd(state[..], s, t);
  }

  lemma Mod5Is(n: nat)
    ensures Mod5(n) == n % 5
  {
  }

  lemma NextColumn(n: nat)
    ensures (n % 5 + 1) % 5 == (n + 1) % 5
  {
  }

  lemma EffectIs(p: Plane, x: nat)
    requires x < 5
    ensures Effect(p, x) == AddLane(p[(x + 4) % 5], RotLane(p[(x + 1) % 5], 1))
  {
    assert Mod5(x - 1) == (x + 4) % 5 && Mod5(x + 1) == (x + 1) % 5;
  }

  lemma ThetaAt(s: State, row: nat, x: nat)
    requires row < 5 && x < 5
    ensures Theta(s)[5 * row + x] == AddLane(s[5 * row + x], Effect(Parity(s), x))
  {
    hide Effect, Parity, AddEffect;
    EffectAt(s, Parity(s), row, x);
  }

  /** pi and rho: row x, column y of b is row y, column 3x + y of the state, rotated. */
  method PiRhoInto(state: array<Lane>, b: array<Lane>)
    requires state.Length == 25 && b.Length == 25 && state != b
    modifies b
    ensures b[..] == PiRho(state[..])
  {
    hide *;
    ghost var s: State := state[..];
    for x := 0 to 5
      invariant forall i :: 0 <= i < 5 * x ==> b[i] == PiRho(s)[i]
    {
      var col := (x * 3) % 5;
      for y := 0 to 5
        invariant col == (3 * x + y) % 5
        invariant forall i :: 0 <= i < 5 * x + y ==> b[i] == PiRho(s)[i]
      {
        PiRhoIs(s, x, y, col);
        b[5 * x + y] := RotLane(state[5 * y + col], OFFSETS[(15 * x + 5 * y + y) % 25]);
        NextColumn(3 * x + y);
        col := (col + 1) % 5;
      }
    }
  }

  /** The table index the round computes is that of the lane it reads. */
  lemma OffsetIndex(x: nat, y: nat, col: nat)
    requires x < 5 && y < 5 && col == (3 * x + y) % 5
    ensures (15 * x + 5 * y + y) % 25 == 5 * col + y
  {
    var q := (3 * x + y) / 5;
    assert 15 * x + 5 * y + y == 25 * q + (5 * col + y);
  }

  lemma PiRhoIs(s: State, x: nat, y: nat, col: nat)
    requires x < 5 && y < 5 && col == (3 * x + y) % 5
    ensures (15 * x + 5 * y + y) % 25 < |OFFSETS|
    ensures PiRho(s)[5 * x + y] == RotLane(s[5 * y + col], OFFSETS[(15 * x + 5 * y + y) % 25])
  {
    hide PiRho, RotLane;
    OffsetIndex(x, y, col);
    PiRhoFrom(s, x, y, col);
    assert Offset(col, y) == OFFSETS[5 * col + y];
  }

  /** One forward round. The input is left with theta applied; lanes past outputBits are not written. */
  method KeccakForward(state: array<Lane>, round: nat, out: array<Lane>, outputBits: nat)
    requires state.Length == 25 && out.Length == 25 && state != out && round < 24 && outputBits > 0
    modifies state, out
    ensures state[..] == Theta(old(state[..]))
    ensures forall i :: 0 <= i < 25 ==>
              out[i] == if 64 * i < outputBits then Forward(old(state[..]), round)[i] else old(out[i])
  {
    hide *;
    ghost var s, o: State := state[..], out[..];
    ThetaInPlace(state);
    var b := new Lane[25];
    PiRhoInto(state, b);
    ghost var t := PiRho(Theta(s));
    ChiInto(b, t, out, outputBits);
    ForwardAt(s, round);
    out[0] := AddLane(out[0], RoundConstant(round));
  }

  lemma ForwardAt(s: State, round: nat)
    requires round < 24
    ensures var c := Chi(PiRho(Theta(s)));
            Forward(s, round) == c[0 := AddLane(c[0], RoundConstant(round))]
  {
  }

  method ChiInto(b: array<Lane>, ghost t: State, out: array<Lane>, outputBits: nat)
    requires b.Length == 25 && out.Length == 25 && b != out && b[..] == t
    modifies out
    ensures forall i :: 0 <= i < 25 ==> out[i] == if 64 * i < outputBits then Chi(t)[i] else old(out[i])
  {
    hide *;
    ghost var o: State := out[..];
    for x := 0 to 5
      invariant forall i :: 0 <= i < 25 ==> out[i] == if i < 5 * x && 64 * i < outputBits then Product(t, i) else o[i]
    {
      for y := 0 to 5
        invariant forall i :: 0 <= i < 25 ==> out[i] == if i < 5 * x + y && 64 * i < outputBits then Product(t, i) else o[i]
      {
        if (x * 5 + y) * 64 < outputBits {
          ProductIs(t, x, y);
          out[5 * x + y] := MulLane(AddLane(b[5 * x + (y + 1) % 5], OneLane()), b[5 * x + (y + 2) % 5]);
        }
      }
    }
    for x := 0 to 5
      invariant forall i :: 0 <= i < 25 ==>
        out[i] == if 64 * i < outputBits then (if i < 5 * x then Chi(t)[i] else Product(t, i)) else o[i]
    {
      for y := 0 to 5
        invariant forall i :: 0 <= i < 25 ==>
          out[i] == if 64 * i < outputBits then (if i < 5 * x + y then Chi(t)[i] else Product(t, i)) else o[i]
      {
        if (x * 5 + y) * 64 < outputBits {
          ProductIs(t, x, y);
          out[5 * x + y] := AddLane(out[5 * x + y], b[5 * x + y]);
        }
      }
    }
  }

  /** The non-linear part of chi. */
  function Product(t: State, i: nat): Lane
    requires i < 25
  {
    MulLane(AddLane(LaneAt(t, Row(i), Mod5(Mod5(i) + 1)), OneLane()), LaneAt(t, Row(i), Mod5(Mod5(i) + 2)))
  }

  lemma ProductIs(t: State, x: nat, y: nat)
    requires x < 5 && y < 5
    ensures Product(t, 5 * x + y) == MulLane(AddLane(t[5 * x + (y + 1) % 5], OneLane()), t[5 * x + (y + 2) % 5])
    ensures Chi(t)[5 * x + y] == AddLane(Product(t, 5 * x + y), t[5 * x + y])
  {
    hide *;
    RowAndColumn(x, y);
    ChiAtRow(t, x, y);
    Mod5Is(y + 1);
    Mod5Is(y + 2);
    ProductLanes(t, x, y, (y + 1) % 5, (y + 2) % 5);
  }

  lemma ProductLanes(t: State, x: nat, y: nat, u: nat, v: nat)
    requires x < 5 && y < 5 && u == Mod5(y + 1) && v == Mod5(y + 2)
    requires Row(5 * x + y) == x && Mod5(5 * x + y) == y
    ensures Product(t, 5 * x + y) == MulLane(AddLane(t[5 * x + u], OneLane()), t[5 * x + v])
    ensures ChiAt(t, x, y) == AddLane(Product(t, 5 * x + y), t[5 * x + y]) && LaneAt(Chi(t), x, y) == Chi(t)[5 * x + y]
  {
    hide AddLane, MulLane, OneLane, Row, Chi, Mod5;
  }

  // ---- backwards -----------------------------------------------------------

  /** Replaces the parities by L^-1 of themselves, one sparse pass after another. */
  method SparsePasses(parity: array<Lane>)
    requires parity.Length == 5
    modifies parity
    ensures parity[..] == PassAll(old(parity[..]), POWERS)
  {
    hide *;
    ghost var p: Plane := parity[..];
    var next := new Lane[5];
    var powers := [1, 2, 4, 8, 16, 32, 128];
    PowersAre(powers);
    PassesSoFar(p, powers, 0);
    for k := 0 to 7
      invariant parity[..] == PassAll(p, powers[..k])
    {
      var shift, rotation := powers[k] % 5, powers[k] % 64;
      ghost var q: Plane := parity[..];
      for x := 0 to 5
        invariant parity[..] == q
        invariant forall i :: 0 <= i < x ==> next[i] == Pass(q, powers[k])[i]
      {
        PassIs(q, powers[k], x);
        next[x] := AddLane(AddLane(parity[x], parity[(x + 5 - shift) % 5]), RotLane(parity[(x + shift) % 5], rotation));
      }
      for x := 0 to 5
        invariant next[..] == Pass(q, powers[k])
        invariant forall i :: 0 <= i < 5 ==> parity[i] == if i < x then next[i] else q[i]
      {
        parity[x] := next[x];
      }
      assert parity[..] == Pass(q, powers[k]);
      PassesSoFar(p, powers, k + 1);
    }
    assert powers[..7] == powers;
  }

  lemma PowersAre(powers: seq<int>)
    requires powers == [1, 2, 4, 8, 16, 32, 128]
    ensures powers == POWERS
  {
  }

  lemma PassesSoFar(p: Plane, powers: seq<int>, k: nat)
    requires k <= |powers|
    ensures k == 0 ==> PassAll(p, powers[..k]) == p
    ensures k > 0 ==> PassAll(p, powers[..k]) == Pass(PassAll(p, powers[..k - 1]), powers[k - 1])
  {
    hide Pass;
    if k > 0 { assert powers[..k][..k - 1] == powers[..k - 1]; }
  }

  lemma PassIs(p: Plane, k: int, x: nat)
    requires x < 5 && k >= 0
    ensures Pass(p, k)[x] == AddLane(AddLane(p[x], p[(x + 5 - k % 5) % 5]), RotLane(p[(x + k % 5) % 5], k % 64))
  {
    hide AddLane, RotLane, Mod5;
    PassColumns(x, k);
    RotReduced(p[Mod5(x + k)], k);
  }

  lemma PassColumns(x: nat, k: int)
    requires x < 5 && k >= 0
    ensures Mod5(x) == x && Mod5(x - k) == (x + 5 - k % 5) % 5 && Mod5(x + k) == (x + k % 5) % 5
  {
    var q, r := k / 5, k % 5;
    assert x - k == 5 * (-q - 1) + (x + 5 - r) && x + k == 5 * q + (x + r);
  }

  lemma RotReduced(a: Lane, k: int)
    ensures RotLane(a, k % 64) == RotLane(a, k)
  {
    forall z | 0 <= z < 64
      ensures RotLane(a, k % 64)[z] == RotLane(a, k)[z]
    {
      assert Mod64(z - k % 64) == Mod64(z - k);
    }
  }

  /** Theta undone in place. */
  method InverseThetaInPlace(state: array<Lane>)
    requires state.Length == 25
    modifies state
    ensures state[..] == InverseTheta(old(state[..]))
  {
    hide *;
    ghost var s: State := state[..];
    var parity := new Lane[5];
    Parities(state, parity);
    SparsePasses(parity);
    ghost var q := PassAll(Parity(s), POWERS);
    for x := 0 to 5
      invariant parity[..] == q
      invariant forall i :: 0 <= i < 25 ==> state[i] == if Mod5(i) < x then InverseTheta(s)[i] else s[i]
    {
      EffectIs(q, x);
      var d := AddLane(parity[(x + 4) % 5], RotLane(parity[(x + 1) % 5], 1));
      for y := 0 to 5
        invariant parity[..] == q
        invariant forall i :: 0 <= i < 25 ==> state[i] == if Mod5(i) < x || (Mod5(i) == x && Row(i) < y) then InverseTheta(s)[i] else s[i]
      {
        RowAndColumn(y, x);
        forall i | 0 <= i < 25
          ensures Mod5(i) == x && Row(i) == y <==> i == 5 * y + x
        {
          IndexOf(i);
        }
        InverseThetaAt(s, y, x);
        state[5 * y + x] := AddLane(state[5 * y + x], d);
      }
    }
  }

  lemma InverseThetaAt(s: State, row: nat, x: nat)
    requires row < 5 && x < 5
    ensures InverseTheta(s)[5 * row + x] == AddLane(s[5 * row + x], Effect(PassAll(Parity(s), POWERS), x))
  {
    hide Effect, Parity, AddEffect, PassAll;
    EffectAt(s, PassAll(Parity(s), POWERS), row, x);
  }

  /** One row of the inverse of chi, with shared products in scratch lanes. */
  method UnchiRow(state: array<Lane>, out: array<Lane>, row: nat)
    requires state.Length == 25 && out.Length == 25 && state != out && row < 5
    modifies out
    ensures forall i :: 0 <= i < 25 ==> out[i] == if 5 * row <= i < 5 * row + 5 then InverseChi(state[..])[i] else old(out[i])
  {
    hide *;
    ghost var s: State := state[..];
    ghost var o: State := out[..];
    var r := 5 * row;
    for y := 0 to 5
      invariant state[..] == s
      invariant forall i :: 0 <= i < 25 ==> out[i] == if r <= i < r + y then InverseChi(s)[i] else o[i]
    {
      ChiAtRow(s, row, y);
      UnchiIs(s, row, y);
      out[r + y] := UnchiLane(state[r], state[r + 1], state[r + 2], state[r + 3], state[r + 4], y);
    }
  }

  lemma UnchiIs(s: State, x: nat, y: nat)
    requires x < 5 && y < 5
    ensures LaneAt(InverseChi(s), x, y) == InverseChi(s)[5 * x + y]
    ensures UnchiAt(s, x, y) == UnchiLane(s[5 * x], s[5 * x + 1], s[5 * x + 2], s[5 * x + 3], s[5 * x + 4], y)
  {
    hide InverseChi, UnchiLane;
  }

  method InversePiRhoInPlace(out: array<Lane>)
    requires out.Length == 25
    modifies out
    ensures out[..] == InversePiRho(old(out[..]))
  {
    hide *;
    ghost var s, t: State := out[..], InversePiRho(out[..]);
    var tmp := new Lane[25];
    for i := 0 to 25
      invariant out[..] == s && forall j :: 0 <= j < i ==> tmp[j] == s[j]
    {
      tmp[i] := out[i];
    }
    BlendStart(s, t);
    for x := 0 to 5
      invariant tmp[..] == s && Blend(out[..], s, t, x, 0)
    {
      var col := (x * 3) % 5;
      for y := 0 to 5
        invariant col == (3 * x + y) % 5 && tmp[..] == s && Blend(out[..], s, t, x, y)
      {
        ghost var was := out[..];
        BlendStep(was, s, t, x, y, col);
        InversePiRhoIs(s, x, y, col);
        var shift: int := OFFSETS[(15 * x + y * 5 + y) % 25];
        out[5 * y + col] := RotLane(tmp[5 * x + y], 64 - shift);
        assert out[..] == was[5 * y + col := t[5 * y + col]];
        NextColumn(3 * x + y);
        col := (col + 1) % 5;
      }
      BlendRow(out[..], s, t, x);
    }
    BlendEnd(out[..], s, t);
  }

  lemma OffsetIs(col: nat, row: nat)
    requires col < 5 && row < 5
    ensures 5 * col + row < |OFFSETS| && Offset(col, row) == OFFSETS[5 * col + row]
  {
  }

  lemma LaneIs(s: State, row: nat, col: nat)
    requires row < 5 && col < 5
    ensures LaneAt(s, row, col) == s[5 * row + col]
  {
  }

  lemma InversePiRhoIs(s: State, x: nat, y: nat, col: nat)
    requires x < 5 && y < 5 && col == (3 * x + y) % 5
    ensures (15 * x + y * 5 + y) % 25 < |OFFSETS|
    ensures InversePiRho(s)[5 * y + col] == RotLane(s[5 * x + y], 64 - (OFFSETS[(15 * x + y * 5 + y) % 25] as int))
  {
    hide *;
    OffsetIndex(x, y, col);
    Mod5Is(3 * x + y);
    FromRowUnique(x, y);
    InversePiRhoFrom(s, y, col, x);
    OffsetIs(col, y);
    LaneIs(s, x, y);
    LaneIs(InversePiRho(s), y, col);
  }

  /** One backward round. The input is left with its round constant added. */
  method KeccakBackward(state: array<Lane>, round: nat, out: array<Lane>)
    requires state.Length == 25 && out.Length == 25 && state != out && round < 24
    modifies state, out
    ensures state[..] == Iota(old(state[..]), round)
    ensures out[..] == Backward(old(state[..]), round)
  {
    hide *;
    ghost var s: State := state[..];
    BackwardIs(s, round);
    state[0] := AddLane(state[0], RoundConstant(round));
    ghost var u := Iota(s, round);
    assert state[..] == u;
    for y := 0 to 5
      invariant state[..] == u
      invariant forall i :: 0 <= i < 5 * y ==> out[i] == InverseChi(u)[i]
    {
      UnchiRow(state, out, y);
    }
    assert out[..] == InverseChi(u);
    InversePiRhoInPlace(out);
    InverseThetaInPlace(out);
  }

  lemma BackwardIs(s: State, round: nat)
    requires round < 24
    ensures Iota(s, round) == s[0 := AddLane(s[0], RoundConstant(round))]
    ensures Backward(s, round) == InverseTheta(InversePiRho(InverseChi(Iota(s, round))))
  {
  }
}
