/** Certifying a Keccak-f trace by meeting in the middle: from a state, a few rounds forwards; from the next
    committed state, a few backwards; and equations where they meet. The proof degree fixes the stride. */
module KeccakTrace {
  import opened Words
  import opened Keccak
  import opened KeccakRun

  datatype Degree = D16 | D32 | D64
  {
    function Forwards(): nat { match this case D16 => 4 case D32 => 5 case D64 => 6 }
    function Backwards(): nat { match this case D16 => 2 case D32 => 3 case D64 => 3 }
    function Stride(): nat { Forwards() + Backwards() }
    function Snapshots(): nat { 24 / Stride() }
  }

  lemma StrideIs(d: Degree)
    ensures d.Stride() == d.Forwards() + d.Backwards() && d.Forwards() > 0 && d.Backwards() > 0
  {
  }

  /** n forward rounds, starting with round from. */
  function Rounds(s: State, from: nat, n: nat): State
    requires from + n <= 24
  {
    if n == 0 then s else Forward(Rounds(s, from, n - 1), from + n - 1)
  }

  /** n backward rounds, starting with round last and going down. */
  function BackRounds(s: State, last: nat, n: nat): State
    requires n <= last + 1 && last < 24
  {
    if n == 0 then s else Backward(BackRounds(s, last, n - 1), last - (n - 1))
  }

  lemma {:induction false} RoundsSplit(s: State, from: nat, n: nat, k: nat)
    requires from + n + k <= 24
    ensures Rounds(s, from, n + k) == Rounds(Rounds(s, from, n), from + n, k)
  {
    hide Forward;
    if k > 0 { RoundsSplit(s, from, n, k - 1); }
  }

  lemma NoRounds(s: State, from: nat)
    requires from <= 24
    ensures Rounds(s, from, 0) == s
  {
  }

  /** Going n rounds back from round last undoes the n rounds that end there, and the other way round. */
  lemma {:induction false} BackUndoes(s: State, last: nat, n: nat)
    requires n <= last + 1 && last < 24
    ensures BackRounds(Rounds(s, last + 1 - n, n), last, n) == s
    ensures Rounds(BackRounds(s, last, n), last + 1 - n, n) == s
    decreases n
  {
    hide Forward, Backward;
    if n > 0 {
      var from := last + 1 - n;
      var t := Forward(s, from);
      RoundInverse(s, from);
      RoundsSplit(s, from, 1, n - 1);
      assert Rounds(s, from, 1) == Forward(Rounds(s, from, 0), from);
      BackUndoes(t, last, n - 1);
      assert BackRounds(Rounds(s, from, n), last, n) == Backward(BackRounds(Rounds(t, from + 1, n - 1), last, n - 1), from);
      var u := BackRounds(s, last, n - 1);
      RoundInverse(u, from);
      var v := Backward(u, from);
      RoundsSplit(v, from, 1, n - 1);
      assert Rounds(v, from, 1) == Forward(Rounds(v, from, 0), from);
      BackUndoes(s, last, n - 1);
    }
  }

  /** The meeting equations hold iff the new state is the image of the old one under all the rounds between. */
  lemma MeetsIffImage(s: State, t: State, from: nat, f: nat, b: nat)
    requires from + f + b <= 24 && b > 0
    ensures Rounds(s, from, f) == BackRounds(t, from + f + b - 1, b) <==> t == Rounds(s, from, f + b)
  {
    hide *;
    var last := from + f + b - 1;
    assert last + 1 - b == from + f;
    RoundsSplit(s, from, f, b);
    BackUndoes(Rounds(s, from, f), last, b);
    BackUndoes(t, last, b);
  }

  // ---- bits ----------------------------------------------------------------

  function Flat(s: State): (b: Bits)
    ensures |b| == 1600 && forall i :: 0 <= i < 1600 ==> b[i] == s[i / 64][i % 64]
  {
    seq(1600, i requires 0 <= i < 1600 => s[i / 64][i % 64])
  }

  function LanesOf(b: Bits): (s: State)
    requires |b| == 1600
    ensures forall k :: 0 <= k < 25 ==> s[k] == b[64 * k..64 * k + 64]
  {
    seq(25, k requires 0 <= k < 25 => b[64 * k..64 * k + 64])
  }

  lemma FlatOfLanes(b: Bits)
    requires |b| == 1600
    ensures Flat(LanesOf(b)) == b
  {
    forall i | 0 <= i < 1600
      ensures Flat(LanesOf(b))[i] == b[i]
    {
      assert LanesOf(b)[i / 64] == b[64 * (i / 64)..64 * (i / 64) + 64];
    }
  }

  lemma FlatInjective(s: State, t: State)
    requires Flat(s) == Flat(t)
    ensures s == t
  {
    forall k | 0 <= k < 25
      ensures s[k] == t[k]
    {
      forall z | 0 <= z < 64
        ensures s[k][z] == t[k][z]
      {
        assert (64 * k + z) / 64 == k && (64 * k + z) % 64 == z;
        assert Flat(s)[64 * k + z] == Flat(t)[64 * k + z];
      }
    }
  }

  /** The number of rounds in j strides. */
  function At(d: Degree, j: nat): nat { d.Stride() * j }

  lemma AtSteps(d: Degree, j: nat)
    ensures At(d, 0) == 0 && At(d, j + 1) == At(d, j) + d.Stride()
    ensures j <= d.Snapshots() ==> At(d, j) <= 24
    ensures d.D64? ==> At(d, d.Snapshots()) == 18 && d.Snapshots() == 2 && Committed(d) == 3
    ensures !d.D64? ==> At(d, d.Snapshots()) == 24 && Committed(d) == d.Snapshots()
  {
  }

  /** The state after the first j strides, as committed. At degree 64 the last stretch is shorter and only
      keep bits of it are. */
  function Snapshot(d: Degree, s: State, keep: nat, j: nat): Bits
    requires j < d.Snapshots() + (if d.D64? then 1 else 0) && keep <= 1600
  {
    AtSteps(d, j + 1);
    if d.D64? && j == 2 then Flat(Rounds(s, 0, 24))[..keep] else Flat(Rounds(s, 0, At(d, j + 1)))
  }

  function Trace(d: Degree, s: State, keep: nat, j: nat): Bits
    requires j <= d.Snapshots() + (if d.D64? then 1 else 0) && keep <= 1600
  {
    if j == 0 then [] else Trace(d, s, keep, j - 1) + Snapshot(d, s, keep, j - 1)
  }

  function Committed(d: Degree): nat { d.Snapshots() + if d.D64? then 1 else 0 }

  lemma {:induction false} TraceLength(d: Degree, s: State, keep: nat, j: nat)
    requires j <= Committed(d) && keep <= 1600
    ensures |Trace(d, s, keep, j)| == if d.D64? && j == 3 then 3200 + keep else 1600 * j
  {
    hide Rounds;
    if j > 0 { TraceLength(d, s, keep, j - 1); }
  }

  /** A snapshot is due after every Stride-th round. */
  predicate Due(d: Degree, round: nat) { round % d.Stride() == d.Stride() - 1 }

  /** The snapshots taken in the first n rounds. */
  function Taken(d: Degree, n: nat): nat { n / d.Stride() }

  lemma NextRound(d: Degree, round: nat)
    requires round < 24
    ensures Taken(d, 0) == 0 && Taken(d, round) <= d.Snapshots() <= Committed(d) && Committed(d) > 0 && Taken(d, 24) == d.Snapshots()
    ensures Due(d, round) ==> Taken(d, round + 1) == Taken(d, round) + 1 && At(d, Taken(d, round) + 1) == round + 1 && Taken(d, round) < d.Snapshots()
    ensures !Due(d, round) ==> Taken(d, round + 1) == Taken(d, round)
  {
    match d
    case D16 => assert d.Stride() == 6;
    case D32 => assert d.Stride() == 8;
    case D64 => assert d.Stride() == 9;
  }

  lemma NotLast(d: Degree, j: nat)
    requires j < d.Snapshots()
    ensures !(d.D64? && j == 2)
  {
  }

  lemma OneRound(s: State, round: nat)
    requires round < 24
    ensures Rounds(s, 0, round + 1) == Forward(Rounds(s, 0, round), round)
  {
    hide Forward;
  }

  // ---- the two contexts ----------------------------------------------------

  /** Witness generation: every committed bit is appended. */
  class NativeContext {
    const degree: Degree
    var committed: Bits

    constructor (degree: Degree)
      ensures this.degree == degree && committed == []
    {
      this.degree := degree;
      committed := [];
    }

    method Permute(s: State, keep: nat) returns (r: Bits)
      requires keep <= 1600
      modifies this
      ensures committed == old(committed) + Trace(degree, s, keep, Committed(degree))
      ensures r == if degree.D64? then Flat(Rounds(s, 0, 24))[..keep] else Flat(Rounds(s, 0, 24))
    {
      hide *;
      var state := s;
      NoRounds(s, 0);
      NextRound(degree, 0);
      TraceGrows(degree, s, keep, 0);
      for round := 0 to 24
        invariant state == Rounds(s, 0, round)
        invariant Taken(degree, round) <= degree.Snapshots() <= Committed(degree)
        invariant committed == old(committed) + Trace(degree, s, keep, Taken(degree, round))
      {
        NextRound(degree, round);
        OneRound(s, round);
        state := Forward(state, round);
        if Due(degree, round) {
          NotLast(degree, Taken(degree, round));
          TraceGrows(degree, s, keep, Taken(degree, round));
          committed := committed + Flat(state);
        }
      }
      NextRound(degree, 23);
      AtSteps(degree, degree.Snapshots());
      if degree.D64? {
        TraceGrows(degree, s, keep, 2);
        r := Flat(state)[..keep];
        committed := committed + r;
      } else {
        r := Flat(state);
      }
    }
  }

  /** Evaluation on committed bits: holds is the conjunction of all constraints so far. */
  class AuthContext {
    const degree: Degree
    const committed: Bits
    var cursor: nat
    var constraints: nat
    var holds: bool

    constructor (degree: Degree, committed: Bits, cursor: nat)
      ensures this.degree == degree && this.committed == committed && this.cursor == cursor && constraints == 0 && holds
    {
      this.degree, this.committed, this.cursor := degree, committed, cursor;
      constraints, holds := 0, true;
    }

    method Allocate() returns (b: bool)
      requires cursor < |committed|
      modifies this`cursor
      ensures b == committed[old(cursor)] && cursor == old(cursor) + 1
    {
      b := committed[cursor];
      cursor := cursor + 1;
    }

    method Zero(b: bool)
      modifies this`constraints, this`holds
      ensures holds == (old(holds) && !b) && constraints == old(constraints) + 1
    {
      holds := holds && !b;
      constraints := constraints + 1;
    }

    method AllocateBits(n: nat) returns (bits: Bits)
      requires cursor + n <= |committed|
      modifies this`cursor
      ensures cursor == old(cursor) + n && bits == committed[old(cursor)..cursor]
    {
      bits := [];
      for i := 0 to n
        invariant cursor == old(cursor) + i && bits == committed[old(cursor)..cursor]
      {
        var b := Allocate();
        bits := bits + [b];
      }
    }

    method AllocateState() returns (s: State)
      requires cursor + 1600 <= |committed|
      modifies this`cursor
      ensures cursor == old(cursor) + 1600 && s == LanesOf(committed[old(cursor)..cursor])
    {
      var bits := AllocateBits(1600);
      s := LanesOf(bits);
    }

    /** One constraint per bit: the first n bits of a and b agree. */
    method ZeroDifference(a: Bits, b: Bits, n: nat)
      requires n <= |a| && n <= |b|
      modifies this`constraints, this`holds
      ensures holds <==> old(holds) && a[..n] == b[..n]
      ensures constraints == old(constraints) + n
    {
      for i := 0 to n
        invariant holds <==> old(holds) && a[..i] == b[..i]
        invariant constraints == old(constraints) + i
      {
        assert a[..i + 1] == a[..i] + [a[i]] && b[..i + 1] == b[..i] + [b[i]];
        Zero(a[i] != b[i]);
      }
    }

    /** n forward rounds through a chain of buffers. */
    method RunForward(s: State, from: nat, n: nat, bits: nat) returns (out: State)
      requires from + n <= 24 && n > 0 && bits > 0
      ensures forall i :: 0 <= i < 25 && 64 * i < bits ==> out[i] == Rounds(s, from, n)[i]
    {
      hide Forward, Theta;
      var cur := new Lane[25](i requires 0 <= i < 25 => s[i]);
      assert cur[..] == s;
      for k := 0 to n
        invariant cur.Length == 25 && fresh(cur)
        invariant k < n ==> cur[..] == Rounds(s, from, k)
        invariant k == n ==> forall i :: 0 <= i < 25 && 64 * i < bits ==> cur[i] == Rounds(s, from, n)[i]
      {
        var next := new Lane[25];
        KeccakForward(cur, from + k, next, if k + 1 == n then bits else 1600);
        cur := next;
      }
      out := cur[..];
    }

    method RunBackward(s: State, last: nat, n: nat) returns (out: State)
      requires n <= last + 1 && last < 24
      ensures out == BackRounds(s, last, n)
    {
      hide Backward, Iota;
      var cur := new Lane[25](i requires 0 <= i < 25 => s[i]);
      assert cur[..] == s;
      for k := 0 to n
        invariant cur.Length == 25 && fresh(cur) && cur[..] == BackRounds(s, last, k)
      {
        var next := new Lane[25];
        KeccakBackward(cur, last - k, next);
        cur := next;
      }
      out := cur[..];
    }

    /** Commits the state after round last and constrains its backward image to meet forward. */
    method Meet(forward: State, last: nat) returns (state: State)
      requires last < 24 && degree.Backwards() <= last + 1 && cursor + 1600 <= |committed|
      modifies this
      ensures cursor == old(cursor) + 1600 && state == LanesOf(committed[old(cursor)..cursor])
      ensures holds <==> old(holds) && forward == BackRounds(state, last, degree.Backwards())
      ensures constraints == old(constraints) + 1600
    {
      hide BackRounds, Flat;
      state := AllocateState();
      var back := RunBackward(state, last, degree.Backwards());
      ZeroDifference(Flat(forward), Flat(back), 1600);
      assert Flat(forward)[..1600] == Flat(forward) && Flat(back)[..1600] == Flat(back);
      if Flat(forward) == Flat(back) { FlatInjective(forward, back); }
    }

    /** One stride: accepted iff the committed bits are the state that many rounds on. */
    method Stretch(s: State, round: nat) returns (state: State)
      requires round + degree.Stride() <= 24 && cursor + 1600 <= |committed|
      modifies this
      ensures cursor == old(cursor) + 1600
      ensures var image := Rounds(s, round, degree.Stride());
              (holds <==> old(holds) && committed[old(cursor)..cursor] == Flat(image)) && (holds ==> state == image)
    {
      hide *;
      ghost var image := Rounds(s, round, degree.Stride());
      StrideIs(degree);
      var f := RunForward(s, round, degree.Forwards(), 1600);
      assert f == Rounds(s, round, degree.Forwards());
      state := Meet(f, round + degree.Stride() - 1);
      MeetsIffImage(s, state, round, degree.Forwards(), degree.Backwards());
      FlatOfLanes(committed[old(cursor)..cursor]);
      if Flat(state) == Flat(image) { FlatInjective(state, image); }
    }

    /** The last, shorter stretch at degree 64: only the bits that are kept are committed. */
    method Digest(s: State, keep: nat) returns (bits: Bits)
      requires 0 < keep <= 1600 && cursor + keep <= |committed|
      modifies this
      ensures cursor == old(cursor) + keep && bits == committed[old(cursor)..cursor]
      ensures holds <==> old(holds) && bits == Flat(Rounds(s, 18, 6))[..keep]
    {
      hide Rounds;
      var f := RunForward(s, 18, 6, keep);
      bits := AllocateBits(keep);
      ghost var want := Flat(Rounds(s, 18, 6));
      assert Flat(f)[..keep] == want[..keep] by {
        forall i | 0 <= i < keep
          ensures Flat(f)[i] == want[i]
        {
          assert f[i / 64] == Rounds(s, 18, 6)[i / 64];
        }
      }
      ZeroDifference(Flat(f), bits, keep);
      assert bits[..keep] == bits;
    }

    /** The full strides: the committed states are all true snapshots, or a constraint fails. */
    method Strides(s: State, keep: nat) returns (state: State)
      requires keep <= 1600 && cursor + 1600 * degree.Snapshots() <= |committed|
      modifies this
      ensures At(degree, degree.Snapshots()) <= 24 && cursor == old(cursor) + 1600 * degree.Snapshots()
      ensures holds <==> old(holds) && committed[old(cursor)..cursor] == Trace(degree, s, keep, degree.Snapshots())
      ensures holds ==> state == Rounds(s, 0, At(degree, degree.Snapshots()))
    {
      hide *;
      state := s;
      ghost var at, sound := cursor, holds;
      NoRounds(s, 0);
      AtSteps(degree, 0);
      TraceGrows(degree, s, keep, 0);
      for j := 0 to degree.Snapshots()
        invariant At(degree, j) <= 24 && cursor == at + 1600 * j
        invariant holds <==> sound && committed[at..cursor] == Trace(degree, s, keep, j)
        invariant holds ==> state == Rounds(s, 0, At(degree, j))
      {
        state := OneStride(s, keep, j, at, sound, state);
      }
    }

    /** One stride more: sound says whether the constraints before position at hold. */
    method OneStride(ghost s: State, ghost keep: nat, j: nat, ghost at: nat, ghost sound: bool, before: State) returns (state: State)
      requires keep <= 1600 && j < degree.Snapshots() && At(degree, j) <= 24
      requires cursor == at + 1600 * j && cursor + 1600 <= |committed|
      requires holds <==> sound && committed[at..cursor] == Trace(degree, s, keep, j)
      requires holds ==> before == Rounds(s, 0, At(degree, j))
      modifies this
      ensures At(degree, j + 1) <= 24 && cursor == at + 1600 * (j + 1)
      ensures holds <==> sound && committed[at..cursor] == Trace(degree, s, keep, j + 1)
      ensures holds ==> state == Rounds(s, 0, At(degree, j + 1))
    {
      hide *;
      NextSnapshot(degree, s, keep, j);
      RoundsSplit(s, 0, At(degree, j), degree.Stride());
      state := Stretch(before, At(degree, j));
      Extend(committed, at, old(cursor), cursor, Trace(degree, s, keep, j), Flat(Rounds(s, 0, At(degree, j + 1))));
    }

    /** Accepts exactly the true trace: all constraints hold iff the committed bits are the snapshots of
        Keccak-f on this state, and then the result is its image. */
    method Permute(s: State, keep: nat) returns (r: Bits)
      requires 0 < keep <= 1600
      requires cursor + |Trace(degree, s, keep, Committed(degree))| <= |committed|
      modifies this
      ensures var trace := Trace(degree, s, keep, Committed(degree));
              && cursor == old(cursor) + |trace|
              && (holds <==> old(holds) && committed[old(cursor)..cursor] == trace)
              && (holds ==> r == if degree.D64? then Flat(Rounds(s, 0, 24))[..keep] else Flat(Rounds(s, 0, 24)))
    {
      hide *;
      ghost var at, n := cursor, degree.Snapshots();
      AtSteps(degree, n);
      TraceLength(degree, s, keep, Committed(degree));
      TraceLength(degree, s, keep, n);
      var state := Strides(s, keep);
      if degree.D64? {
        ghost var was := cursor;
        TraceGrows(degree, s, keep, 2);
        RoundsSplit(s, 0, 18, 6);
        r := Digest(state, keep);
        Extend(committed, at, was, cursor, Trace(degree, s, keep, 2), Snapshot(degree, s, keep, 2));
      } else {
        r := Flat(state);
      }
    }
  }

  lemma TraceGrows(d: Degree, s: State, keep: nat, j: nat)
    requires j < Committed(d) && keep <= 1600
    ensures Trace(d, s, keep, 0) == [] && Trace(d, s, keep, j + 1) == Trace(d, s, keep, j) + Snapshot(d, s, keep, j)
    ensures d.D64? && j == 2 ==> Snapshot(d, s, keep, j) == Flat(Rounds(s, 0, 24))[..keep]
    ensures !(d.D64? && j == 2) ==> At(d, j + 1) <= 24 && Snapshot(d, s, keep, j) == Flat(Rounds(s, 0, At(d, j + 1)))
  {
    hide Rounds, Flat;
    AtSteps(d, j + 1);
  }

  /** A full stride adds the state after it to the trace. */
  lemma NextSnapshot(d: Degree, s: State, keep: nat, j: nat)
    requires j < d.Snapshots() && keep <= 1600
    ensures j < Committed(d) && At(d, j + 1) == At(d, j) + d.Stride() <= 24
    ensures Trace(d, s, keep, j + 1) == Trace(d, s, keep, j) + Flat(Rounds(s, 0, At(d, j + 1)))
    ensures |Trace(d, s, keep, j)| == 1600 * j && |Trace(d, s, keep, j + 1)| == 1600 * (j + 1)
  {
    hide Rounds, Flat, Trace;
    AtSteps(d, j);
    AtSteps(d, j + 1);
    TraceGrows(d, s, keep, j);
    TraceLength(d, s, keep, j);
    TraceLength(d, s, keep, j + 1);
  }

  lemma Extend(w: Bits, at: nat, mid: nat, end: nat, a: Bits, b: Bits)
    requires at <= mid <= end <= |w| && |a| == mid - at && |b| == end - mid
    ensures w[at..end] == a + b <==> w[at..mid] == a && w[mid..end] == b
  {
    assert w[at..end] == w[at..mid] + w[mid..end];
    if w[at..end] == a + b {
      assert w[at..mid] == (a + b)[..|a|] && w[mid..end] == (a + b)[|a|..];
    }
  }
}
