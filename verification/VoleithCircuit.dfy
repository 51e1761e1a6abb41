/** The Boolean gadgets of the VOLE-in-the-head statement and its pooled chain part, over an engine that
    either generates the committed bits or checks given ones. */
module VoleithCircuit {
  import opened Words
  import opened Wots
  import opened Schedule
  import opened Voleith

  /** Multiplication commits its result and constrains it; zero constrains a bit. A native engine commits the
      true value, an authenticated one whatever the next offered bit is. */
  class Engine {
    const native: bool
    const offered: nat -> bool
    var committed: Bits
    var constraints: nat
    var holds: bool

    constructor (native: bool, offered: nat -> bool)
      ensures this.native == native && this.offered == offered && committed == [] && constraints == 0 && holds
    {
      this.native, this.offered := native, offered;
      committed, constraints, holds := [], 0, true;
    }

    /** Committed values can be relied on: they were generated here, or the constraints on them hold. */
    ghost predicate Trusted()
      reads this
    {
      native || holds
    }

    /** Constraints that amount to z were added. */
    twostate predicate Added(z: bool)
      reads this
    {
      (holds ==> old(holds) && z) && (native && old(holds) && z ==> holds)
    }

    method Allocate(value: bool) returns (b: bool)
      modifies this`committed
      ensures committed == old(committed) + [b]
      ensures b == if native then value else offered(|old(committed)|)
    {
      b := if native then value else offered(|committed|);
      committed := committed + [b];
    }

    method Zero(b: bool)
      modifies this`constraints, this`holds
      ensures holds == (old(holds) && !b) && constraints == old(constraints) + 1
    {
      holds := holds && !b;
      constraints := constraints + 1;
    }

    method Mul(a: bool, b: bool) returns (c: bool)
      modifies this
      ensures Added(true) && (Trusted() ==> c == (a && b))
    {
      c := Allocate(a && b);
      Zero(c != (a && b));
    }

    /** Commits the bits of a field element given by its bits. */
    method FieldWitness(value: Bits) returns (out: Bits)
      modifies this
      ensures Added(true) && |out| == |value| && (Trusted() ==> out == value)
    {
      out := [];
      for i := 0 to |value|
        invariant holds == old(holds) && |out| == i && (native ==> out == value[..i])
      {
        var b := Allocate(value[i]);
        out := out + [b];
      }
      Zero(out != value);
    }
  }

  // ---- gadgets -------------------------------------------------------------

  method Equal(e: Engine, a: Bits, b: Bits) returns (r: bool)
    requires |a| == |b|
    modifies e
    ensures e.Added(true) && (e.Trusted() ==> r == (a == b))
  {
    if |a| == 0 { return true; }
    r := a[0] == b[0];
    for i := 1 to |a|
      invariant e.Added(true) && (e.Trusted() ==> (r <==> a[..i] == b[..i]))
    {
      assert a[..i + 1] == a[..i] + [a[i]] && b[..i + 1] == b[..i] + [b[i]];
      r := e.Mul(r, a[i] == b[i]);
    }
    assert a[..|a|] == a && b[..|b|] == b;
  }

  lemma LessSnoc(a: Bits, b: Bits, i: nat)
    requires |a| == |b| && i < |a|
    ensures ToNat(a[..i + 1]) < ToNat(b[..i + 1]) <==> (a[i] == b[i] && ToNat(a[..i]) < ToNat(b[..i])) || (!a[i] && b[i])
  {
    assert a[..i + 1] == a[..i] + [a[i]] && b[..i + 1] == b[..i] + [b[i]];
    ToNatSnoc(a[..i], a[i]);
    ToNatSnoc(b[..i], b[i]);
    ToNatBound(a[..i]);
    ToNatBound(b[..i]);
  }

  /** Comparison of unsigned numbers, least significant bit first. */
  method Less(e: Engine, a: Bits, b: Bits) returns (r: bool)
    requires |a| == |b|
    modifies e
    ensures e.Added(true) && (e.Trusted() ==> r == (ToNat(a) < ToNat(b)))
  {
    r := false;
    for i := 0 to |a|
      invariant e.Added(true) && (e.Trusted() ==> r == (ToNat(a[..i]) < ToNat(b[..i])))
    {
      LessSnoc(a, b, i);
      var same := a[i] == b[i];
      var x := e.Mul(same, r);
      var y := e.Mul(!a[i], b[i]);
      r := x != y;
    }
    assert a[..|a|] == a && b[..|b|] == b;
  }

  lemma AddSnoc(a: Bits, b: Bits, out: Bits, carry: bool, i: nat)
    requires |a| == |b| && i < |a| && |out| == i
    requires ToNat(out) + Bit(carry) * Pow2(i) == ToNat(a[..i]) + ToNat(b[..i])
    ensures var o, c := (a[i] != b[i]) != carry, ((a[i] != carry) && (b[i] != carry)) != carry;
            ToNat(out + [o]) + Bit(c) * Pow2(i + 1) == ToNat(a[..i + 1]) + ToNat(b[..i + 1])
  {
    assert a[..i + 1] == a[..i] + [a[i]] && b[..i + 1] == b[..i] + [b[i]];
    ToNatSnoc(a[..i], a[i]);
    ToNatSnoc(b[..i], b[i]);
    ToNatSnoc(out, (a[i] != b[i]) != carry);
    assert Pow2(i + 1) == 2 * Pow2(i);
  }

  /** Addition with a ripple carry; with noOverflow the last carry is constrained away. */
  method AddBits(e: Engine, a: Bits, b: Bits, noOverflow: bool) returns (out: Bits)
    requires |a| == |b|
    modifies e
    ensures |out| == |a| && e.Added(noOverflow ==> ToNat(a) + ToNat(b) < Pow2(|a|))
    ensures e.Trusted() ==> ToNat(out) == (ToNat(a) + ToNat(b)) % Pow2(|a|)
  {
    out := [];
    var carry := false;
    assert Pow2(0) == 1;
    for i := 0 to |a|
      invariant |out| == i && e.Added(true)
      invariant e.Trusted() ==> ToNat(out) + Bit(carry) * Pow2(i) == ToNat(a[..i]) + ToNat(b[..i])
    {
      if e.Trusted() { AddSnoc(a, b, out, carry, i); }
      out := out + [(a[i] != b[i]) != carry];
      var m := e.Mul(a[i] != carry, b[i] != carry);
      carry := m != carry;
    }
    assert a[..|a|] == a && b[..|b|] == b;
    ToNatBound(out);
    if e.Trusted() { CarryIsQuotient(ToNat(out), carry, Pow2(|a|), ToNat(a) + ToNat(b)); }
    if noOverflow { e.Zero(carry); }
  }

  lemma CarryIsQuotient(low: nat, carry: bool, m: nat, total: nat)
    requires low < m && low + Bit(carry) * m == total
    ensures low == total % m && (carry <==> total >= m)
  {
    if carry {
      assert total == m + low;
      assert (m + low) % m == low;
    }
  }

  method Select(e: Engine, flag: bool, yes: Bits, no: Bits) returns (out: Bits)
    requires |yes| == |no|
    modifies e
    ensures |out| == |yes| && e.Added(true) && (e.Trusted() ==> out == if flag then yes else no)
  {
    out := [];
    for i := 0 to |yes|
      invariant |out| == i && e.Added(true) && (e.Trusted() ==> out == if flag then yes[..i] else no[..i])
    {
      var d := e.Mul(flag, yes[i] != no[i]);
      out := out + [no[i] != d];
    }
  }

  /** The number of prefixes below 42 when the lowest `bit` bits are dropped. */
  function Prefixes(bit: nat): nat
    requires bit < 6
  {
    (42 + Pow2(bit) - 1) / Pow2(bit)
  }

  predicate FlagsAt(flags: seq<bool>, index: Bits, bit: nat)
    requires |index| == 8 && bit < 6
  {
    |flags| == Prefixes(bit) && forall i :: 0 <= i < |flags| ==> (flags[i] <==> ToNat(index[bit..6]) == i)
  }

  lemma PrefixSizes()
    ensures Prefixes(5) == 2 && Prefixes(4) == 3 && Prefixes(3) == 6 && Prefixes(2) == 11 && Prefixes(1) == 21 && Prefixes(0) == 42
  {
    assert Pow2(0) == 1 && Pow2(1) == 2 && Pow2(2) == 4 && Pow2(3) == 8 && Pow2(4) == 16 && Pow2(5) == 32;
  }

  lemma PrefixHalves(bit: nat)
    requires bit < 5
    ensures Prefixes(bit) == 2 * Prefixes(bit + 1) || Prefixes(bit) == 2 * Prefixes(bit + 1) - 1
  {
    hide Prefixes;
    PrefixSizes();
    assert bit == 0 || bit == 1 || bit == 2 || bit == 3 || bit == 4;
  }

  /** The one-hot flags of a chain index: the prefix tree shares each product between both children. */
  method ChainFlags(e: Engine, index: Bits) returns (flags: seq<bool>)
    requires |index| == 8
    modifies e
    ensures |flags| == CHAINS && e.Added(!index[6] && !index[7])
    ensures e.Trusted() ==> forall c :: 0 <= c < CHAINS ==> (flags[c] <==> ToNat(index[..6]) == c)
  {
    hide Prefixes, ToNat;
    PrefixSizes();
    e.Zero(index[6]);
    e.Zero(index[7]);
    flags := [!index[5], index[5]];
    TopFlags(index);
    for k := 0 to 5
      invariant e.Added(!index[6] && !index[7]) && |flags| == Prefixes(5 - k)
      invariant e.Trusted() ==> FlagsAt(flags, index, 5 - k)
    {
      var bit := 4 - k;
      PrefixHalves(bit);
      flags := Children(e, flags, index, bit);
    }
    assert index[0..6] == index[..6];
  }

  lemma TopFlags(index: Bits)
    requires |index| == 8
    ensures FlagsAt([!index[5], index[5]], index, 5)
  {
    PrefixSizes();
    assert index[5..6] == [index[5]];
    assert ToNat(index[5..6]) == Bit(index[5]) by { assert index[5..6][1..] == []; }
  }

  method Children(e: Engine, flags: seq<bool>, index: Bits, bit: nat) returns (next: seq<bool>)
    requires |index| == 8 && bit < 5 && |flags| == Prefixes(bit + 1)
    requires Prefixes(bit) == 2 * Prefixes(bit + 1) || Prefixes(bit) == 2 * Prefixes(bit + 1) - 1
    requires e.Trusted() ==> FlagsAt(flags, index, bit + 1)
    modifies e
    ensures |next| == Prefixes(bit) && e.Added(true) && (e.Trusted() ==> FlagsAt(next, index, bit))
  {
    hide Prefixes, ToNat;
    var count := Prefixes(bit);
    ghost var high, x := ToNat(index[bit + 1..6]), index[bit];
    PrefixValue(index, bit);
    next := [];
    for i := 0 to |flags|
      invariant |next| == if 2 * i <= count then 2 * i else count
      invariant e.Added(true)
      invariant e.Trusted() ==> forall k :: 0 <= k < |next| ==> (next[k] <==> 2 * high + Bit(x) == k)
    {
      assert e.Trusted() ==> (flags[i] <==> high == i);
      var one := e.Mul(flags[i], index[bit]);
      next := next + [flags[i] != one];
      if 2 * i + 1 < count {
        next := next + [one];
      }
    }
  }

  lemma PrefixValue(index: Bits, bit: nat)
    requires |index| == 8 && bit < 5
    ensures ToNat(index[bit..6]) == 2 * ToNat(index[bit + 1..6]) + Bit(index[bit])
  {
    assert index[bit..6][1..] == index[bit + 1..6];
  }

  /** The flags add up to one iff some chain is named. */
  method OneNamed(e: Engine, flags: seq<bool>, ghost v: nat)
    requires |flags| == CHAINS && (e.Trusted() ==> forall c :: 0 <= c < CHAINS ==> (flags[c] <==> v == c))
    modifies e
    ensures e.Added(v < CHAINS)
  {
    var sum := false;
    for c := 0 to CHAINS
      invariant e.Trusted() ==> sum == (v < c)
    {
      sum := sum != flags[c];
    }
    e.Zero(!sum);
  }

  /** The sum of flag times value: the named one. */
  method Selected(flags: seq<bool>, xs: seq<Bits>, width: nat, ghost v: nat) returns (x: Bits)
    requires |flags| == |xs| && (forall c :: 0 <= c < |xs| ==> |xs[c]| == width)
    ensures |x| == width
    ensures v < |xs| && (forall c :: 0 <= c < |xs| ==> (flags[c] <==> v == c)) ==> x == xs[v]
  {
    ghost var ok := v < |xs| && forall c :: 0 <= c < |xs| ==> (flags[c] <==> v == c);
    x := Zeros(width);
    for c := 0 to |xs|
      invariant |x| == width
      invariant ok ==> x == if v < c then xs[v] else Zeros(width)
    {
      if flags[c] {
        x := XorBits(x, xs[c]);
      }
    }
  }

  // ---- the pooled chains ---------------------------------------------------

  type NodeBits = b: Bits | |b| == 128 witness seq(128, _ => false)

  /** The wires of the pool: three-bit coordinates, chain starts and claimed ends. */
  datatype Wires = Wires(coords: seq<Bits>, tips: seq<NodeBits>, ends: seq<NodeBits>)
  {
    predicate Sized()
    {
      |coords| == |tips| == |ends| == CHAINS && forall c :: 0 <= c < CHAINS ==> |coords[c]| == 3
    }

    /** The same as numbers and nodes. */
    function Values(): (e: Ends<NodeBits>)
      requires Sized()
      ensures e.Sized() && e.tips == tips && e.ends == ends && forall c :: 0 <= c < CHAINS ==> e.coords[c] == ToNat(coords[c])
    {
      var cs := seq(CHAINS, c requires 0 <= c < CHAINS => ToNat(coords[c]));
      CoordsFit(coords);
      Ends(cs, tips, ends)
    }
  }

  lemma CoordsFit(coords: seq<Bits>)
    requires forall c :: 0 <= c < |coords| ==> |coords[c]| == 3
    ensures forall c :: 0 <= c < |coords| ==> ToNat(coords[c]) <= MAX_STEPS
  {
    assert Pow2(3) == 8;
    forall c | 0 <= c < |coords|
      ensures ToNat(coords[c]) <= MAX_STEPS
    {
      ToNatBound(coords[c]);
    }
  }

  lemma TopBits(index: Bits)
    requires |index| == 8
    ensures ToNat(index[..6]) < 64 && ToNat(index) == ToNat(index[..6]) + 64 * Bit(index[6]) + 128 * Bit(index[7])
  {
    assert Pow2(6) == 64 && Pow2(7) == 128;
    assert index == index[..7] + [index[7]] && index[..7] == index[..6] + [index[6]];
    ToNatSnoc(index[..7], index[7]);
    ToNatSnoc(index[..6], index[6]);
    ToNatBound(index[..6]);
  }

  /** The index names a chain, and its flags are one-hot. */
  method NameChain(e: Engine, index: Bits) returns (flags: seq<bool>)
    requires |index| == 8
    modifies e
    ensures |flags| == CHAINS && e.Added(ToNat(index) < CHAINS)
    ensures e.Trusted() && ToNat(index) < CHAINS ==> forall c :: 0 <= c < CHAINS ==> (flags[c] <==> ToNat(index) == c)
  {
    hide ToNat;
    TopBits(index);
    flags := ChainFlags(e, index);
    OneNamed(e, flags, ToNat(index[..6]));
  }

  lemma Seven(p: Bits)
    requires |p| == 3
    ensures p == [true, true, true] <==> ToNat(p) == MAX_STEPS
  {
    var s: Bits := [true, true, true];
    assert s[1..][1..][1..] == [] && s[1..] == [true, true] && s[1..][1..] == [true];
    assert ToNat(s) == 7;
    if ToNat(p) == 7 { ToNatInjective(p, s); }
  }

  /** Indices do not decrease, and change only once position 7 is reached. */
  method InOrder(e: Engine, first: bool, index: Bits, prevIndex: Bits, prevPos: Bits) returns (same: bool)
    requires |index| == |prevIndex| == 8 && |prevPos| == 3
    modifies e
    ensures e.Trusted() ==> same == (!first && ToNat(index) == ToNat(prevIndex))
    ensures e.Added(first || (ToNat(prevIndex) <= ToNat(index) && (ToNat(index) != ToNat(prevIndex) ==> ToNat(prevPos) == MAX_STEPS)))
  {
    hide ToNat;
    same := false;
    if !first {
      same := Equal(e, index, prevIndex);
      if ToNat(index) == ToNat(prevIndex) { ToNatInjective(index, prevIndex); }
      var less := Less(e, index, prevIndex);
      e.Zero(less);
      Seven(prevPos);
      e.Zero(!same && prevPos != [true, true, true]);
    }
  }

  lemma One3()
    ensures ToNat([true, false, false]) == 1 && Pow2(3) == 8
  {
    var s: Bits := [true, false, false];
    assert s[1..] == [false, false] && s[1..][1..] == [false] && s[1..][1..][1..] == [];
  }

  /** The next position: one more than the last on the same chain, else than the coordinate. */
  method NextPosition(e: Engine, same: bool, prevPos: Bits, coord: Bits, ghost want: nat) returns (pos: Bits)
    requires |prevPos| == |coord| == 3
    requires e.Trusted() ==> want == 1 + if same then ToNat(prevPos) else ToNat(coord)
    modifies e
    ensures |pos| == 3 && e.Added(want <= MAX_STEPS) && (e.Trusted() && want <= MAX_STEPS ==> ToNat(pos) == want)
  {
    hide ToNat, Pow2;
    One3();
    var coordinate := e.FieldWitness(coord);
    var base := Select(e, same, prevPos, coordinate);
    pos := AddBits(e, base, [true, false, false], true);
  }

  /** The chain hash of the selected input, tied to the claimed end at position 7. */
  method NextNode(e: Engine, step: Step<NodeBits>, same: bool, prevOut: NodeBits, tip: NodeBits, end: NodeBits, index: Bits, pos: Bits)
    returns (out: NodeBits)
    requires |index| == 8 && |pos| == 3
    modifies e
    ensures var want := step(if same then prevOut else tip, ToNat(index), ToNat(pos));
            (e.Trusted() ==> out == want) && e.Added(ToNat(pos) == MAX_STEPS ==> want == end)
  {
    hide ToNat;
    var input := e.FieldWitness(if same then prevOut else tip);
    out := step(input, ToNat(index), ToNat(pos));
    Seven(pos);
    var last := Equal(e, pos, [true, true, true]);
    e.Zero(last && out != end);
  }

  predicate Accepted(step: Step<NodeBits>, ends: Ends<NodeBits>, s: seq<nat>)
    requires ends.Sized()
  {
    Valid(s) && forall j :: 0 <= j < |s| ==> StepOk(step, ends, s, j)
  }

  lemma AcceptedValid(step: Step<NodeBits>, ends: Ends<NodeBits>, s: seq<nat>)
    requires ends.Sized()
    ensures Accepted(step, ends, s) ==> Valid(s)
  {
  }

  /** The wires carried from step to step are those of the walk. */
  predicate Carried(step: Step<NodeBits>, ends: Ends<NodeBits>, s: seq<nat>, index: Bits, pos: Bits, out: NodeBits)
    requires ends.Sized()
  {
    Valid(s) && |s| > 0 ==>
      var a := Walk(step, ends, s, |s| - 1);
      ToNat(index) == s[|s| - 1] && ToNat(pos) == a.position && out == a.out
  }

  lemma {:induction false} WalkLocal<N>(step: Step<N>, e: Ends<N>, s: seq<nat>, t: seq<nat>, j: nat)
    requires e.Sized() && Valid(s) && Valid(t) && j < |s| && j < |t| && s[..j + 1] == t[..j + 1]
    ensures Walk(step, e, s, j) == Walk(step, e, t, j)
    decreases j
  {
    assert s[j] == s[..j + 1][j] && t[j] == t[..j + 1][j];
    if j > 0 {
      assert s[j - 1] == s[..j + 1][j - 1] && t[j - 1] == t[..j + 1][j - 1];
      assert s[..j] == s[..j + 1][..j] && t[..j] == t[..j + 1][..j];
      WalkLocal(step, e, s, t, j - 1);
    }
  }

  /** What one more step adds to acceptance, given where the walk stands. */
  lemma AcceptedSnoc(step: Step<NodeBits>, ends: Ends<NodeBits>, s: seq<nat>, v: nat, pos: nat, out: NodeBits)
    requires ends.Sized() && (v < CHAINS && Accepted(step, ends, s) && |s| > 0 ==> Walk(step, ends, s, |s| - 1) == At(pos, out))
    ensures var same := |s| > 0 && v == s[|s| - 1];
            v < CHAINS && Accepted(step, ends, s) ==>
              var p := 1 + if same then pos else ends.coords[v];
              var o := step(if same then out else ends.tips[v], v, p);
              && Valid(s + [v]) && Walk(step, ends, s + [v], |s|) == At(p, o)
              && (Accepted(step, ends, s + [v]) <==>
                    (|s| == 0 || (s[|s| - 1] <= v && (v != s[|s| - 1] ==> pos == MAX_STEPS)))
                    && p <= MAX_STEPS && (p == MAX_STEPS ==> o == ends.ends[v]))
    ensures Accepted(step, ends, s + [v]) ==> v < CHAINS && Accepted(step, ends, s)
  {
    hide StepOk, Walk, Accepted;
    AcceptedSplit(step, ends, s, v);
    AcceptedValid(step, ends, s);
    if v < CHAINS && Accepted(step, ends, s) {
      StepsLocal(step, ends, s, v);
      LastStep(step, ends, s + [v], |s|, pos, out);
    }
  }

  /** A longer schedule is accepted iff the shorter one is and the new step is in order. */
  lemma AcceptedSplit(step: Step<NodeBits>, ends: Ends<NodeBits>, s: seq<nat>, v: nat)
    requires ends.Sized()
    ensures Accepted(step, ends, s + [v]) ==> v < CHAINS && Accepted(step, ends, s)
    ensures v < CHAINS && Accepted(step, ends, s) ==>
              Valid(s + [v]) && (Accepted(step, ends, s + [v]) <==> StepOk(step, ends, s + [v], |s|))
  {
    hide StepOk, Walk;
    ValidSnoc(s, v);
    if v < CHAINS && Valid(s) {
      StepsLocal(step, ends, s, v);
    }
  }

  lemma ValidSnoc(s: seq<nat>, v: nat)
    ensures Valid(s + [v]) <==> Valid(s) && v < CHAINS
  {
    var t := s + [v];
    if Valid(t) {
      assert t[|s|] == v;
      forall j | 0 <= j < |s|
        ensures s[j] < CHAINS
      {
        assert t[j] < CHAINS;
      }
    }
  }

  /** Earlier steps do not see the new one. */
  lemma StepsLocal(step: Step<NodeBits>, ends: Ends<NodeBits>, s: seq<nat>, v: nat)
    requires ends.Sized() && Valid(s) && v < CHAINS
    ensures Valid(s + [v]) && forall j :: 0 <= j < |s| ==> (StepOk(step, ends, s, j) <==> StepOk(step, ends, s + [v], j))
    ensures |s| > 0 ==> Walk(step, ends, s + [v], |s| - 1) == Walk(step, ends, s, |s| - 1)
  {
    hide Walk;
    var t := s + [v];
    forall j | 0 <= j < |s|
      ensures Walk(step, ends, s, j) == Walk(step, ends, t, j)
      ensures StepOk(step, ends, s, j) <==> StepOk(step, ends, t, j)
    {
      assert s[..j + 1] == t[..j + 1];
      WalkLocal(step, ends, s, t, j);
      if j > 0 {
        assert s[..j] == t[..j];
        WalkLocal(step, ends, s, t, j - 1);
      }
    }
  }

  /** The last step's own condition, spelled out. */
  lemma LastStep(step: Step<NodeBits>, ends: Ends<NodeBits>, t: seq<nat>, j: nat, pos: nat, out: NodeBits)
    requires ends.Sized() && Valid(t) && j < |t| && (j > 0 ==> Walk(step, ends, t, j - 1) == At(pos, out))
    ensures var v, same := t[j], j > 0 && t[j] == t[j - 1];
            var p := 1 + if same then pos else ends.coords[v];
            var o := step(if same then out else ends.tips[v], v, p);
            && Walk(step, ends, t, j) == At(p, o)
            && (StepOk(step, ends, t, j) <==>
                  (j == 0 || (t[j - 1] <= v && (v != t[j - 1] ==> pos == MAX_STEPS)))
                  && p <= MAX_STEPS && (p == MAX_STEPS ==> o == ends.ends[v]))
  {
  }

  /** One of the 99 steps. */
  method OneStep(e: Engine, step: Step<NodeBits>, w: Wires, ghost s: seq<nat>, first: bool,
                 index: Bits, prevIndex: Bits, prevPos: Bits, prevOut: NodeBits) returns (pos: Bits, out: NodeBits)
    requires w.Sized() && |index| == |prevIndex| == 8 && |prevPos| == 3 && first == (|s| == 0)
    requires e.holds ==> Accepted(step, w.Values(), s)
    requires e.Trusted() && Accepted(step, w.Values(), s) ==> Carried(step, w.Values(), s, prevIndex, prevPos, prevOut)
    modifies e
    ensures |pos| == 3 && e.Added(Accepted(step, w.Values(), s + [ToNat(index)]))
    ensures e.Trusted() && Accepted(step, w.Values(), s + [ToNat(index)]) ==> Carried(step, w.Values(), s + [ToNat(index)], index, pos, out)
  {
    hide ToNat, Accepted, Walk;
    ghost var ends, v := w.Values(), ToNat(index);
    AcceptedValid(step, ends, s);
    AcceptedValid(step, ends, s + [v]);
    if e.Trusted() { AcceptedSnoc(step, ends, s, v, ToNat(prevPos), prevOut); }
    var flags := NameChain(e, index);
    var same := InOrder(e, first, index, prevIndex, prevPos);
    var tip := Selected(flags, w.tips, 128, v);
    var end := Selected(flags, w.ends, 128, v);
    var coord := Selected(flags, w.coords, 3, v);
    pos := NextPosition(e, same, prevPos, coord, 1 + if same then ToNat(prevPos) else ToNat(coord));
    out := NextNode(e, step, same, prevOut, tip, end, index, pos);
  }

  function Numbers(sched: seq<Bits>): (r: seq<nat>)
    ensures |r| == |sched| && forall j :: 0 <= j < |r| ==> r[j] == ToNat(sched[j])
  {
    seq(|sched|, j requires 0 <= j < |sched| => ToNat(sched[j]))
  }

  /** A coordinate at 7 has its start as its end. */
  method AtSeven(e: Engine, coord: Bits, tip: NodeBits, end: NodeBits)
    requires |coord| == 3
    modifies e
    ensures e.Added(ToNat(coord) == MAX_STEPS ==> tip == end)
  {
    Seven(coord);
    var complete := Equal(e, coord, [true, true, true]);
    e.Zero(complete && tip != end);
  }

  lemma Widen(b: Bits)
    requires |b| == 3
    ensures ToNat(b + Zeros(6)) == ToNat(b)
  {
    ToNatAppend(b, Zeros(6));
    ToNatZeros(6);
  }

  lemma SumSnoc(coords: seq<nat>, i: nat)
    requires i < |coords|
    ensures Sum(coords[..i + 1]) == Sum(coords[..i]) + coords[i]
  {
    assert coords[..i + 1][..i] == coords[..i];
  }

  predicate TipsOk(ends: Ends<NodeBits>, k: nat)
    requires ends.Sized() && k <= CHAINS
  {
    forall c :: 0 <= c < k && ends.coords[c] == MAX_STEPS ==> ends.tips[c] == ends.ends[c]
  }

  /** The coordinates add up to the target, in nine-bit sums; a coordinate at 7 needs no step. */
  method SumCoords(e: Engine, w: Wires)
    requires w.Sized()
    modifies e
    ensures e.Added(TipsOk(w.Values(), CHAINS) && Sum(w.Values().coords) == TARGET_SUM)
  {
    hide ToNat, Sum;
    ghost var ends := w.Values();
    ghost var cs := ends.coords;
    SumStart(cs);
    var total: Bits := Zeros(9);
    ToNatZeros(9);
    for i := 0 to CHAINS
      invariant |total| == 9 && e.Added(TipsOk(ends, i))
      invariant e.Trusted() ==> ToNat(total) == Sum(cs[..i])
    {
      SumSnoc(cs, i);
      SumBound(cs[..i + 1], MAX_STEPS);
      Widen(w.coords[i]);
      NineBits();
      total := AddBits(e, total, w.coords[i] + Zeros(6), false);
      AtSeven(e, w.coords[i], w.tips[i], w.ends[i]);
    }
    assert cs[..CHAINS] == cs;
    Target(total);
    e.Zero(total != FromNat(195, 9));
  }

  lemma SumStart(cs: seq<nat>)
    ensures |cs| >= 0 && Sum(cs[..0]) == 0
  {
  }

  lemma NineBits()
    ensures Pow2(9) == 512
  {
    assert Pow2(3) == 8;
  }

  lemma Target(total: Bits)
    requires |total| == 9
    ensures total == FromNat(195, 9) <==> ToNat(total) == TARGET_SUM
  {
    NineBits();
    FromToNat(195, 9);
    if ToNat(total) == 195 { ToNatInjective(total, FromNat(195, 9)); }
  }

  /** The pooled part of the statement. On any offered bits, if all constraints hold the pool is accepted;
      and a native run on an accepted pool meets all of them. */
  method PoolStatement(e: Engine, step: Step<NodeBits>, w: Wires, sched: seq<Bits>)
    requires w.Sized() && |sched| == SLOTS && forall j :: 0 <= j < SLOTS ==> |sched[j]| == 8
    modifies e
    ensures e.Added(PoolOk(step, w.Values(), Numbers(sched)))
  {
    hide ToNat, Walk, Accepted, StepOk;
    ghost var ends, s := w.Values(), Numbers(sched);
    SumCoords(e, w);
    ghost var sums := TipsOk(ends, CHAINS) && Sum(ends.coords) == TARGET_SUM;
    var prevIndex, prevPos, prevOut := Zeros(8), Zeros(3), Zeros(128);
    NothingYet(step, ends, prevIndex, prevPos, prevOut);
    for j := 0 to SLOTS
      invariant |prevIndex| == 8 && |prevPos| == 3 && |prevOut| == 128
      invariant e.Added(sums && Accepted(step, ends, s[..j]))
      invariant e.Trusted() && Accepted(step, ends, s[..j]) ==> Carried(step, ends, s[..j], prevIndex, prevPos, prevOut)
    {
      assert s[..j + 1] == s[..j] + [ToNat(sched[j])];
      prevPos, prevOut := OneStep(e, step, w, s[..j], j == 0, sched[j], prevIndex, prevPos, prevOut);
      prevIndex := sched[j];
      AcceptedPrefix(step, ends, s[..j + 1], j);
      assert s[..j + 1][..j] == s[..j];
    }
    assert s[..SLOTS] == s;
    Seven(prevPos);
    e.Zero(prevPos != [true, true, true]);
    AcceptedValid(step, ends, s);
    AcceptedAll(step, ends, s);
  }

  lemma NothingYet(step: Step<NodeBits>, ends: Ends<NodeBits>, index: Bits, pos: Bits, out: NodeBits)
    requires ends.Sized()
    ensures Accepted(step, ends, []) && Carried(step, ends, [], index, pos, out)
  {
  }

  lemma AcceptedPrefix(step: Step<NodeBits>, ends: Ends<NodeBits>, s: seq<nat>, k: nat)
    requires ends.Sized() && |s| == k + 1
    ensures Accepted(step, ends, s) ==> Accepted(step, ends, s[..k])
  {
    hide StepOk;
    assert s == s[..k] + [s[k]];
    ValidSnoc(s[..k], s[k]);
    if Accepted(step, ends, s) { StepsLocal(step, ends, s[..k], s[k]); }
  }

  lemma AcceptedAll(step: Step<NodeBits>, ends: Ends<NodeBits>, s: seq<nat>)
    requires ends.Sized() && |s| == SLOTS
    ensures PoolOk(step, ends, s) <==>
              Accepted(step, ends, s) && TipsOk(ends, CHAINS) && Sum(ends.coords) == TARGET_SUM
              && Walk(step, ends, s, SLOTS - 1).position == MAX_STEPS
  {
    hide StepOk, Walk;
  }
}
