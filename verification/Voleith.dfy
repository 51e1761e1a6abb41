/** Sorted chain schedules: the 99 steps name their chains in non-decreasing order, a new chain may start
    only when the last one has reached position 7, and the positions fit three bits. */
module Voleith {
  import opened Words
  import opened Wots
  import opened Pool
  import opened Schedule

  /** Coordinates, chain starts and chain ends. */
  datatype Ends<N> = Ends(coords: seq<nat>, tips: seq<N>, ends: seq<N>)
  {
    predicate Sized() { |tips| == |ends| == CHAINS && IsCoords(coords) }
  }

  datatype At<N> = At(position: nat, out: N)

  predicate Valid(s: seq<nat>)
  {
    forall j :: 0 <= j < |s| ==> s[j] < CHAINS
  }

  predicate Same(s: seq<nat>, j: nat)
    requires j < |s|
  {
    j > 0 && s[j] == s[j - 1]
  }

  /** Position and node after step j: it goes on from step j - 1 on the same chain, else from the start. */
  function Walk<N>(step: Step<N>, e: Ends<N>, s: seq<nat>, j: nat): At<N>
    requires e.Sized() && Valid(s) && j < |s|
  {
    var c := s[j];
    var p := (if Same(s, j) then Walk(step, e, s, j - 1).position else e.coords[c]) + 1;
    var x := if Same(s, j) then Walk(step, e, s, j - 1).out else e.tips[c];
    At(p, step(x, c, p))
  }

  /** What the constraints say of step j, given that it names a chain. */
  predicate StepOk<N(==)>(step: Step<N>, e: Ends<N>, s: seq<nat>, j: nat)
    requires e.Sized() && Valid(s) && j < |s|
  {
    var a := Walk(step, e, s, j);
    && (j > 0 ==> s[j - 1] <= s[j])
    && (j > 0 && !Same(s, j) ==> Walk(step, e, s, j - 1).position == MAX_STEPS)
    && a.position <= MAX_STEPS
    && (a.position == MAX_STEPS ==> a.out == e.ends[s[j]])
  }

  predicate PoolOk<N(==)>(step: Step<N>, e: Ends<N>, s: seq<nat>)
    requires e.Sized()
  {
    && |s| == SLOTS && Valid(s) && Sum(e.coords) == TARGET_SUM
    && (forall j :: 0 <= j < SLOTS ==> StepOk(step, e, s, j))
    && Walk(step, e, s, SLOTS - 1).position == MAX_STEPS
    && (forall c :: 0 <= c < CHAINS && e.coords[c] == MAX_STEPS ==> e.tips[c] == e.ends[c])
  }

  predicate EndsAreChains<N(==)>(step: Step<N>, e: Ends<N>)
    requires e.Sized()
  {
    forall c :: 0 <= c < CHAINS ==> e.ends[c] == Iterate(step, e.tips[c], c, e.coords[c], MAX_STEPS - e.coords[c])
  }

  // ---- soundness -----------------------------------------------------------

  /** Chain c is untouched after k steps, or was stepped all the way to its end. */
  predicate Settled<N(==)>(step: Step<N>, e: Ends<N>, s: seq<nat>, c: nat, k: nat)
    requires e.Sized() && c < CHAINS && k <= |s|
  {
    Count(s, c, k) == 0
    || (Count(s, c, k) == MAX_STEPS - e.coords[c] && e.ends[c] == Iterate(step, e.tips[c], c, e.coords[c], MAX_STEPS - e.coords[c]))
  }

  predicate SettledBelow<N(==)>(step: Step<N>, e: Ends<N>, s: seq<nat>, c: nat, k: nat)
    requires e.Sized() && c <= CHAINS && k <= |s|
  {
    forall b :: 0 <= b < c ==> Settled(step, e, s, b, k)
  }

  predicate UntouchedAbove(s: seq<nat>, c: nat, k: nat)
    requires k <= |s|
  {
    forall b :: c < b < CHAINS ==> Count(s, b, k) == 0
  }

  /** After step j the current chain has gone as far as its count says, earlier chains are settled, and
      later ones untouched. */
  predicate Progress<N(==)>(step: Step<N>, e: Ends<N>, s: seq<nat>, j: nat)
    requires e.Sized() && Valid(s) && j < |s|
  {
    var c, a := s[j], Walk(step, e, s, j);
    && a.position == e.coords[c] + Count(s, c, j + 1) <= MAX_STEPS
    && a.out == Iterate(step, e.tips[c], c, e.coords[c], Count(s, c, j + 1))
    && (a.position == MAX_STEPS ==> a.out == e.ends[c])
    && SettledBelow(step, e, s, c, j + 1) && UntouchedAbove(s, c, j + 1)
  }

  lemma {:induction false} NoneYet(s: seq<nat>, c: nat, k: nat)
    requires k <= |s| && forall j :: 0 <= j < k ==> s[j] != c
    ensures Count(s, c, k) == 0
    decreases k
  {
    if k > 0 { NoneYet(s, c, k - 1); }
  }

  lemma SettledStays<N>(step: Step<N>, e: Ends<N>, s: seq<nat>, j: nat)
    requires e.Sized() && Valid(s) && 0 < j < |s| && StepOk(step, e, s, j) && Progress(step, e, s, j - 1)
    ensures SettledBelow(step, e, s, s[j], j + 1) && UntouchedAbove(s, s[j], j + 1)
  {
    var k := j + 1;
    forall b | s[j] < b < CHAINS
      ensures Count(s, b, k) == 0
    {
      assert Count(s, b, k) == Count(s, b, j);
    }
    forall b | 0 <= b < s[j]
      ensures Settled(step, e, s, b, k)
    {
      assert Count(s, b, k) == Count(s, b, j);
      if b < s[j - 1] { assert Settled(step, e, s, b, j); }
    }
  }

  lemma {:induction false} StepsProgress<N>(step: Step<N>, e: Ends<N>, s: seq<nat>, j: nat)
    requires e.Sized() && Valid(s) && j < |s| && forall i :: 0 <= i <= j ==> StepOk(step, e, s, i)
    ensures Progress(step, e, s, j)
  {
    assert StepOk(step, e, s, j);
    if j == 0 {
      forall b | 0 <= b < CHAINS
        ensures Count(s, b, 1) == if b == s[0] then 1 else 0
      {
        assert Count(s, b, 0) == 0;
      }
      assert Iterate(step, e.tips[s[0]], s[0], e.coords[s[0]], 0) == e.tips[s[0]];
    } else {
      StepsProgress(step, e, s, j - 1);
      var c := s[j];
      forall b | 0 <= b < CHAINS
        ensures Count(s, b, j + 1) == Count(s, b, j) + if b == c then 1 else 0
      {
      }
      if !Same(s, j) {
        assert Count(s, c, j) == 0;
        assert Iterate(step, e.tips[c], c, e.coords[c], 0) == e.tips[c];
      }
      SettledStays(step, e, s, j);
    }
  }

  /** Soundness: every assignment meeting the constraints has each chain's end equal to the full chain from
      its start. That no chain is skipped follows only from the 99 steps being what 195 leaves. */
  lemma PoolIsSound<N>(step: Step<N>, e: Ends<N>, s: seq<nat>)
    requires e.Sized() && PoolOk(step, e, s)
    ensures EndsAreChains(step, e) && Complete(e.coords, s)
  {
    var last := SLOTS - 1;
    StepsProgress(step, e, s, last);
    forall c | 0 <= c < CHAINS
      ensures Settled(step, e, s, c, SLOTS) && Counts(s, SLOTS)[c] <= Remaining(e.coords)[c]
    {
    }
    CountsTotal(s, SLOTS);
    RemainingTotal(e.coords);
    SumPins(Counts(s, SLOTS), Remaining(e.coords));
    forall c | 0 <= c < CHAINS
      ensures e.coords[c] + Count(s, c, |s|) == MAX_STEPS
      ensures e.ends[c] == Iterate(step, e.tips[c], c, e.coords[c], MAX_STEPS - e.coords[c])
    {
      assert Counts(s, SLOTS)[c] == Remaining(e.coords)[c];
      assert Settled(step, e, s, c, SLOTS);
      assert Iterate(step, e.tips[c], c, e.coords[c], 0) == e.tips[c];
    }
  }

  // ---- exactly one schedule ------------------------------------------------

  predicate Sorted(s: seq<nat>)
  {
    forall i, j :: 0 <= i <= j < |s| ==> s[i] <= s[j]
  }

  lemma {:induction false} StepsSorted<N>(step: Step<N>, e: Ends<N>, s: seq<nat>, k: nat)
    requires e.Sized() && Valid(s) && k <= |s| && forall j :: 0 <= j < |s| ==> StepOk(step, e, s, j)
    ensures Sorted(s[..k])
    decreases k
  {
    if k > 1 {
      StepsSorted(step, e, s, k - 1);
      assert StepOk(step, e, s, k - 1);
      assert s[..k][k - 2] == s[..k - 1][k - 2];
    }
  }

  lemma {:induction false} FilledSorted(coords: seq<nat>, k: nat)
    requires IsCoords(coords) && k <= CHAINS
    ensures Sorted(Filled(coords, k))
    decreases k
  {
    if k > 0 { FilledSorted(coords, k - 1); }
  }

  lemma {:induction false} Occurs(s: seq<nat>, c: nat, k: nat) returns (i: nat)
    requires k <= |s| && Count(s, c, k) > 0
    ensures i < k && s[i] == c
    decreases k
  {
    if s[k - 1] == c { i := k - 1; } else { i := Occurs(s, c, k - 1); }
  }

  lemma TopAtLeast(s: seq<nat>, t: seq<nat>, k: nat)
    requires 0 < k <= |s| && k <= |t| && Sorted(s[..k]) && Count(s, t[k - 1], k) == Count(t, t[k - 1], k)
    ensures t[k - 1] <= s[k - 1]
  {
    var i := Occurs(s, t[k - 1], k);
    assert s[..k][i] == s[i] && s[..k][k - 1] == s[k - 1];
  }

  /** Two sorted schedules that use every chain equally often are the same. */
  lemma {:induction false} SortedUnique(s: seq<nat>, t: seq<nat>, k: nat)
    requires k <= |s| && k <= |t| && Sorted(s[..k]) && Sorted(t[..k])
    requires Valid(s) && Valid(t) && forall c :: 0 <= c < CHAINS ==> Count(s, c, k) == Count(t, c, k)
    ensures s[..k] == t[..k]
    decreases k
  {
    if k > 0 {
      TopAtLeast(s, t, k);
      TopAtLeast(t, s, k);
      assert s[..k][..k - 1] == s[..k - 1] && t[..k][..k - 1] == t[..k - 1];
      var m := k - 1;
      forall c | 0 <= c < CHAINS
        ensures Count(s, c, m) == Count(t, c, m)
      {
        assert Count(s, c, k) == Count(t, c, k);
      }
      SortedUnique(s, t, m);
      assert s[..k] == s[..k - 1] + [s[k - 1]] && t[..k] == t[..k - 1] + [t[k - 1]];
    }
  }

  /** In a sorted schedule a chain's position is its coordinate plus its steps so far. */
  lemma {:induction false} WalkCounts<N>(step: Step<N>, e: Ends<N>, s: seq<nat>, j: nat)
    requires e.Sized() && Valid(s) && Sorted(s) && j < |s|
    ensures var c, a := s[j], Walk(step, e, s, j);
            && a.position == e.coords[c] + Count(s, c, j + 1)
            && a.out == Iterate(step, e.tips[c], c, e.coords[c], Count(s, c, j + 1))
  {
    var c := s[j];
    assert Count(s, c, j + 1) == Count(s, c, j) + 1;
    if Same(s, j) {
      WalkCounts(step, e, s, j - 1);
    } else {
      NoneYet(s, c, j);
      assert Iterate(step, e.tips[c], c, e.coords[c], 0) == e.tips[c];
    }
  }

  lemma {:induction false} CountTail(s: seq<nat>, c: nat, j: nat, k: nat)
    requires j <= k <= |s| && forall i :: j <= i < k ==> s[i] != c
    ensures Count(s, c, k) == Count(s, c, j)
    decreases k
  {
    if j < k { CountTail(s, c, j, k - 1); }
  }

  lemma CompleteStepOk<N>(step: Step<N>, e: Ends<N>, s: seq<nat>, j: nat)
    requires e.Sized() && Sorted(s) && Complete(e.coords, s) && EndsAreChains(step, e) && j < |s|
    ensures StepOk(step, e, s, j)
    ensures j == |s| - 1 ==> Walk(step, e, s, j).position == MAX_STEPS
  {
    hide Iterate, Walk;
    assert Valid(s);
    WalkCounts(step, e, s, j);
    CountGrows(s, s[j], j + 1, |s|);
    if j > 0 && !Same(s, j) {
      WalkCounts(step, e, s, j - 1);
      CountTail(s, s[j - 1], j, |s|);
    }
  }

  /** The constraints have exactly one solution per set of chains: they hold iff the coordinates sum to
      195, the schedule is the filled one, and every end is the full chain from its start. */
  lemma PoolOkExactly<N>(step: Step<N>, e: Ends<N>, s: seq<nat>)
    requires e.Sized()
    ensures PoolOk(step, e, s) <==> Sum(e.coords) == TARGET_SUM && s == Filled(e.coords, CHAINS) && EndsAreChains(step, e)
  {
    hide Filled, Iterate, Walk, StepOk;
    FilledComplete(e.coords);
    FilledSorted(e.coords, CHAINS);
    var f := Filled(e.coords, CHAINS);
    assert f[..|f|] == f && s[..|s|] == s;
    if PoolOk(step, e, s) {
      PoolIsSound(step, e, s);
      StepsSorted(step, e, s, SLOTS);
      forall c | 0 <= c < CHAINS
        ensures Count(s, c, SLOTS) == Count(f, c, SLOTS)
      {
        assert e.coords[c] + Count(s, c, |s|) == e.coords[c] + Count(f, c, |f|);
      }
      SortedUnique(s, f, SLOTS);
    } else if Sum(e.coords) == TARGET_SUM && s == f && EndsAreChains(step, e) {
      forall j | 0 <= j < SLOTS
        ensures StepOk(step, e, s, j)
      {
        CompleteStepOk(step, e, s, j);
      }
      CompleteStepOk(step, e, s, SLOTS - 1);
      forall c | 0 <= c < CHAINS && e.coords[c] == MAX_STEPS
        ensures e.tips[c] == e.ends[c]
      {
        IterateStarts(step, e.tips[c], c, e.coords[c]);
      }
      assert false;
    }
  }
}
