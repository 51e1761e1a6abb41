/** Pooled chain runs with coverage: the 99 step slots hold runs of consecutive slots of one chain, each
    slot carrying its own index, count and position byte. The chain hash is uninterpreted. */
module Longfellow {
  import opened Words
  import opened Wots
  import opened Pool
  import opened Schedule

  type Wire = b: nat | b < 256

  /** The wires of one step slot; its output is the hash of its input. */
  datatype Slot<N> = Slot(input: N, chain: Wire, count: Wire, position: Wire)

  /** The public and private inputs of the pooled part: chain starts, coordinates and chain ends. */
  datatype Ends<N> = Ends(sig: seq<N>, coords: seq<nat>, pk: seq<N>)
  {
    predicate Sized() { |sig| == |pk| == CHAINS && IsCoords(coords) }
  }

  function Output<N>(step: Step<N>, s: Slot<N>): N
  {
    step(s.input, s.chain, s.position)
  }

  function Chains<N>(slots: seq<Slot<N>>): (r: seq<nat>)
    ensures |r| == |slots| && forall j :: 0 <= j < |slots| ==> r[j] == slots[j].chain
  {
    seq(|slots|, j requires 0 <= j < |slots| => slots[j].chain)
  }

  // ---- the constraints -----------------------------------------------------

  /** Slot j carries the same index as the slot before it. */
  predicate Same<N>(slots: seq<Slot<N>>, j: nat)
    requires j < |slots|
  {
    j > 0 && slots[j].chain == slots[j - 1].chain
  }

  predicate Last<N>(slots: seq<Slot<N>>, j: nat)
    requires j < |slots|
  {
    j + 1 == |slots| || slots[j + 1].chain != slots[j].chain
  }

  /** What the constraints say of one slot, in 8-bit arithmetic. */
  predicate SlotOk<N(==)>(step: Step<N>, e: Ends<N>, slots: seq<Slot<N>>, j: nat)
    requires e.Sized() && j < |slots|
  {
    var s := slots[j];
    && s.chain < CHAINS
    && s.position == (s.count + e.coords[s.chain]) % 256
    && (s.count == 1 ==> s.input == e.sig[s.chain])
    && (Last(slots, j) ==> Output(step, s) == e.pk[s.chain] && s.count == MAX_STEPS - e.coords[s.chain])
    && (if Same(slots, j)
        then s.count == (slots[j - 1].count + 1) % 256 && s.input == Output(step, slots[j - 1])
        else s.count == 1)
  }

  /** Chain c ends some run, or needs no step and is its own end. */
  predicate ChainOk<N(==)>(e: Ends<N>, slots: seq<Slot<N>>, c: nat)
    requires e.Sized() && c < CHAINS
  {
    && (e.coords[c] == MAX_STEPS || Covered(slots, c, |slots|))
    && (e.coords[c] == MAX_STEPS ==> e.pk[c] == e.sig[c])
  }

  predicate Covered<N>(slots: seq<Slot<N>>, c: nat, k: nat)
    requires k <= |slots|
  {
    exists j :: 0 <= j < k && slots[j].chain == c && Last(slots, j)
  }

  predicate PoolOk<N(==)>(step: Step<N>, e: Ends<N>, slots: seq<Slot<N>>)
    requires e.Sized()
  {
    && |slots| == SLOTS && Sum(e.coords) == TARGET_SUM
    && (forall j :: 0 <= j < SLOTS ==> SlotOk(step, e, slots, j))
    && (forall c :: 0 <= c < CHAINS ==> ChainOk(e, slots, c))
  }

  // ---- what an assignment must look like -----------------------------------

  /** Slot j and the count - 1 slots before it are one unfinished run of its chain, correctly hashed. */
  predicate RunTo<N(==)>(step: Step<N>, e: Ends<N>, slots: seq<Slot<N>>, j: nat)
    requires e.Sized() && j < |slots|
  {
    var s := slots[j];
    && s.chain < CHAINS && 1 <= s.count <= j + 1
    && (forall i :: j + 1 - s.count <= i <= j ==> slots[i].chain == s.chain)
    && Output(step, s) == Iterate(step, e.sig[s.chain], s.chain, e.coords[s.chain], s.count)
  }

  lemma {:induction false} EverySlotRuns<N>(step: Step<N>, e: Ends<N>, slots: seq<Slot<N>>, j: nat)
    requires e.Sized() && PoolOk(step, e, slots) && j < SLOTS
    ensures RunTo(step, e, slots, j)
  {
    var s := slots[j];
    assert SlotOk(step, e, slots, j);
    if Same(slots, j) {
      EverySlotRuns(step, e, slots, j - 1);
      assert s.count == slots[j - 1].count + 1;
    }
    assert s.position == s.count + e.coords[s.chain];
  }

  lemma {:induction false} CountStretch(s: seq<nat>, c: nat, start: nat, end: nat)
    requires start <= end <= |s| && forall i :: start <= i < end ==> s[i] == c
    ensures Count(s, c, end) == Count(s, c, start) + (end - start)
    decreases end
  {
    if start < end { CountStretch(s, c, start, end - 1); }
  }

  /** A run's slots are all counted for its chain. */
  lemma RunCounts<N>(step: Step<N>, e: Ends<N>, slots: seq<Slot<N>>, j: nat)
    requires e.Sized() && j < |slots| && RunTo(step, e, slots, j)
    ensures slots[j].count <= j + 1
    ensures Count(Chains(slots), slots[j].chain, j + 1) == Count(Chains(slots), slots[j].chain, j + 1 - slots[j].count) + slots[j].count
  {
    hide Iterate, Output, Count;
    CountStretch(Chains(slots), slots[j].chain, j + 1 - slots[j].count, j + 1);
  }

  /** A last slot of chain c closes a run of the 7 - coord steps the chain needs. */
  lemma LastCloses<N>(step: Step<N>, e: Ends<N>, slots: seq<Slot<N>>, j: nat)
    requires e.Sized() && PoolOk(step, e, slots) && j < SLOTS && Last(slots, j)
    ensures var c := slots[j].chain;
            && c < CHAINS && MAX_STEPS - e.coords[c] == slots[j].count <= j + 1
            && (forall i :: j + 1 - slots[j].count <= i <= j ==> slots[i].chain == c)
            && e.pk[c] == Iterate(step, e.sig[c], c, e.coords[c], MAX_STEPS - e.coords[c])
            && Count(Chains(slots), c, j + 1) == Count(Chains(slots), c, j + 1 - slots[j].count) + (MAX_STEPS - e.coords[c])
  {
    hide Iterate, Covered, ChainOk, Count;
    EverySlotRuns(step, e, slots, j);
    assert SlotOk(step, e, slots, j);
    RunCounts(step, e, slots, j);
  }

  lemma NeededSteps<N>(step: Step<N>, e: Ends<N>, slots: seq<Slot<N>>, c: nat)
    requires e.Sized() && PoolOk(step, e, slots) && c < CHAINS
    ensures Remaining(e.coords)[c] <= Counts(Chains(slots), SLOTS)[c]
    ensures e.pk[c] == Iterate(step, e.sig[c], c, e.coords[c], MAX_STEPS - e.coords[c])
  {
    assert ChainOk(e, slots, c);
    if e.coords[c] < MAX_STEPS {
      var j :| 0 <= j < SLOTS && slots[j].chain == c && Last(slots, j);
      LastCloses(step, e, slots, j);
      CountGrows(Chains(slots), c, j + 1, SLOTS);
    }
  }

  /** Soundness of the pooled runs: in every assignment meeting the constraints each chain is stepped
      exactly 7 - coord times, and its end is the full chain from its start. That no slot is spent twice
      is the pigeonhole: the needed steps alone already add up to all 99 slots. */
  lemma PoolIsSound<N>(step: Step<N>, e: Ends<N>, slots: seq<Slot<N>>)
    requires e.Sized() && PoolOk(step, e, slots)
    ensures forall c :: 0 <= c < CHAINS ==> e.pk[c] == Iterate(step, e.sig[c], c, e.coords[c], MAX_STEPS - e.coords[c])
    ensures Complete(e.coords, Chains(slots))
  {
    var s := Chains(slots);
    forall c | 0 <= c < CHAINS
      ensures Remaining(e.coords)[c] <= Counts(s, SLOTS)[c]
      ensures e.pk[c] == Iterate(step, e.sig[c], c, e.coords[c], MAX_STEPS - e.coords[c])
    {
      NeededSteps(step, e, slots, c);
    }
    forall j | 0 <= j < SLOTS
      ensures s[j] < CHAINS
    {
      assert SlotOk(step, e, slots, j);
    }
    CountsTotal(s, SLOTS);
    RemainingTotal(e.coords);
    SumPins(Remaining(e.coords), Counts(s, SLOTS));
    forall c | 0 <= c < CHAINS
      ensures e.coords[c] + Count(s, c, |s|) == MAX_STEPS
    {
      assert Remaining(e.coords)[c] == Counts(s, SLOTS)[c];
    }
  }

  /** Each chain has at most one complete run, and a chain already at 7 has none. */
  lemma OneRunEach<N>(step: Step<N>, e: Ends<N>, slots: seq<Slot<N>>, j: nat, j': nat)
    requires e.Sized() && PoolOk(step, e, slots) && j <= j' < SLOTS
    requires Last(slots, j) && Last(slots, j') && slots[j].chain == slots[j'].chain
    ensures j == j' && slots[j].chain < CHAINS && e.coords[slots[j].chain] < MAX_STEPS
  {
    var s, c := Chains(slots), slots[j].chain;
    PoolIsSound(step, e, slots);
    LastCloses(step, e, slots, j);
    LastCloses(step, e, slots, j');
    EverySlotRuns(step, e, slots, j);
    if j < j' {
      var start := j' + 1 - slots[j'].count;
      CountGrows(s, c, j + 1, start);
      CountGrows(s, c, j' + 1, SLOTS);
    }
  }

  // ---- the honest assignment -----------------------------------------------

  function HonestSlot<N>(step: Step<N>, e: Ends<N>, c: nat, k: nat): Slot<N>
    requires e.Sized() && c < CHAINS && k < MAX_STEPS - e.coords[c]
  {
    Slot(Iterate(step, e.sig[c], c, e.coords[c], k), c, k + 1, e.coords[c] + k + 1)
  }

  /** Slots laid out run by run: the slots of the first c chains, then the first k of chain c. */
  predicate LaidOut<N(==)>(step: Step<N>, e: Ends<N>, slots: seq<Slot<N>>, c: nat, k: nat)
    requires e.Sized() && c <= CHAINS && (c == CHAINS ==> k == 0)
  {
    && (c < CHAINS ==> k <= MAX_STEPS - e.coords[c])
    && |slots| == |Filled(e.coords, c)| + k
    && (forall b :: 0 <= b < c ==> RunAt(step, e, slots, b, MAX_STEPS - e.coords[b]))
    && (c < CHAINS ==> RunAt(step, e, slots, c, k))
    && (forall j :: 0 <= j < |slots| ==> slots[j].chain <= c)
    && (forall j :: 0 < j < |slots| ==> slots[j - 1].chain <= slots[j].chain)
  }

  /** The first k slots of chain b sit in a row after those of the earlier chains. */
  predicate RunAt<N(==)>(step: Step<N>, e: Ends<N>, slots: seq<Slot<N>>, b: nat, k: nat)
    requires e.Sized() && b < CHAINS
  {
    && k <= MAX_STEPS - e.coords[b]
    && |Filled(e.coords, b)| + k <= |slots|
    && forall i :: 0 <= i < k ==> slots[|Filled(e.coords, b)| + i] == HonestSlot(step, e, b, i)
  }

  /** One chain's slots, and its end. */
  method FillChain<N(==)>(step: Step<N>, e: Ends<N>, before: seq<Slot<N>>, c: nat) returns (current: N, slots: seq<Slot<N>>)
    requires e.Sized() && c < CHAINS && LaidOut(step, e, before, c, 0)
    ensures LaidOut(step, e, slots, c, MAX_STEPS - e.coords[c])
    ensures current == Iterate(step, e.sig[c], c, e.coords[c], MAX_STEPS - e.coords[c])
  {
    hide Filled, Iterate, LaidOut;
    current, slots := e.sig[c], before;
    IterateStarts(step, current, c, e.coords[c]);
    for k := 0 to MAX_STEPS - e.coords[c]
      invariant LaidOut(step, e, slots, c, k)
      invariant current == Iterate(step, e.sig[c], c, e.coords[c], k)
    {
      var pos := e.coords[c] + k + 1;
      var s := Slot(current, c, k + 1, pos);
      LaidOutGrows(step, e, slots, c, k, s);
      slots := slots + [s];
      IterateSteps(step, e.sig[c], c, e.coords[c], k);
      current := step(current, c, pos);
    }
  }

  /** fill_parts: lays the slots out and refuses endpoints that are not the chains' ends. */
  method FillParts<N(==)>(step: Step<N>, e: Ends<N>) returns (ok: bool, slots: seq<Slot<N>>)
    requires e.Sized() && Sum(e.coords) == TARGET_SUM
    ensures ok <==> forall c :: 0 <= c < CHAINS ==> e.pk[c] == Iterate(step, e.sig[c], c, e.coords[c], MAX_STEPS - e.coords[c])
    ensures ok ==> PoolOk(step, e, slots)
  {
    hide Filled, Iterate, PoolOk;
    ok := true;
    slots := [];
    FilledStart(e.coords);
    for c := 0 to CHAINS
      invariant ok <==> forall b :: 0 <= b < c ==> e.pk[b] == Iterate(step, e.sig[b], b, e.coords[b], MAX_STEPS - e.coords[b])
      invariant LaidOut(step, e, slots, c, 0)
    {
      var current: N;
      current, slots := FillChain(step, e, slots, c);
      if current != e.pk[c] { ok := false; }
      FilledNext(e.coords, c);
    }
    if ok {
      HonestPoolOk(step, e, slots);
    }
  }

  lemma LaidOutGrows<N>(step: Step<N>, e: Ends<N>, slots: seq<Slot<N>>, c: nat, k: nat, s: Slot<N>)
    requires e.Sized() && c < CHAINS && k < MAX_STEPS - e.coords[c] && LaidOut(step, e, slots, c, k)
    requires s == HonestSlot(step, e, c, k)
    ensures LaidOut(step, e, slots + [s], c, k + 1)
  {
    hide Filled, Iterate, HonestSlot;
    var t := slots + [s];
    forall b | 0 <= b < c
      ensures RunAt(step, e, t, b, MAX_STEPS - e.coords[b])
    {
      assert RunAt(step, e, slots, b, MAX_STEPS - e.coords[b]);
    }
    assert RunAt(step, e, slots, c, k);
    assert s.chain == c by { SlotChain(step, e, c, k); }
  }

  lemma SlotChain<N>(step: Step<N>, e: Ends<N>, c: nat, k: nat)
    requires e.Sized() && c < CHAINS && k < MAX_STEPS - e.coords[c]
    ensures HonestSlot(step, e, c, k).chain == c
  {
  }

  /** Slot j of a full layout belongs to one chain's run, at a known place in it. */
  lemma {:induction false} PlaceOf(coords: seq<nat>, k: nat, j: nat) returns (c: nat, i: nat)
    requires IsCoords(coords) && k <= CHAINS && j < |Filled(coords, k)|
    ensures c < k && i < MAX_STEPS - coords[c] && j == |Filled(coords, c)| + i
    decreases k
  {
    if j < |Filled(coords, k - 1)| {
      c, i := PlaceOf(coords, k - 1, j);
    } else {
      c, i := k - 1, j - |Filled(coords, k - 1)|;
    }
  }

  lemma HonestPoolOk<N>(step: Step<N>, e: Ends<N>, slots: seq<Slot<N>>)
    requires e.Sized() && Sum(e.coords) == TARGET_SUM && LaidOut(step, e, slots, CHAINS, 0)
    requires forall c :: 0 <= c < CHAINS ==> e.pk[c] == Iterate(step, e.sig[c], c, e.coords[c], MAX_STEPS - e.coords[c])
    ensures PoolOk(step, e, slots)
  {
    hide Filled, Iterate, SlotOk, ChainOk;
    FilledComplete(e.coords);
    forall j | 0 <= j < SLOTS
      ensures SlotOk(step, e, slots, j)
    {
      HonestSlotOk(step, e, slots, j);
    }
    forall c | 0 <= c < CHAINS
      ensures ChainOk(e, slots, c)
    {
      HonestChainOk(step, e, slots, c);
    }
  }

  /** The slot after chain c's run starts the next non-empty run. */
  lemma NextRun<N>(step: Step<N>, e: Ends<N>, slots: seq<Slot<N>>, c: nat)
    requires e.Sized() && LaidOut(step, e, slots, CHAINS, 0) && c < CHAINS
    ensures var end := |Filled(e.coords, c)| + (MAX_STEPS - e.coords[c]);
            end <= |slots| && (end < |slots| ==> slots[end].chain > c && slots[end].count == 1)
  {
    hide Filled, Iterate, HonestSlot;
    FilledNext(e.coords, c);
    FilledGrows(e.coords, c + 1, CHAINS);
    var end := |Filled(e.coords, c + 1)|;
    if end < |slots| {
      var b, i := PlaceOf(e.coords, CHAINS, end);
      SlotAt(step, e, slots, b, i);
      HonestFields(step, e, b, i);
      FilledNext(e.coords, b);
      if b <= c {
        FilledGrows(e.coords, b + 1, c + 1);
        assert false;
      } else {
        FilledGrows(e.coords, c + 1, b);
      }
    }
  }

  lemma HonestSlotOk<N>(step: Step<N>, e: Ends<N>, slots: seq<Slot<N>>, j: nat)
    requires e.Sized() && LaidOut(step, e, slots, CHAINS, 0) && j < |slots|
    requires forall c :: 0 <= c < CHAINS ==> e.pk[c] == Iterate(step, e.sig[c], c, e.coords[c], MAX_STEPS - e.coords[c])
    ensures SlotOk(step, e, slots, j)
  {
    hide Filled, Iterate, HonestSlot, LaidOut;
    FullLength(step, e, slots);
    var c, i := PlaceOf(e.coords, CHAINS, j);
    var n := MAX_STEPS - e.coords[c];
    SlotAt(step, e, slots, c, i);
    NextRun(step, e, slots, c);
    HonestFields(step, e, c, i);
    if i > 0 {
      SlotAt(step, e, slots, c, i - 1);
      HonestFields(step, e, c, i - 1);
    } else if j > 0 {
      BeforeRun(step, e, slots, c);
    }
    if i + 1 < n {
      SlotAt(step, e, slots, c, i + 1);
      HonestFields(step, e, c, i + 1);
    }
    assert Same(slots, j) <==> i > 0;
    assert Last(slots, j) <==> i + 1 == n;
  }

  lemma FullLength<N>(step: Step<N>, e: Ends<N>, slots: seq<Slot<N>>)
    requires e.Sized() && LaidOut(step, e, slots, CHAINS, 0)
    ensures |slots| == |Filled(e.coords, CHAINS)|
  {
  }

  lemma SlotAt<N>(step: Step<N>, e: Ends<N>, slots: seq<Slot<N>>, c: nat, i: nat)
    requires e.Sized() && LaidOut(step, e, slots, CHAINS, 0) && c < CHAINS && i < MAX_STEPS - e.coords[c]
    ensures |Filled(e.coords, c)| + i < |slots| && slots[|Filled(e.coords, c)| + i] == HonestSlot(step, e, c, i)
  {
    hide Filled, HonestSlot;
    assert RunAt(step, e, slots, c, MAX_STEPS - e.coords[c]);
  }

  lemma HonestFields<N>(step: Step<N>, e: Ends<N>, c: nat, i: nat)
    requires e.Sized() && c < CHAINS && i < MAX_STEPS - e.coords[c]
    ensures var x := HonestSlot(step, e, c, i);
            && x.chain == c && x.count == i + 1 && x.position == e.coords[c] + i + 1
            && x.input == Iterate(step, e.sig[c], c, e.coords[c], i)
            && Output(step, x) == Iterate(step, e.sig[c], c, e.coords[c], i + 1)
            && (i == 0 ==> x.input == e.sig[c])
  {
    IterateStarts(step, e.sig[c], c, e.coords[c]);
    IterateSteps(step, e.sig[c], c, e.coords[c], i);
  }

  /** The slot before a run belongs to an earlier chain. */
  lemma BeforeRun<N>(step: Step<N>, e: Ends<N>, slots: seq<Slot<N>>, c: nat)
    requires e.Sized() && LaidOut(step, e, slots, CHAINS, 0) && c < CHAINS && e.coords[c] < MAX_STEPS && |Filled(e.coords, c)| > 0
    ensures |Filled(e.coords, c)| < |slots| && slots[|Filled(e.coords, c)| - 1].chain < c
  {
    hide Filled, HonestSlot;
    var j := |Filled(e.coords, c)|;
    SlotAt(step, e, slots, c, 0);
    HonestFields(step, e, c, 0);
    var b, k := PlaceOf(e.coords, CHAINS, j - 1);
    SlotAt(step, e, slots, b, k);
    HonestFields(step, e, b, k);
    assert slots[j - 1].chain <= slots[j].chain;
  }

  lemma HonestChainOk<N>(step: Step<N>, e: Ends<N>, slots: seq<Slot<N>>, c: nat)
    requires e.Sized() && LaidOut(step, e, slots, CHAINS, 0) && c < CHAINS
    requires e.pk[c] == Iterate(step, e.sig[c], c, e.coords[c], MAX_STEPS - e.coords[c])
    ensures ChainOk(e, slots, c)
  {
    hide Filled, Iterate;
    IterateStarts(step, e.sig[c], c, e.coords[c]);
    if e.coords[c] < MAX_STEPS {
      NextRun(step, e, slots, c);
      assert RunAt(step, e, slots, c, MAX_STEPS - e.coords[c]);
      var j := |Filled(e.coords, c)| + (MAX_STEPS - e.coords[c]) - 1;
      assert slots[j] == HonestSlot(step, e, c, MAX_STEPS - e.coords[c] - 1);
      assert Last(slots, j);
    }
  }
}
