/** Filling the 99 pooled step slots chain by chain, the order in which all provers lay them out. */
module Schedule {
  import opened Words
  import opened Wots
  import opened Codeword
  import opened Pool

  const SLOTS: nat := 99

  /** The hash of a node of any kind at a chain index and position. */
  type Step<!N> = (N, nat, nat) -> N

  /** n steps of a chain from position `from`. */
  function Iterate<N>(step: Step<N>, x: N, chain: nat, from: nat, n: nat): N
  {
    if n == 0 then x else step(Iterate(step, x, chain, from, n - 1), chain, from + n)
  }

  lemma IterateStarts<N>(step: Step<N>, x: N, c: nat, from: nat)
    ensures Iterate(step, x, c, from, 0) == x
  {
  }

  lemma IterateSteps<N>(step: Step<N>, x: N, c: nat, from: nat, k: nat)
    ensures Iterate(step, x, c, from, k + 1) == step(Iterate(step, x, c, from, k), c, from + k + 1)
  {
  }

  predicate IsCoords(coords: seq<nat>)
  {
    |coords| == CHAINS && forall c :: 0 <= c < CHAINS ==> coords[c] <= MAX_STEPS
  }

  function Repeat(c: nat, n: nat): (r: seq<nat>)
    ensures |r| == n && forall i :: 0 <= i < n ==> r[i] == c
  {
    seq(n, _ => c)
  }

  /** The slots of the first k chains. */
  function Filled(coords: seq<nat>, k: nat): (s: seq<nat>)
    requires k <= |coords| && forall c :: 0 <= c < |coords| ==> coords[c] <= MAX_STEPS
    ensures forall i :: 0 <= i < |s| ==> s[i] < k
    decreases |coords|, k
  {
    if k == 0 then [] else Filled(coords, k - 1) + Repeat(k - 1, MAX_STEPS - coords[k - 1])
  }

  lemma {:induction false} CountGrows(s: seq<nat>, c: nat, i: nat, k: nat)
    requires i <= k <= |s|
    ensures Count(s, c, i) <= Count(s, c, k)
    decreases k
  {
    if i < k { CountGrows(s, c, i, k - 1); }
  }

  lemma {:induction false} CountAppend(a: seq<nat>, b: seq<nat>, c: nat, k: nat)
    requires k <= |b|
    ensures Count(a + b, c, |a| + k) == Count(a, c, |a|) + Count(b, c, k)
    decreases k
  {
    if k == 0 {
      CountPrefix(a, a + b, c, |a|);
    } else {
      CountAppend(a, b, c, k - 1);
    }
  }

  lemma {:induction false} CountPrefix(a: seq<nat>, b: seq<nat>, c: nat, k: nat)
    requires k <= |a| && k <= |b| && a[..k] == b[..k]
    ensures Count(a, c, k) == Count(b, c, k)
    decreases k
  {
    if k > 0 {
      assert a[k - 1] == a[..k][k - 1] && b[k - 1] == b[..k][k - 1];
      assert a[..k - 1] == a[..k][..k - 1] && b[..k - 1] == b[..k][..k - 1];
      CountPrefix(a, b, c, k - 1);
    }
  }

  lemma {:induction false} CountRepeat(v: nat, n: nat, c: nat, k: nat)
    requires k <= n
    ensures Count(Repeat(v, n), c, k) == if v == c then k else 0
    decreases k
  {
    if k > 0 { CountRepeat(v, n, c, k - 1); }
  }

  /** Every chain gets exactly the steps it needs, and no slot is spent on later chains. */
  lemma {:induction false} FilledCounts(coords: seq<nat>, k: nat, c: nat)
    requires IsCoords(coords) && k <= CHAINS && c < CHAINS
    ensures Count(Filled(coords, k), c, |Filled(coords, k)|) == if c < k then MAX_STEPS - coords[c] else 0
    decreases k
  {
    if k > 0 {
      FilledCounts(coords, k - 1, c);
      var n := MAX_STEPS - coords[k - 1];
      CountAppend(Filled(coords, k - 1), Repeat(k - 1, n), c, n);
      CountRepeat(k - 1, n, c, n);
    }
  }

  lemma {:induction false} FilledLength(coords: seq<nat>, k: nat)
    requires IsCoords(coords) && k <= CHAINS
    ensures |Filled(coords, k)| == Sum(Remaining(coords)[..k])
    decreases k
  {
    if k > 0 {
      FilledLength(coords, k - 1);
      assert Remaining(coords)[..k][..k - 1] == Remaining(coords)[..k - 1];
    }
  }

  /** The lengths only grow, so a prefix that is too long means the whole is. */
  lemma {:induction false} FilledGrows(coords: seq<nat>, k: nat, n: nat)
    requires IsCoords(coords) && k <= n <= CHAINS
    ensures |Filled(coords, k)| <= |Filled(coords, n)|
    decreases n
  {
    if k < n { FilledGrows(coords, k, n - 1); }
  }

  /** The filled schedule has 99 slots iff the coordinates sum to 195, and then it is complete. */
  lemma FilledComplete(coords: seq<nat>)
    requires IsCoords(coords)
    ensures |Filled(coords, CHAINS)| == SLOTS <==> Sum(coords) == TARGET_SUM
    ensures Complete(coords, Filled(coords, CHAINS))
  {
    hide Filled;
    FilledLength(coords, CHAINS);
    assert Remaining(coords)[..CHAINS] == Remaining(coords);
    RemainingTotal(coords);
    forall c | 0 <= c < CHAINS
      ensures coords[c] + Count(Filled(coords, CHAINS), c, |Filled(coords, CHAINS)|) == MAX_STEPS
    {
      FilledCounts(coords, CHAINS, c);
    }
  }

  lemma IndicesGrow(sched: seq<Byte>, c: nat)
    requires c < CHAINS
    ensures Indices(sched + [Byte8(c)]) == Indices(sched) + [c]
  {
    ByteValue(c);
    assert Indices(sched + [Byte8(c)])[..|sched|] == Indices(sched);
  }

  /** kkw_build_schedule: it succeeds exactly on the digests a signer may use. */
  method BuildSchedule(d: Digest) returns (ok: bool, sched: seq<Byte>)
    ensures ok <==> Accepted(d)
    ensures ok ==> |sched| == SLOTS && Complete(Coords(d), Indices(sched))
  {
    hide Filled, Coords, Complete, Indices, Accepted;
    sched := [];
    var clear, coords := ExtractCoords(d);
    FilledComplete(coords);
    AcceptedIs(d);
    if !clear { return false, sched; }
    FilledStart(coords);
    for ci := 0 to CHAINS
      invariant |sched| <= SLOTS && Indices(sched) == Filled(coords, ci)
    {
      FilledNext(coords, ci);
      for pos := coords[ci] to MAX_STEPS
        invariant |sched| <= SLOTS && Indices(sched) == Filled(coords, ci) + Repeat(ci, pos - coords[ci])
      {
        if |sched| == SLOTS {
          FilledGrows(coords, ci + 1, CHAINS);
          return false, sched;
        }
        IndicesGrow(sched, ci);
        assert Repeat(ci, pos + 1 - coords[ci]) == Repeat(ci, pos - coords[ci]) + [ci];
        sched := sched + [Byte8(ci)];
      }
    }
    ok := |sched| == SLOTS;
  }

  lemma AcceptedIs(d: Digest)
    ensures Accepted(d) <==> LeftoverClear(d) && Sum(Coords(d)) == TARGET_SUM
    ensures IsCoords(Coords(d))
  {
    hide Coords;
  }

  lemma FilledStart(coords: seq<nat>)
    requires IsCoords(coords)
    ensures Filled(coords, 0) == [] && Indices([]) == []
  {
  }

  lemma FilledNext(coords: seq<nat>, k: nat)
    requires IsCoords(coords) && k < CHAINS
    ensures Filled(coords, k + 1) == Filled(coords, k) + Repeat(k, MAX_STEPS - coords[k])
    ensures Repeat(k, 0) == []
  {
  }
}
