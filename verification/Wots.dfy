/** Winternitz chains with the target-sum encoding, on nodes of four little-endian words. */
module Wots {
  import opened Words
  import opened Blake3

  const CHAINS: nat := 42
  const MAX_STEPS: nat := 7
  const TARGET_SUM: nat := 195
  const NODE_BYTES: nat := 16

  type Node = n: seq<Word> | |n| == 4 witness [ZERO, ZERO, ZERO, ZERO]

  const TWEAK_CHAIN: nat := 0
  const TWEAK_TREE: nat := 1
  const TWEAK_MESSAGE: nat := 2
  const TWEAK_LEAF: nat := 3

  function Byte8(v: nat): Byte { FromNat(v, 8) }

  function NodeOf(b: seq<Byte>): Node
    requires |b| == NODE_BYTES
  {
    [LoadWord(b, 0), LoadWord(b, 1), LoadWord(b, 2), LoadWord(b, 3)]
  }

  function NodeBytes(n: Node): (b: seq<Byte>)
    ensures |b| == NODE_BYTES
  {
    Bytes(n, NODE_BYTES)
  }

  lemma NodeRoundTrip(b: seq<Byte>)
    requires |b| == NODE_BYTES
    ensures NodeBytes(NodeOf(b)) == b
  {
    forall i | 0 <= i < NODE_BYTES
      ensures NodeBytes(NodeOf(b))[i] == b[i]
    {
      assert i == 4 * (i / 4) + i % 4;
      assert NodeOf(b)[i / 4] == LoadWord(b, i / 4);
    }
  }

  /** The fixed inputs of a key's chains at one leaf. */
  datatype ChainKey = ChainKey(seed: seq<Byte>, epoch: seq<Byte>)

  /** One chain step: the node is the domain; key seed, epoch, chain index and position are the data. */
  function ChainStep(k: ChainKey, x: Node, chain: Byte, pos: Byte): Node
  {
    NodeOf(Th(NodeBytes(x) + [Byte8(TWEAK_CHAIN)], k.seed + k.epoch + [chain, pos], NODE_BYTES))
  }

  /** n steps of a chain from position `from`; the step to position p hashes p. */
  function Chain(k: ChainKey, x: Node, chain: nat, from: nat, n: nat): Node
    decreases |k.seed|, n
  {
    if n == 0 then x else ChainStep(k, Chain(k, x, chain, from, n - 1), Byte8(chain), Byte8(from + n))
  }

  /** Chains compose: m + n steps are m steps and then n from there. */
  lemma {:induction false} ChainSplits(k: ChainKey, x: Node, chain: nat, from: nat, m: nat, n: nat)
    ensures Chain(k, x, chain, from, m + n) == Chain(k, Chain(k, x, chain, from, m), chain, from + m, n)
  {
    hide ChainStep;
    if n > 0 { ChainSplits(k, x, chain, from, m, n - 1); }
  }

  // ---- counting ------------------------------------------------------------

  function Sum(a: seq<nat>): nat
  {
    if a == [] then 0 else Sum(a[..|a| - 1]) + a[|a| - 1]
  }

  method SumOf(cs: seq<nat>) returns (sum: nat)
    ensures sum == Sum(cs)
  {
    sum := 0;
    for i := 0 to |cs|
      invariant sum == Sum(cs[..i])
    {
      assert cs[..i + 1][..i] == cs[..i];
      sum := sum + cs[i];
    }
    assert cs[..|cs|] == cs;
  }

  lemma {:induction false} SumBound(s: seq<nat>, m: nat)
    requires forall i :: 0 <= i < |s| ==> s[i] <= m
    ensures Sum(s) <= m * |s|
  {
    if s != [] { SumBound(s[..|s| - 1], m); }
  }

  /** Componentwise at most, with the same total: equal everywhere. */
  lemma {:induction false} SumPins(a: seq<nat>, b: seq<nat>)
    requires |a| == |b| && forall i :: 0 <= i < |a| ==> a[i] <= b[i]
    ensures Sum(a) <= Sum(b)
    ensures Sum(a) == Sum(b) ==> a == b
  {
    if a != [] {
      var k := |a| - 1;
      SumPins(a[..k], b[..k]);
      if Sum(a) == Sum(b) {
        assert a == a[..k] + [a[k]] && b == b[..k] + [b[k]];
      }
    }
  }

  /** How many of the first k entries of s are c. */
  function Count(s: seq<nat>, c: nat, k: nat): (n: nat)
    requires k <= |s|
    ensures n <= k
    decreases |s|, k
  {
    if k == 0 then 0 else Count(s, c, k - 1) + if s[k - 1] == c then 1 else 0
  }

  function Counts(s: seq<nat>, k: nat): (r: seq<nat>)
    requires k <= |s|
    ensures |r| == CHAINS
  {
    seq(CHAINS, c requires 0 <= c < CHAINS => Count(s, c, k))
  }

  lemma {:induction false} SumBump(a: seq<nat>, i: nat)
    requires i < |a|
    ensures Sum(a[i := a[i] + 1]) == Sum(a) + 1
  {
    var k := |a| - 1;
    var b := a[i := a[i] + 1];
    if i < k {
      SumBump(a[..k], i);
      assert b[..k] == a[..k][i := a[i] + 1];
    } else {
      assert b[..k] == a[..k];
    }
  }

  lemma {:induction false} SumZero(a: seq<nat>)
    requires forall i :: 0 <= i < |a| ==> a[i] == 0
    ensures Sum(a) == 0
  {
    if a != [] { SumZero(a[..|a| - 1]); }
  }

  /** If every entry is a chain index, the counts add up to the number of entries. */
  lemma {:induction false} CountsTotal(s: seq<nat>, k: nat)
    requires k <= |s| && forall i :: 0 <= i < k ==> s[i] < CHAINS
    ensures Sum(Counts(s, k)) == k
  {
    if k == 0 {
      SumZero(Counts(s, 0));
    } else {
      CountsTotal(s, k - 1);
      SumBump(Counts(s, k - 1), s[k - 1]);
      assert Counts(s, k) == Counts(s, k - 1)[s[k - 1] := Counts(s, k - 1)[s[k - 1]] + 1];
    }
  }

  /** The steps each chain still needs. */
  function Remaining(coords: seq<nat>): (r: seq<nat>)
    requires |coords| == CHAINS && forall c :: 0 <= c < CHAINS ==> coords[c] <= MAX_STEPS
    ensures |r| == CHAINS
  {
    seq(CHAINS, c requires 0 <= c < CHAINS => MAX_STEPS - coords[c])
  }

  lemma {:induction false} SumComplement(a: seq<nat>, b: seq<nat>, m: nat)
    requires |a| == |b| && forall i :: 0 <= i < |a| ==> a[i] + b[i] == m
    ensures Sum(a) + Sum(b) == m * |a|
  {
    if a != [] { SumComplement(a[..|a| - 1], b[..|b| - 1], m); }
  }

  /** A target-sum codeword leaves exactly 42 * 7 - 195 = 99 steps. */
  lemma RemainingTotal(coords: seq<nat>)
    requires |coords| == CHAINS && forall c :: 0 <= c < CHAINS ==> coords[c] <= MAX_STEPS
    ensures Sum(Remaining(coords)) + Sum(coords) == 294
  {
    SumComplement(Remaining(coords), coords, MAX_STEPS);
  }
}
