/** Every challenge can come out of the expansion: from any challenge of the right shape back to a hash stream
    that expands to it without a single rejection. */
module FsReach {
  import opened Wrappers
  import opened Words
  import Blake3
  import opened KkwCodec
  import opened Kkw
  import opened FsExpand

  // ---- words and bytes of a stream -----------------------------------------

  /** The stream starts with these bytes. */
  predicate Spells(f: nat -> Byte, b: seq<Byte>)
  {
    forall i :: 0 <= i < |b| ==> f(i) == b[i]
  }

  /** The word read at a place is the number written there most significant byte first. */
  lemma WordSpelt(f: nat -> Byte, at: nat, v: nat)
    requires v < WORDS && [f(at), f(at + 1), f(at + 2), f(at + 3)] == Blake3.BigEndian(Word32(v))
    ensures WordAt(f, at) == v
  {
    hide ToNat, Pow2, Word32;
    var w := Word32(v);
    WordValue(v);
    Blake3.FourBytes(w);
    var b := Blake3.BigEndian(w);
    assert b[0] == f(at) && b[1] == f(at + 1) && b[2] == f(at + 2) && b[3] == f(at + 3);
  }

  // ---- spelling draws and parties ------------------------------------------

  /** The words that make the draws: how far above its lower end each draw lies. */
  function DrawBytes(ds: seq<nat>, m: nat): (b: seq<Byte>)
    requires Draws(ds, m)
    ensures |b| == 4 * |ds|
  {
    if ds == [] then []
    else
      var k := |ds| - 1;
      DrawBytes(ds[..k], m) + Blake3.BigEndian(Word32(ds[k] - k))
  }

  function PartyBytes(ps: seq<nat>): (b: seq<Byte>)
    ensures |b| == |ps|
  {
    if ps == [] then [] else PartyBytes(ps[..|ps| - 1]) + [FromNat(ps[|ps| - 1], 8)]
  }

  lemma SpellsPrefix(f: nat -> Byte, a: seq<Byte>, b: seq<Byte>)
    requires Spells(f, a + b)
    ensures Spells(f, a) && forall i :: 0 <= i < |b| ==> f(|a| + i) == b[i]
  {
    forall i | 0 <= i < |a|
      ensures f(i) == a[i]
    {
      assert (a + b)[i] == a[i];
    }
    forall i | 0 <= i < |b|
      ensures f(|a| + i) == b[i]
    {
      assert (a + b)[|a| + i] == b[i];
    }
  }

  lemma Small(v: nat, m: nat)
    requires v < m
    ensures v % m == v
  {
  }

  /** At least one whole round of residues is accepted. */
  lemma LimitCovers(bound: nat)
    requires 0 < bound <= WORDS
    ensures bound <= Limit(bound)
  {
    Multiple(WORDS, bound);
    Times(WORDS / bound, bound);
  }

  lemma PartyCovers(n: nat)
    requires 0 < n <= 256
    ensures n <= n * (256 / n)
  {
    assert 256 / n >= 1 by { DivMod(256, n); Times(256 / n, n); }
    Times(256 / n, n);
    assert n * (256 / n) == (256 / n) * n;
  }

  lemma FirstTry(f: nat -> Byte, at: nat, bound: nat)
    requires 0 < bound <= WORDS && WordAt(f, at) < bound
    ensures Below(f, at, bound, 1) == Some(FsExpand.Drawn(WordAt(f, at), at + 4))
  {
    hide WordAt, Limit;
    LimitCovers(bound);
    Small(WordAt(f, at), bound);
  }

  lemma FirstParty(f: nat -> Byte, at: nat, n: nat)
    requires 0 < n <= 256 && ToNat(f(at)) < n
    ensures ByteBelow(f, at, n, 1) == Some(FsExpand.Drawn(ToNat(f(at)), at + 1))
  {
    hide ToNat;
    PartyCovers(n);
    Small(ToNat(f(at)), n);
  }

  lemma FourSpelt(f: nat -> Byte, at: nat, b: seq<Byte>)
    requires |b| == 4 && forall i :: 0 <= i < 4 ==> f(at + i) == b[i]
    ensures [f(at), f(at + 1), f(at + 2), f(at + 3)] == b
  {
    assert b[0] == f(at + 0);
  }

  lemma DrawBytesStep(ds: seq<nat>, m: nat)
    requires Draws(ds, m) && ds != []
    ensures DrawBytes(ds, m) == DrawBytes(ds[..|ds| - 1], m) + Blake3.BigEndian(Word32(ds[|ds| - 1] - (|ds| - 1)))
  {
    hide Blake3.BigEndian, Word32;
  }

  lemma {:induction false} DrawsSpelt(f: nat -> Byte, ds: seq<nat>, m: nat)
    requires Draws(ds, m) && m <= WORDS && Spells(f, DrawBytes(ds, m))
    ensures DrawsFrom(f, m, |ds|, 1) == Some(Trail(ds, 4 * |ds|))
  {
    hide *;
    DrawsNone(f, m, 1);
    if ds != [] {
      DrawsPrefix(ds, m);
      DrawBytesStep(ds, m);
      var k := |ds| - 1;
      var word := Blake3.BigEndian(Word32(ds[k] - k));
      SpellsPrefix(f, DrawBytes(ds[..k], m), word);
      DrawsSpelt(f, ds[..k], m);
      FourSpelt(f, 4 * k, word);
      WordSpelt(f, 4 * k, ds[k] - k);
      FirstTry(f, 4 * k, m - k);
      DrawsStep(f, m, k, 1);
      assert ds == ds[..k] + [ds[k]];
    }
  }

  lemma {:induction false} PartiesSpelt(f: nat -> Byte, at: nat, ps: seq<nat>, n: nat)
    requires 0 < n <= 256 && (forall i :: 0 <= i < |ps| ==> ps[i] < n)
    requires forall i :: 0 <= i < |ps| ==> f(at + i) == PartyBytes(ps)[i]
    ensures PartiesFrom(f, at, n, |ps|, 1) == Some(Trail(ps, at + |ps|))
  {
    hide ByteBelow, ToNat, FromNat;
    if ps != [] {
      var k := |ps| - 1;
      var shorter := PartyBytes(ps[..k]);
      assert PartyBytes(ps) == shorter + [FromNat(ps[k], 8)];
      forall i | 0 <= i < k
        ensures f(at + i) == shorter[i]
      {
        assert PartyBytes(ps)[i] == shorter[i];
      }
      PartiesSpelt(f, at, ps[..k], n);
      assert PartyBytes(ps)[k] == f(at + k);
      ByteRead(ps[k]);
      FirstParty(f, at + k, n);
      assert ps == ps[..k] + [ps[k]];
    }
  }

  // ---- sorting what is sorted ----------------------------------------------

  lemma {:induction false} InsertedLast(s: seq<nat>, v: nat)
    requires forall i :: 0 <= i < |s| ==> s[i] < v
    ensures Inserted(s, v) == s + [v]
  {
    if s != [] {
      InsertedLast(s[1..], v);
      assert s + [v] == [s[0]] + (s[1..] + [v]);
    }
  }

  lemma SortStep(s: seq<nat>)
    ensures Sort(s) == if s == [] then [] else Inserted(Sort(s[..|s| - 1]), s[|s| - 1])
  {
    hide Inserted;
  }

  lemma IncreasingPrefix(s: seq<nat>)
    requires Increasing(s) && s != []
    ensures Increasing(s[..|s| - 1]) && forall i :: 0 <= i < |s| - 1 ==> s[i] < s[|s| - 1]
  {
  }

  lemma {:induction false} SortSorted(s: seq<nat>)
    requires Increasing(s)
    ensures Sort(s) == s
  {
    hide Sort, Inserted, Increasing;
    SortStep(s);
    if s != [] {
      var k := |s| - 1;
      IncreasingPrefix(s);
      SortSorted(s[..k]);
      InsertedLast(s[..k], s[k]);
      assert s == s[..k] + [s[k]];
    }
  }

  // ---- every challenge is reached ------------------------------------------

  /** A stream for a challenge: the draws that select its instances in order, then its parties. */
  lemma ChallengeSpelt(p: Params, c: Challenge) returns (b: seq<Byte>)
    requires p.Ok() && p.m <= WORDS && p.n <= 256 && GoodChallenge(p, c)
    ensures |b| == 5 * p.tau && forall f: nat -> Byte :: Spells(f, b) ==> Expand(p, f, 1) == Some(c)
  {
    hide Sort, Selection, DrawsFrom, PartiesFrom, DrawBytes, PartyBytes, Draws;
    var ds := SelectionSurjective(c.picks, p.m);
    SortSorted(c.picks);
    b := DrawBytes(ds, p.m) + PartyBytes(c.hidden);
    forall f: nat -> Byte | Spells(f, b)
      ensures Expand(p, f, 1) == Some(c)
    {
      SpellsPrefix(f, DrawBytes(ds, p.m), PartyBytes(c.hidden));
      DrawsSpelt(f, ds, p.m);
      PartiesSpelt(f, 4 * p.tau, c.hidden, p.n);
    }
  }

  /** Hash blocks whose stream starts with the given bytes, under every seed. */
  function BlocksOf(b: seq<Byte>): (D32, Word) -> D32
  {
    (seed: D32, ctr: Word) => BlockOf(b, ToNat(ctr))
  }

  function PaddedByte(b: seq<Byte>, i: nat): Byte
  {
    if i < |b| then b[i] else Zeros(8)
  }

  function BlockOf(b: seq<Byte>, k: nat): (r: D32)
    ensures forall i :: 0 <= i < 32 ==> r[i] == PaddedByte(b, 32 * k + i)
  {
    var r: seq<Bits> := seq(32, (i: nat) => PaddedByte(b, 32 * k + i));
    assert forall i :: 0 <= i < 32 ==> r[i] == PaddedByte(b, 32 * k + i);
    r
  }

  lemma StreamSpells(b: seq<Byte>, seed: D32)
    requires |b| <= 32 * WORDS
    ensures Spells(StreamOf(BlocksOf(b), seed), b)
  {
    hide ToNat, Word32, Pow2, BlockOf;
    var f := StreamOf(BlocksOf(b), seed);
    forall i | 0 <= i < |b|
      ensures f(i) == b[i]
    {
      var k := i / 32;
      assert i == 32 * k + i % 32;
      WordValue(k);
      assert f(i) == BlockOf(b, k)[i % 32];
    }
  }

  /** No challenge is out of reach: for every choice of instances and hidden parties there is a hash under which
      every seed expands to exactly that choice. */
  lemma EveryChallengeReached(p: Params, c: Challenge) returns (block: (D32, Word) -> D32)
    requires p.Ok() && p.m <= WORDS && p.n <= 256 && GoodChallenge(p, c)
    ensures forall seed: D32 :: Expand(p, StreamOf(block, seed), 1) == Some(c) && Expansion(p, block, seed) == Some(c)
  {
    hide Expand, Expansion, StreamOf, GoodChallenge;
    var b := ChallengeSpelt(p, c);
    block := BlocksOf(b);
    forall seed: D32
      ensures Expand(p, StreamOf(block, seed), 1) == Some(c) && Expansion(p, block, seed) == Some(c)
    {
      StreamSpells(b, seed);
      ExpansionGood(p, block, seed, 1);
    }
  }
}
