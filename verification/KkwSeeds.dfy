/** What the extendable output is cut into. Party seeds, random tapes and input shares are disjoint stretches of
    differently tagged streams, so any choice of all of them comes from some extendable output. */
module KkwSeeds {
  import opened Wrappers
  import opened Words
  import opened Blake3
  import opened Engine
  import opened KkwCodec
  import opened Kkw

  // ---- the cut -------------------------------------------------------------

  lemma DrawnSplits(sys: System, key: D32, s: Stream, from: nat, m: nat, n: nat)
    ensures Kkw.Drawn(sys, key, s, from, m + n) == Kkw.Drawn(sys, key, s, from, m) + Kkw.Drawn(sys, key, s, from + m, n)
  {
    hide DrawnByte;
    var a, b := Kkw.Drawn(sys, key, s, from, m + n), Kkw.Drawn(sys, key, s, from, m) + Kkw.Drawn(sys, key, s, from + m, n);
    forall i | 0 <= i < m + n
      ensures a[i] == b[i]
    {
      assert i >= m ==> from + m + (i - m) == from + i;
    }
  }

  lemma {:induction false} SeedsTo(sys: System, star: D32, k: nat)
    requires k <= sys.p.n
    ensures EncodeSeeds(Seeds(sys, star)[..k]) == Kkw.Drawn(sys, star, SeedStream, 0, 32 * k)
  {
    hide Kkw.Drawn;
    var seeds := Seeds(sys, star);
    if k > 0 {
      SeedsTo(sys, star, k - 1);
      assert seeds[..k][..k - 1] == seeds[..k - 1];
      DrawnSplits(sys, star, SeedStream, 0, 32 * (k - 1), 32);
      assert 32 * (k - 1) + 32 == 32 * k && 0 + 32 * (k - 1) == 32 * (k - 1);
    }
  }

  /** The parties' seeds, one after the other, are the first 32n bytes of the instance's stream. */
  lemma SeedsAreCut(sys: System, star: D32)
    ensures EncodeSeeds(Seeds(sys, star)) == Kkw.Drawn(sys, star, SeedStream, 0, 32 * sys.p.n)
  {
    hide Kkw.Drawn, EncodeSeeds;
    SeedsTo(sys, star, sys.p.n);
    assert Seeds(sys, star)[..sys.p.n] == Seeds(sys, star);
  }

  lemma {:induction false} TapeWordsTo(sys: System, seed: D32, from: nat, k: nat)
    requires k <= sys.p.ySize
    ensures EncodeWords(TapeWords(sys, seed, from)[..k]) == Kkw.Drawn(sys, seed, TapeStream, 4 * from, 4 * k)
  {
    hide Kkw.Drawn, LoadWord, LittleEndian;
    var ws := TapeWords(sys, seed, from);
    if k > 0 {
      TapeWordsTo(sys, seed, from, k - 1);
      assert ws[..k][..k - 1] == ws[..k - 1];
      DrawnSplits(sys, seed, TapeStream, 4 * from, 4 * (k - 1), 4);
      assert 4 * (k - 1) + 4 == 4 * k && 4 * from + 4 * (k - 1) == 4 * (from + (k - 1));
      ByteRoundTrip(Kkw.Drawn(sys, seed, TapeStream, 4 * (from + (k - 1)), 4));
    }
  }

  /** A party's tape, masks then products, is the first 8 * ySize bytes of its stream. */
  lemma TapeIsCut(sys: System, seed: D32)
    ensures EncodeWords(TapeOf(sys, seed).lam) + EncodeWords(TapeOf(sys, seed).prod) == Kkw.Drawn(sys, seed, TapeStream, 0, 8 * sys.p.ySize)
  {
    hide Kkw.Drawn, EncodeWords;
    var y := sys.p.ySize;
    TapeWordsTo(sys, seed, 0, y);
    TapeWordsTo(sys, seed, y, y);
    assert TapeWords(sys, seed, 0)[..y] == TapeWords(sys, seed, 0) && TapeWords(sys, seed, y)[..y] == TapeWords(sys, seed, y);
    DrawnSplits(sys, seed, TapeStream, 0, 4 * y, 4 * y);
    assert 4 * y + 4 * y == 8 * y;
  }

  // ---- any choice is some output -------------------------------------------

  function SeedByte(seeds: seq<D32>, at: nat): Byte
  {
    if at / 32 < |seeds| then seeds[at / 32][at % 32] else Zeros(8)
  }

  function WordByte(ws: seq<Word>, at: nat): Byte
  {
    if at / 4 < |ws| then LittleEndian(ws[at / 4])[at % 4] else Zeros(8)
  }

  function ShareByte(b: seq<Byte>, at: nat): Byte
  {
    if at < |b| then b[at] else Zeros(8)
  }

  function ChosenByte(seeds: seq<D32>, tape: Tape, share: seq<Byte>, s: Stream, at: nat): Byte
  {
    match s
    case SeedStream => SeedByte(seeds, at)
    case TapeStream => WordByte(tape.lam + tape.prod, at)
    case ShareStream => ShareByte(share, at)
  }

  /** The extendable output that expands every seed to the given party seeds, tape and input share. */
  function Chosen(seedsOf: D32 -> seq<D32>, tapeOf: D32 -> Tape, shareOf: D32 -> seq<Byte>): (D32, Stream, nat) -> Byte
  {
    (key: D32, s: Stream, at: nat) => ChosenByte(seedsOf(key), tapeOf(key), shareOf(key), s, at)
  }

  lemma ChosenSeeds(sys: System, star: D32, seeds: seq<D32>)
    requires |seeds| == sys.p.n && forall at: nat :: sys.xof(star, SeedStream, at) == SeedByte(seeds, at)
    ensures Seeds(sys, star) == seeds
  {
    forall i | 0 <= i < sys.p.n
      ensures Seeds(sys, star)[i] == seeds[i]
    {
      var a := Kkw.Drawn(sys, star, SeedStream, 32 * i, 32);
      forall k | 0 <= k < 32
        ensures a[k] == seeds[i][k]
      {
        assert (32 * i + k) / 32 == i && (32 * i + k) % 32 == k;
        assert a[k] == DrawnByte(sys, star, SeedStream, 32 * i + k);
      }
    }
  }

  lemma ChosenWord(sys: System, seed: D32, ws: seq<Word>, g: nat)
    requires g < |ws| && forall at: nat :: sys.xof(seed, TapeStream, at) == WordByte(ws, at)
    ensures TapeWord(sys, seed, g) == ws[g]
  {
    hide LoadWord, LittleEndian;
    var a := Kkw.Drawn(sys, seed, TapeStream, 4 * g, 4);
    forall k | 0 <= k < 4
      ensures a[k] == LittleEndian(ws[g])[k]
    {
      assert (4 * g + k) / 4 == g && (4 * g + k) % 4 == k;
      assert a[k] == DrawnByte(sys, seed, TapeStream, 4 * g + k);
    }
    assert a == LittleEndian(ws[g]);
    WordRoundTrip(ws[g]);
  }

  lemma ChosenTape(sys: System, seed: D32, tape: Tape)
    requires |tape.lam| == |tape.prod| == sys.p.ySize
    requires forall at: nat :: sys.xof(seed, TapeStream, at) == WordByte(tape.lam + tape.prod, at)
    ensures TapeOf(sys, seed) == tape
  {
    hide TapeWord, WordByte;
    var ws := tape.lam + tape.prod;
    forall g | 0 <= g < sys.p.ySize
      ensures TapeOf(sys, seed).lam[g] == tape.lam[g] && TapeOf(sys, seed).prod[g] == tape.prod[g]
    {
      ChosenWord(sys, seed, ws, g);
      ChosenWord(sys, seed, ws, sys.p.ySize + g);
      assert ws[g] == tape.lam[g] && ws[sys.p.ySize + g] == tape.prod[g];
      assert TapeOf(sys, seed).lam[g] == TapeWord(sys, seed, 0 + g);
    }
    assert TapeOf(sys, seed).lam == tape.lam && TapeOf(sys, seed).prod == tape.prod;
  }

  lemma ChosenShare(sys: System, seed: D32, share: seq<Byte>)
    requires |share| == sys.p.inputLen && forall at: nat :: sys.xof(seed, ShareStream, at) == ShareByte(share, at)
    ensures Kkw.Drawn(sys, seed, ShareStream, 0, sys.p.inputLen) == share
  {
    var a := Kkw.Drawn(sys, seed, ShareStream, 0, sys.p.inputLen);
    forall i | 0 <= i < sys.p.inputLen
      ensures a[i] == share[i]
    {
      assert a[i] == DrawnByte(sys, seed, ShareStream, 0 + i);
    }
  }

  /** Independence: whatever party seeds every instance seed is to have, and whatever tape and input share
      every party seed, some extendable output gives exactly these, all at once. So no two of the values a
      prover draws share a byte: what is revealed of some of them tells nothing about the others. */
  lemma StreamsIndependent(sys: System, seedsOf: D32 -> seq<D32>, tapeOf: D32 -> Tape, shareOf: D32 -> seq<Byte>)
    returns (xof: (D32, Stream, nat) -> Byte)
    requires forall k: D32 :: |seedsOf(k)| == sys.p.n
    requires forall k: D32 :: |tapeOf(k).lam| == |tapeOf(k).prod| == sys.p.ySize
    requires forall k: D32 :: |shareOf(k)| == sys.p.inputLen
    ensures var sys' := sys.(xof := xof);
            && (forall star: D32 :: Seeds(sys', star) == seedsOf(star))
            && (forall seed: D32 :: TapeOf(sys', seed) == tapeOf(seed))
            && forall seeds: seq<D32>, i :: 0 <= i < |seeds| ==> Lams(sys', seeds)[i] == shareOf(seeds[i])
  {
    hide Seeds, TapeOf, Kkw.Drawn, SeedByte, WordByte, ShareByte;
    xof := Chosen(seedsOf, tapeOf, shareOf);
    var sys' := sys.(xof := xof);
    forall star: D32
      ensures Seeds(sys', star) == seedsOf(star)
    {
      ChosenSeeds(sys', star, seedsOf(star));
    }
    forall seed: D32
      ensures TapeOf(sys', seed) == tapeOf(seed)
    {
      ChosenTape(sys', seed, tapeOf(seed));
    }
    forall seeds: seq<D32>, i | 0 <= i < |seeds|
      ensures Lams(sys', seeds)[i] == shareOf(seeds[i])
    {
      ChosenShare(sys', seeds[i], shareOf(seeds[i]));
    }
  }
}
