/** An opened instance gives nothing away about the witness but its outputs: for any other witness with the same outputs
    there is a tape and an input share of the hidden party under which the very same bytes are opened. */
module KkwHiding {
  import opened Wrappers
  import opened Words
  import opened Sharing
  import opened Engine
  import opened Builder
  import opened KkwCodec
  import opened Kkw
  import opened KkwTheorems
  import opened KkwSeeds
  import opened Hiding

  // ---- the input share -----------------------------------------------------

  /** The share under which party e masks y where it masked x. */
  function NewShare(share: seq<Byte>, x: seq<Byte>, y: seq<Byte>): (r: seq<Byte>)
    requires |share| == |x| == |y|
    ensures |r| == |share| && forall b :: 0 <= b < |r| ==> r[b] == XorByte(share[b], XorByte(x[b], y[b]))
  {
    var r: seq<Bits> := seq(|share|, b requires 0 <= b < |share| => XorByte(share[b], XorByte(x[b], y[b])));
    assert forall b :: 0 <= b < |share| ==> r[b] == XorByte(share[b], XorByte(x[b], y[b]));
    r
  }

  lemma ColumnPatched(lams: seq<seq<Byte>>, e: nat, share: seq<Byte>, b: nat)
    requires e < |lams| && b < |share| && forall i :: 0 <= i < |lams| ==> b < |lams[i]|
    ensures Column(lams[e := share], b) == Column(lams, b)[e := Ext(share[b])]
  {
    hide Ext;
  }

  lemma ExtApart(a: Byte, b: Byte)
    requires Ext(a) == Ext(b)
    ensures a == b
  {
    forall k | 0 <= k < 8
      ensures a[k] == b[k]
    {
      assert Ext(a)[k] == Ext(b)[k];
    }
  }

  lemma MaskMoves(x: Word, y: Word, s: Word, l: Word)
    ensures Xor(y, Xor(s, Xor(l, Xor(l, Xor(x, y))))) == Xor(x, s)
  {
  }

  lemma MaskByteKept(x: Byte, y: Byte, lams: seq<seq<Byte>>, e: nat, share: seq<Byte>, b: nat)
    requires e < |lams| && b < |share| && forall i :: 0 <= i < |lams| ==> b < |lams[i]|
    requires share[b] == XorByte(lams[e][b], XorByte(x, y))
    ensures MaskByte(y, lams[e := share], b) == MaskByte(x, lams, b)
  {
    hide Ext, Xor, MaskByte, XorAll, XorByte;
    ByteUnmasks(x, lams, b);
    ByteUnmasks(y, lams[e := share], b);
    ColumnPatched(lams, e, share, b);
    XorAllPatched(Column(lams, b), e, Ext(share[b]));
    ExtXor(lams[e][b], XorByte(x, y));
    ExtXor(x, y);
    MaskMoves(Ext(x), Ext(y), XorAll(Column(lams, b)), Ext(lams[e][b]));
    ExtApart(MaskByte(y, lams[e := share], b), MaskByte(x, lams, b));
  }

  lemma MaskedKept(x: seq<Byte>, y: seq<Byte>, lams: seq<seq<Byte>>, e: nat)
    requires |x| == |y| && e < |lams| && Widths(lams, |x|)
    ensures Widths(lams[e := NewShare(lams[e], x, y)], |x|) && Masked(y, lams[e := NewShare(lams[e], x, y)]) == Masked(x, lams)
  {
    hide MaskByte, XorByte;
    var ms := lams[e := NewShare(lams[e], x, y)];
    forall b | 0 <= b < |x|
      ensures Masked(y, ms)[b] == Masked(x, lams)[b]
    {
      MaskByteKept(x[b], y[b], lams, e, ms[e], b);
    }
  }

  lemma InputsLookSame(d: seq<Byte>, lams: seq<seq<Byte>>, e: nat, share: seq<Byte>, m: D32, s: D16)
    requires e < |lams| && Widths(lams, |d|) && |share| == |d|
    ensures AllLookSame(AllIns(d, lams, m, s), AllIns(d, lams[e := share], m, s), e)
  {
    hide Ext;
    var ms := lams[e := share];
    var a, b := AllIns(d, lams, m, s), AllIns(d, ms, m, s);
    forall k | 0 <= k < |a|
      ensures LooksSame(a[k], b[k], e)
    {
      if k < |d| {
        assert a[k] == Mw(Ext(d[k]), Column(lams, k)) && b[k] == Mw(Ext(d[k]), Column(ms, k));
      } else {
        assert a[k] == Publics(m + s, |lams|)[k - |d|] && b[k] == Publics(m + s, |ms|)[k - |d|];
      }
    }
  }

  // ---- the extendable output -----------------------------------------------

  function PatchedByte(sys: System, key: D32, tape: Tape, share: seq<Byte>, k: D32, s: Stream, at: nat): Byte
  {
    if k == key && s != SeedStream then ChosenByte([], tape, share, s, at) else sys.xof(k, s, at)
  }

  /** The same output but for the tape and the input share of one seed. */
  function Patched(sys: System, key: D32, tape: Tape, share: seq<Byte>): (D32, Stream, nat) -> Byte
  {
    (k: D32, s: Stream, at: nat) => PatchedByte(sys, key, tape, share, k, s, at)
  }

  lemma SameDrawn(a: System, b: System, key: D32, s: Stream, from: nat, n: nat)
    requires forall at: nat :: a.xof(key, s, at) == b.xof(key, s, at)
    ensures Drawn(a, key, s, from, n) == Drawn(b, key, s, from, n)
  {
    forall i | 0 <= i < n
      ensures Drawn(a, key, s, from, n)[i] == Drawn(b, key, s, from, n)[i]
    {
      assert DrawnByte(a, key, s, from + i) == DrawnByte(b, key, s, from + i);
    }
  }

  lemma SameSeeds(a: System, b: System, star: D32)
    requires a.p == b.p && forall at: nat :: a.xof(star, SeedStream, at) == b.xof(star, SeedStream, at)
    ensures Seeds(a, star) == Seeds(b, star)
  {
    hide Drawn;
    forall i | 0 <= i < a.p.n
      ensures Seeds(a, star)[i] == Seeds(b, star)[i]
    {
      SameDrawn(a, b, star, SeedStream, 32 * i, 32);
    }
  }

  lemma SameTape(a: System, b: System, seed: D32)
    requires a.p == b.p && forall at: nat :: a.xof(seed, TapeStream, at) == b.xof(seed, TapeStream, at)
    ensures TapeOf(a, seed) == TapeOf(b, seed)
  {
    hide Drawn;
    var x, y := TapeOf(a, seed), TapeOf(b, seed);
    forall g | 0 <= g < a.p.ySize
      ensures x.lam[g] == y.lam[g] && x.prod[g] == y.prod[g]
    {
      SameDrawn(a, b, seed, TapeStream, 4 * (0 + g), 4);
      SameDrawn(a, b, seed, TapeStream, 4 * (a.p.ySize + g), 4);
    }
    assert x.lam == y.lam && x.prod == y.prod;
  }

  /** Under the patched output the hidden party has the new tape and share, and the others what they had. */
  lemma PatchedSystem(sys: System, star: D32, e: nat, tape: Tape, share: seq<Byte>)
    requires e < sys.p.n && |tape.lam| == |tape.prod| == sys.p.ySize && |share| == sys.p.inputLen
    requires forall i :: 0 <= i < sys.p.n && i != e ==> Seeds(sys, star)[i] != Seeds(sys, star)[e]
    ensures var seeds := Seeds(sys, star);
            var sys' := sys.(xof := Patched(sys, seeds[e], tape, share));
            && Seeds(sys', star) == seeds && Tapes(sys', seeds) == Tapes(sys, seeds)[e := tape] && Lams(sys', seeds) == Lams(sys, seeds)[e := share]
  {
    hide Seeds, TapeOf, Drawn, WordByte, ShareByte;
    var seeds := Seeds(sys, star);
    var sys' := sys.(xof := Patched(sys, seeds[e], tape, share));
    SameSeeds(sys, sys', star);
    forall i | 0 <= i < sys.p.n
      ensures Tapes(sys', seeds)[i] == Tapes(sys, seeds)[e := tape][i] && Lams(sys', seeds)[i] == Lams(sys, seeds)[e := share][i]
    {
      if i == e {
        forall at: nat
          ensures sys'.xof(seeds[e], TapeStream, at) == WordByte(tape.lam + tape.prod, at)
          ensures sys'.xof(seeds[e], ShareStream, at) == ShareByte(share, at)
        {
        }
        ChosenTape(sys', seeds[e], tape);
        ChosenShare(sys', seeds[e], share);
      } else {
        SameTape(sys, sys', seeds[i]);
        SameDrawn(sys, sys', seeds[i], ShareStream, 0, sys.p.inputLen);
      }
    }
  }

  // ---- the outputs ---------------------------------------------------------

  lemma XorPins(a: seq<Word>, b: seq<Word>, e: nat)
    requires SameBut(a, b, e) && e < |a| && XorAll(a) == XorAll(b)
    ensures a == b
  {
    hide XorAll;
    assert Without(a, e) == Without(b, e);
    XorAllWithout(a, e);
    XorAllWithout(b, e);
    Cancel(a[e], b[e], XorAll(Without(a, e)));
    assert a == b;
  }

  lemma Cancel(a: Word, b: Word, c: Word)
    requires Xor(a, c) == Xor(b, c)
    ensures a == b
  {
    forall i | 0 <= i < 32
      ensures a[i] == b[i]
    {
      assert Xor(a, c)[i] == Xor(b, c)[i];
    }
  }

  lemma CancelPublic(h: Word, a: Word, b: Word)
    requires Xor(h, a) == Xor(h, b)
    ensures a == b
  {
    XorCommutes(h, a);
    XorCommutes(h, b);
    Cancel(a, b, h);
  }

  lemma WiresShareOutputs(sys: System, wires: seq<Mw>, w: nat)
    requires HasOuts(sys, wires, sys.p.n) && w < |sys.outs|
    ensures WordShares(OutShares(sys, wires, sys.p.n), w) == wires[sys.outs[w]].l
  {
  }

  /** Wires that look the same to all but party e, with the same outputs, have the same output shares. */
  lemma OutSharesPinned(sys: System, a: seq<Mw>, b: seq<Mw>, e: nat)
    requires HasOuts(sys, a, sys.p.n) && HasOuts(sys, b, sys.p.n) && AllLookSame(a, b, e) && e < sys.p.n
    requires Recombined(Public(sys, a, sys.p.n), OutShares(sys, a, sys.p.n)) == Recombined(Public(sys, b, sys.p.n), OutShares(sys, b, sys.p.n))
    ensures OutShares(sys, a, sys.p.n) == OutShares(sys, b, sys.p.n)
  {
    hide Xor, XorAll;
    var za, ya, zb, yb := Public(sys, a, sys.p.n), OutShares(sys, a, sys.p.n), Public(sys, b, sys.p.n), OutShares(sys, b, sys.p.n);
    forall w | 0 <= w < |sys.outs|
      ensures a[sys.outs[w]].l == b[sys.outs[w]].l
    {
      assert LooksSame(a[sys.outs[w]], b[sys.outs[w]], e);
      WiresShareOutputs(sys, a, w);
      WiresShareOutputs(sys, b, w);
      assert Recombined(za, ya)[w] == Recombined(zb, yb)[w];
      CancelPublic(za[w], XorAll(a[sys.outs[w]].l), XorAll(b[sys.outs[w]].l));
      XorPins(a[sys.outs[w]].l, b[sys.outs[w]].l, e);
    }
    forall i | 0 <= i < sys.p.n
      ensures ShareRow(sys, a, sys.p.n, i) == ShareRow(sys, b, sys.p.n, i)
    {
    }
  }

  // ---- one opened instance -------------------------------------------------

  /** Two systems and witnesses under which the prover opens the same bytes and hashes to the same digests. */
  ghost predicate OpensAlike(sys: System, sys': System, m: D32, s: D16, x: seq<Byte>, y: seq<Byte>, star: D32, r: D32, e: nat)
    requires sys.Good() && sys'.Good() && sys.p == sys'.p && |x| == |y| == sys.p.inputLen && e < sys.p.n
  {
    && HonestOpened(sys', m, s, y, star, r, e) == HonestOpened(sys, m, s, x, star, r, e)
    && HonestDigests(sys', m, s, y, star, r) == HonestDigests(sys, m, s, x, star, r)
  }

  /** Views that look the same to all but party e, with the same output shares, are opened alike. */
  lemma SameViewsOpenAlike(sys: System, sys': System, m: D32, s: D16, x: seq<Byte>, y: seq<Byte>, star: D32, r: D32, e: nat)
    requires sys.Good() && sys'.Good() && sys' == sys.(xof := sys'.xof) && |x| == |y| == sys.p.inputLen && e < sys.p.n
    requires Seeds(sys', star) == Seeds(sys, star) && HonestMasked(sys', y, star) == HonestMasked(sys, x, star)
    requires ViewsLookSame(HonestView(sys, m, s, x, star), HonestView(sys', m, s, y, star), e)
    requires PlainOutputs(sys, m, s, x) == PlainOutputs(sys, m, s, y)
    ensures OpensAlike(sys, sys', m, s, x, y, star, r, e)
  {
    var v, v' := HonestView(sys, m, s, x, star), HonestView(sys', m, s, y, star);
    assert HasOuts(sys, v.wires, sys.p.n) && HasOuts(sys', v'.wires, sys.p.n);
    hide HonestView, HonestMasked, Seeds, PlainOutputs, AllLookSame, Recombined, ShareRow, PartyRow, EncodeRows, EncodeSeeds, PartyPreimage;
    OutputsArePlain(sys, m, s, x, star);
    OutputsArePlain(sys', m, s, y, star);
    SamePlain(sys, sys', m, s, y);
    SamePublic(sys, sys', v'.wires);
    OutSharesPinned(sys, v.wires, v'.wires, e);
    SameComs(sys, sys', Seeds(sys, star), v.aux);
  }

  lemma SamePlain(sys: System, sys': System, m: D32, s: D16, y: seq<Byte>)
    requires sys.Good() && sys'.Good() && sys' == sys.(xof := sys'.xof) && |y| == sys.p.inputLen
    ensures PlainOutputs(sys', m, s, y) == PlainOutputs(sys, m, s, y)
  {
  }

  lemma SamePublic(sys: System, sys': System, wires: seq<Mw>)
    requires sys' == sys.(xof := sys'.xof) && HasOuts(sys', wires, sys.p.n)
    ensures HasOuts(sys, wires, sys.p.n) && Public(sys', wires, sys.p.n) == Public(sys, wires, sys.p.n)
    ensures OutShares(sys', wires, sys.p.n) == OutShares(sys, wires, sys.p.n)
  {
    forall i | 0 <= i < sys.p.n
      ensures ShareRow(sys', wires, sys.p.n, i) == ShareRow(sys, wires, sys.p.n, i)
    {
    }
  }

  lemma SameComs(sys: System, sys': System, seeds: seq<D32>, aux: seq<Word>)
    requires sys' == sys.(xof := sys'.xof)
    ensures Coms(sys', seeds, aux) == Coms(sys, seeds, aux)
  {
    hide PartyPreimage;
  }

  /** Party seeds are pairwise different from the hidden one. */
  ghost predicate HiddenApart(sys: System, star: D32, e: nat)
    requires e < sys.p.n
  {
    forall i :: 0 <= i < sys.p.n && i != e ==> Seeds(sys, star)[i] != Seeds(sys, star)[e]
  }

  /** xof differs from the system's on one party seed only, in its tape and input share, and under it y is opened
      as x was. */
  ghost predicate Explains(sys: System, xof: (D32, Stream, nat) -> Byte, m: D32, s: D16, x: seq<Byte>, y: seq<Byte>, star: D32, r: D32, e: nat)
  {
    && sys.Good() && e < sys.p.n && |x| == |y| == sys.p.inputLen
    && (forall k: D32, st: Stream, at: nat :: k != Seeds(sys, star)[e] || st == SeedStream ==> xof(k, st, at) == sys.xof(k, st, at))
    && sys.(xof := xof).Good() && OpensAlike(sys, sys.(xof := xof), m, s, x, y, star, r, e)
  }

  /** Witness hiding, one instance: for every pair of witnesses with the same outputs and every hidden party with a
      seed of its own, some extendable output that differs on that one seed only, in its tape and input share, makes
      the second witness open to exactly what the first one did, digests included. So what an opening shows
      is as much a proof from the one as from the other. */
  lemma OpeningHides(sys: System, m: D32, s: D16, x: seq<Byte>, y: seq<Byte>, star: D32, r: D32, e: nat) returns (xof: (D32, Stream, nat) -> Byte)
    requires sys.Good() && |x| == |y| == sys.p.inputLen && e < sys.p.n && HiddenApart(sys, star, e)
    requires PlainOutputs(sys, m, s, x) == PlainOutputs(sys, m, s, y)
    ensures Explains(sys, xof, m, s, x, y, star, r, e)
  {
    var seeds := Seeds(sys, star);
    var lams, tapes := Lams(sys, seeds), Tapes(sys, seeds);
    var share, d := NewShare(lams[e], x, y), Masked(x, lams);
    hide Seeds, Drawn, TapeOf, PlainOutputs, Masked, OpensAlike, ChosenByte, ProveRun, ViewsLookSame, AllIns, NewShare, Lams, Tapes, Legal, Cost;
    MaskedKept(x, y, lams, e);
    InputsLookSame(d, lams, e, share, m, s);
    var tape := RunHides(sys.circuit, AllIns(d, lams, m, s), AllIns(d, lams[e := share], m, s), tapes, e);
    PatchedSystem(sys, star, e, tape, share);
    xof := Patched(sys, seeds[e], tape, share);
    SameViewsOpenAlike(sys, sys.(xof := xof), m, s, x, y, star, r, e);
  }
}
