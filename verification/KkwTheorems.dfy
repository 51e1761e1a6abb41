/** What the protocol is for: an honest proof is accepted whatever the seeds, nonce and challenge, and
    accepted proofs that share a first message yield a witness. */
module KkwTheorems {
  import opened Wrappers
  import opened Words
  import opened Sharing
  import opened Gates
  import opened Engine
  import opened Builder
  import opened KkwCodec
  import opened Kkw

  /** The circuit's eight output words on a witness in the clear. */
  ghost function PlainOutputs(sys: System, m: D32, s: D16, input: seq<Byte>): (r: seq<Word>)
    requires sys.Good() && |input| == sys.p.inputLen
    ensures |r| == 8
  {
    var ws := PlainRun(sys.circuit, AllGiven(input, m, s));
    seq(8, w requires 0 <= w < 8 => ws[sys.outs[w]])
  }

  // ---- the honest prover ---------------------------------------------------

  ghost function HonestMasked(sys: System, input: seq<Byte>, star: D32): (d: seq<Byte>)
    requires |input| == sys.p.inputLen
    ensures |d| == |input|
  {
    Masked(input, Lams(sys, Seeds(sys, star)))
  }

  ghost function HonestView(sys: System, m: D32, s: D16, input: seq<Byte>, star: D32): (v: View)
    requires sys.Good() && |input| == sys.p.inputLen
    ensures ValidView(v, sys.p.n, sys.p.ySize) && HasOuts(sys, v.wires, sys.p.n)
  {
    Run(sys, m, s, HonestMasked(sys, input, star), Seeds(sys, star))
  }

  ghost function HonestDigests(sys: System, m: D32, s: D16, input: seq<Byte>, star: D32, r: D32): Digest3
    requires sys.Good() && |input| == sys.p.inputLen
  {
    var v := HonestView(sys, m, s, input, star);
    Digest3(HjOf(sys, Coms(sys, Seeds(sys, star), v.aux)),
            HPrimeOf(sys, HonestMasked(sys, input, star), PartyRows(v.cols, sys.p.n), r),
            HOutOf(sys, OutShares(sys, v.wires, sys.p.n)))
  }

  ghost function HonestOpened(sys: System, m: D32, s: D16, input: seq<Byte>, star: D32, r: D32, e: nat): (o: Opened)
    requires sys.Good() && |input| == sys.p.inputLen && e < sys.p.n
    ensures OpenedShape(sys.p, o, e)
  {
    var v, seeds := HonestView(sys, m, s, input, star), Seeds(sys, star);
    Opened(PartyCom(sys, e, seeds[e], v.aux), OutShares(sys, v.wires, sys.p.n), Without(seeds, e),
           HonestMasked(sys, input, star), if e == 0 then ZeroWords(sys.p.ySize) else v.aux,
           Messages(v.cols, e, sys.p.n), r)
  }

  ghost function AllHonest(sys: System, m: D32, s: D16, input: seq<Byte>, stars: seq<D32>, rs: seq<D32>): (ds: seq<Digest3>)
    requires sys.Good() && |input| == sys.p.inputLen && |stars| == |rs|
    ensures |ds| == |stars| && forall j :: 0 <= j < |ds| ==> ds[j] == HonestDigests(sys, m, s, input, stars[j], rs[j])
  {
    seq(|stars|, j requires 0 <= j < |stars| => HonestDigests(sys, m, s, input, stars[j], rs[j]))
  }

  ghost function HonestStar(sys: System, m: D32, s: D16, input: seq<Byte>, stars: seq<D32>, rs: seq<D32>): D32
    requires sys.Good() && |input| == sys.p.inputLen && |stars| == |rs|
  {
    StarOf(sys, Split(AllHonest(sys, m, s, input, stars, rs)))
  }

  ghost function HonestClosed(ds: seq<Digest3>, stars: seq<D32>, inC: seq<bool>): (r: seq<Closed>)
    requires |ds| == |stars| == |inC|
    ensures |r| == |stars|
    ensures forall j :: 0 <= j < |r| ==> r[j] == if inC[j] then BLANK else Closed(stars[j], ds[j].hPrime)
  {
    seq(|stars|, j requires 0 <= j < |stars| => if inC[j] then BLANK else Closed(stars[j], ds[j].hPrime))
  }

  ghost function HonestOpenings(sys: System, m: D32, s: D16, input: seq<Byte>, stars: seq<D32>, rs: seq<D32>, c: Challenge): (r: seq<Opened>)
    requires sys.Good() && |input| == sys.p.inputLen && |stars| == |rs| == sys.p.m && GoodChallenge(sys.p, c)
    ensures |r| == sys.p.tau
    ensures forall k :: 0 <= k < |r| ==> r[k] == HonestOpened(sys, m, s, input, stars[c.picks[k]], rs[c.picks[k]], c.hidden[k])
  {
    seq(sys.p.tau, k requires 0 <= k < sys.p.tau => HonestOpened(sys, m, s, input, stars[c.picks[k]], rs[c.picks[k]], c.hidden[k]))
  }

  ghost function HonestProof(sys: System, m: D32, s: D16, input: seq<Byte>, stars: seq<D32>, rs: seq<D32>,
                             nonce: D32, ctr: Word, c: Challenge): (pf: Proof)
    requires sys.Good() && |input| == sys.p.inputLen && |stars| == |rs| == sys.p.m && GoodChallenge(sys.p, c)
    ensures Shaped(sys, pf, c)
  {
    hide StarOf, Split, HonestDigests, HonestOpened, HonestView;
    var ds := AllHonest(sys, m, s, input, stars, rs);
    Proof(nonce, StarOf(sys, Split(ds)), ctr, HonestClosed(ds, stars, Mark(c, sys.p.m)),
          HonestOpenings(sys, m, s, input, stars, rs, c))
  }

  // ---- completeness --------------------------------------------------------

  lemma HiddenInputs(d: seq<Byte>, lams: seq<seq<Byte>>, m: D32, s: D16, e: nat)
    requires Widths(lams, |d|) && e < |lams|
    ensures HideAll(AllIns(d, lams, m, s), e, |lams|) == AllIns(d, Without(lams, e), m, s)
  {
    var a, b := HideAll(AllIns(d, lams, m, s), e, |lams|), AllIns(d, Without(lams, e), m, s);
    forall k | 0 <= k < |a|
      ensures a[k] == b[k]
    {
      if k < |d| {
        assert Without(Column(lams, k), e) == Column(Without(lams, e), k);
      } else {
        assert Without(ZeroWords(|lams|), e) == ZeroWords(|lams| - 1);
      }
    }
  }

  lemma HiddenSeeds(sys: System, seeds: seq<D32>, e: nat)
    requires e < |seeds|
    ensures Lams(sys, Without(seeds, e)) == Without(Lams(sys, seeds), e)
    ensures Tapes(sys, Without(seeds, e)) == Without(Tapes(sys, seeds), e)
  {
  }

  /** What the two sides compute from the same seeds: the closed form on nothing but the seeds has the
      corrections and output shares of every run under them. */
  lemma SeedsDetermine(sys: System, m: D32, s: D16, d: seq<Byte>, seeds: seq<D32>)
    requires sys.Good() && |d| == sys.p.inputLen && |seeds| == sys.p.n
    ensures Preprocessed(sys, seeds).aux == Run(sys, m, s, d, seeds).aux
    ensures OutShares(sys, Preprocessed(sys, seeds).wires, sys.p.n) == OutShares(sys, Run(sys, m, s, d, seeds).wires, sys.p.n)
  {
    var lams, tapes := Lams(sys, seeds), Tapes(sys, seeds);
    var ins, ins' := AllIns(Blank(sys.p.inputLen), lams, Blank(32), Blank(16)), AllIns(d, lams, m, s);
    PreprocessingIndependent(sys.circuit, sys.circuit, ins, ins', tapes);
    var v, v' := Preprocessed(sys, seeds), Run(sys, m, s, d, seeds);
    assert SameMasks(v.wires, v'.wires);
    forall i | 0 <= i < sys.p.n
      ensures ShareRow(sys, v.wires, sys.p.n, i) == ShareRow(sys, v'.wires, sys.p.n, i)
    {
    }
  }

  /** Hiding one party of a full run gives exactly the verifier's replay of it. */
  lemma ReplayIsHiddenRun(sys: System, m: D32, s: D16, seeds: seq<D32>, o: Opened, e: nat)
    requires sys.Good() && |seeds| == sys.p.n && e < sys.p.n && OpenedShape(sys.p, o, e)
    requires o.ke == Without(seeds, e)
    requires var v := Run(sys, m, s, o.x, seeds);
             o.msgs == Messages(v.cols, e, sys.p.n) && (e != 0 ==> o.aux == v.aux)
    ensures var v := Run(sys, m, s, o.x, seeds);
            Replayed(sys, m, s, o, e) == Replay(HideAll(v.wires, e, sys.p.n), HideCols(v.cols, e, sys.p.n))
  {
    var gs := sys.circuit;
    HiddenSeeds(sys, seeds, e);
    HiddenInputs(o.x, Lams(sys, seeds), m, s, e);
    VerifierReplays(gs, AllIns(o.x, Lams(sys, seeds), m, s), Tapes(sys, seeds), e, o.msgs, o.aux);
  }

  lemma HiddenOutputs(sys: System, wires: seq<Mw>, e: nat)
    requires |sys.outs| == 8 && HasOuts(sys, wires, sys.p.n) && e < sys.p.n && sys.p.n >= 2
    ensures HasOuts(sys, HideAll(wires, e, sys.p.n), sys.p.n - 1)
    ensures Public(sys, HideAll(wires, e, sys.p.n), sys.p.n - 1) == Public(sys, wires, sys.p.n)
    ensures forall j :: 0 <= j < sys.p.n - 1 ==>
              ShareRow(sys, HideAll(wires, e, sys.p.n), sys.p.n - 1, j) == ShareRow(sys, wires, sys.p.n, Orig(j, e))
  {
  }

  lemma FilledIsFull(cols: seq<seq<Word>>, e: nat, n: nat)
    requires e < n && forall g :: 0 <= g < |cols| ==> |cols[g]| == n
    ensures FilledRows(HideCols(cols, e, n), Messages(cols, e, n), e, n) == PartyRows(cols, n)
  {
    var a, b := FilledRows(HideCols(cols, e, n), Messages(cols, e, n), e, n), PartyRows(cols, n);
    forall i | 0 <= i < n
      ensures a[i] == b[i]
    {
      if i != e {
        assert a[i] == PartyRow(HideCols(cols, e, n), SlotOfParty(i, e));
        assert PartyRow(HideCols(cols, e, n), SlotOfParty(i, e)) == PartyRow(cols, i);
      }
    }
  }

  /** The commitments a verifier assembles around the hidden one are all parties' commitments. */
  lemma FilledComsAreComs(sys: System, o: Opened, seeds: seq<D32>, aux: seq<Word>, e: nat)
    requires OpenedShape(sys.p, o, e) && e < sys.p.n == |seeds| && o.ke == Without(seeds, e)
    requires o.com == PartyCom(sys, e, seeds[e], aux) && (e != 0 ==> o.aux == aux)
    ensures FilledComs(sys, o, e) == Coms(sys, seeds, aux)
  {
    var a, b := FilledComs(sys, o, e), Coms(sys, seeds, aux);
    forall i | 0 <= i < sys.p.n
      ensures a[i] == b[i]
    {
      if i != e {
        assert o.ke[SlotOfParty(i, e)] == seeds[i];
      }
    }
  }

  lemma HonestReplay(sys: System, m: D32, s: D16, input: seq<Byte>, star: D32, r: D32, e: nat)
    requires sys.Good() && |input| == sys.p.inputLen && e < sys.p.n
    ensures var v := HonestView(sys, m, s, input, star);
            Replayed(sys, m, s, HonestOpened(sys, m, s, input, star, r, e), e)
            == Replay(HideAll(v.wires, e, sys.p.n), HideCols(v.cols, e, sys.p.n))
  {
    hide HasOuts, Replayed, Run;
    ReplayIsHiddenRun(sys, m, s, Seeds(sys, star), HonestOpened(sys, m, s, input, star, r, e), e);
  }

  /** An opened honest instance gives back the prover's digests. */
  lemma OpenedHonestDigests(sys: System, m: D32, s: D16, input: seq<Byte>, star: D32, r: D32, e: nat)
    requires sys.Good() && |input| == sys.p.inputLen && e < sys.p.n
    ensures OpenedDigests(sys, m, s, HonestOpened(sys, m, s, input, star, r, e), e) == HonestDigests(sys, m, s, input, star, r)
  {
    hide HasOuts, Replayed, HonestView, PartyCom;
    var o, v, seeds := HonestOpened(sys, m, s, input, star, r, e), HonestView(sys, m, s, input, star), Seeds(sys, star);
    HonestReplay(sys, m, s, input, star, r, e);
    FilledIsFull(v.cols, e, sys.p.n);
    FilledComsAreComs(sys, o, seeds, v.aux, e);
  }

  /** It passes its checks iff the recombined output is the public one. */
  lemma OpenedHonestAccepted(sys: System, m: D32, s: D16, pub: seq<Word>, input: seq<Byte>, star: D32, r: D32, e: nat)
    requires sys.Good() && |input| == sys.p.inputLen && e < sys.p.n
    ensures var o, v := HonestOpened(sys, m, s, input, star, r, e), HonestView(sys, m, s, input, star);
            OpenedAccepted(sys, m, s, pub, o, e) <==>
              Recombined(Public(sys, v.wires, sys.p.n), OutShares(sys, v.wires, sys.p.n)) == pub
  {
    hide Replayed, HonestView, PartyCom, ShareRow;
    var v := HonestView(sys, m, s, input, star);
    HonestReplay(sys, m, s, input, star, r, e);
    HiddenOutputs(sys, v.wires, e);
  }

  lemma ClosedIsHonest(sys: System, m: D32, s: D16, input: seq<Byte>, star: D32, r: D32)
    requires sys.Good() && |input| == sys.p.inputLen
    ensures ClosedDigests(sys, Closed(star, HonestDigests(sys, m, s, input, star, r).hPrime)) == HonestDigests(sys, m, s, input, star, r)
  {
    assert HasOuts(sys, HonestView(sys, m, s, input, star).wires, sys.p.n);
    SeedsDetermine(sys, m, s, HonestMasked(sys, input, star), Seeds(sys, star));
  }

  /** What the prover checks before it goes on is the plain circuit's output. */
  lemma OutputsArePlain(sys: System, m: D32, s: D16, input: seq<Byte>, star: D32)
    requires sys.Good() && |input| == sys.p.inputLen
    ensures var v := HonestView(sys, m, s, input, star);
            Recombined(Public(sys, v.wires, sys.p.n), OutShares(sys, v.wires, sys.p.n)) == PlainOutputs(sys, m, s, input)
  {
    var v, gs := HonestView(sys, m, s, input, star), sys.circuit;
    var lams := Lams(sys, Seeds(sys, star));
    var zh, yp := Public(sys, v.wires, sys.p.n), OutShares(sys, v.wires, sys.p.n);
    InputUnmasks(input, lams, m, s);
    ProverUnmasks(gs, AllIns(HonestMasked(sys, input, star), lams, m, s), Tapes(sys, Seeds(sys, star)));
    forall w | 0 <= w < 8
      ensures Recombined(zh, yp)[w] == PlainOutputs(sys, m, s, input)[w]
    {
      assert WordShares(yp, w) == v.wires[sys.outs[w]].l;
      assert UnmaskAll(v.wires)[sys.outs[w]] == Unmask(v.wires[sys.outs[w]]);
    }
  }

  lemma {:induction false} PlacedIs<T>(base: seq<T>, at: seq<nat>, vals: seq<T>, k: nat, want: seq<T>)
    requires k <= |at| == |vals| && (forall i :: 0 <= i < |at| ==> at[i] < |base|) && |want| == |base|
    requires forall i :: 0 <= i < |at| ==> vals[i] == want[at[i]]
    ensures forall j :: 0 <= j < |base| && (base[j] == want[j] || j in at[..k]) ==> Placed(base, at, vals, k)[j] == want[j]
  {
    if k > 0 {
      PlacedIs(base, at, vals, k - 1, want);
      assert forall j :: j in at[..k] ==> j in at[..k - 1] || j == at[k - 1];
    }
  }

  lemma HonestAllDigests(sys: System, m: D32, s: D16, input: seq<Byte>, stars: seq<D32>, rs: seq<D32>,
                         nonce: D32, ctr: Word, c: Challenge)
    requires sys.Good() && |input| == sys.p.inputLen && |stars| == |rs| == sys.p.m && GoodChallenge(sys.p, c)
    ensures AllDigests(sys, m, s, HonestProof(sys, m, s, input, stars, rs, nonce, ctr, c), c) == AllHonest(sys, m, s, input, stars, rs)
  {
    hide ClosedDigests, OpenedDigests, HonestDigests, HonestOpened;
    var pf, want := HonestProof(sys, m, s, input, stars, rs, nonce, ctr, c), AllHonest(sys, m, s, input, stars, rs);
    var base, vals := ClosedAll(sys, pf), OpenedAll(sys, m, s, pf, c);
    forall k | 0 <= k < sys.p.tau
      ensures vals[k] == want[c.picks[k]]
    {
      OpenedHonestDigests(sys, m, s, input, stars[c.picks[k]], rs[c.picks[k]], c.hidden[k]);
    }
    forall j | 0 <= j < sys.p.m && j !in c.picks
      ensures base[j] == want[j]
    {
      ClosedIsHonest(sys, m, s, input, stars[j], rs[j]);
    }
    assert c.picks[..sys.p.tau] == c.picks;
    PlacedIs(base, c.picks, vals, sys.p.tau, want);
  }

  /** Completeness: for every witness, seeds, instance randomness, nonce and counter, under the challenge
      these derive, the verifier accepts the honest proof iff the plain circuit outputs the public words. */
  lemma Completeness(sys: System, m: D32, s: D16, pub: seq<Word>, input: seq<Byte>, stars: seq<D32>, rs: seq<D32>,
                     nonce: D32, ctr: Word, c: Challenge)
    requires sys.Good() && |input| == sys.p.inputLen && |stars| == |rs| == sys.p.m
    requires ChallengeOf(sys, m, s, pub, nonce, HonestStar(sys, m, s, input, stars, rs), ctr) == Some(c)
    ensures var pf := HonestProof(sys, m, s, input, stars, rs, nonce, ctr, c);
            Accepts(sys, m, s, pub, pf, c) <==> (sys.p.tau == 0 || PlainOutputs(sys, m, s, input) == pub)
  {
    hide OpenedDigests, HonestDigests, HonestOpened, OpenedAccepted, PlainOutputs, AllDigests, ChallengeOf;
    var pf := HonestProof(sys, m, s, input, stars, rs, nonce, ctr, c);
    HonestAllDigests(sys, m, s, input, stars, rs, nonce, ctr, c);
    forall k | 0 <= k < sys.p.tau
      ensures OpenedAccepted(sys, m, s, pub, pf.openings[k], c.hidden[k]) <==> PlainOutputs(sys, m, s, input) == pub
    {
      OpenedHonestAccepted(sys, m, s, pub, input, stars[c.picks[k]], rs[c.picks[k]], c.hidden[k]);
      OutputsArePlain(sys, m, s, input, stars[c.picks[k]]);
    }
    if sys.p.tau > 0 && RoundsAccepted(sys, m, s, pub, pf, c) {
      assert OpenedAccepted(sys, m, s, pub, pf.openings[0], c.hidden[0]);
    }
  }

  // ---- extraction ----------------------------------------------------------

  /** No two different members of X have the same digest under one tag. */
  ghost predicate CollisionFree(sys: System, X: set<seq<Byte>>)
  {
    forall t: Tag, a, b :: a in X && b in X && sys.th(t, a) == sys.th(t, b) ==> a == b
  }

  ghost predicate CoversTop(X: set<seq<Byte>>, sys: System, ds: Digests)
  {
    Top(sys, ds) in X && EncodeSeeds(ds.hj) in X && EncodeSeeds(ds.hPrime) in X && EncodeSeeds(ds.hOut) in X
  }

  /** What checking an opened instance hashes. */
  ghost predicate CoversOpened(X: set<seq<Byte>>, sys: System, m: D32, s: D16, o: Opened, e: nat)
    requires sys.Good() && OpenedShape(sys.p, o, e) && e < sys.p.n
  {
    && EncodeSeeds(FilledComs(sys, o, e)) in X
    && o.x + EncodeRows(FilledRows(Replayed(sys, m, s, o, e).slots, o.msgs, e, sys.p.n)) + o.r in X
    && EncodeRows(o.yp) in X
    && forall j :: 0 <= j < sys.p.n - 1 ==> PartyPreimage(Orig(j, e), o.ke[j], o.aux) in X
  }

  ghost predicate CoversClosed(X: set<seq<Byte>>, sys: System, c: Closed)
    requires sys.Good()
  {
    var seeds, aux := Seeds(sys, c.seedStar), Preprocessed(sys, Seeds(sys, c.seedStar)).aux;
    EncodeSeeds(Coms(sys, seeds, aux)) in X && forall i :: 0 <= i < sys.p.n ==> PartyPreimage(i, seeds[i], aux) in X
  }

  /** An accepted proof all of whose hash inputs lie in X. */
  ghost predicate AcceptedWithin(X: set<seq<Byte>>, sys: System, m: D32, s: D16, pub: seq<Word>, pf: Proof, c: Challenge)
    requires sys.Good()
  {
    && Accepts(sys, m, s, pub, pf, c)
    && CoversTop(X, sys, Split(AllDigests(sys, m, s, pf, c)))
    && (forall k :: 0 <= k < sys.p.tau ==> CoversOpened(X, sys, m, s, pf.openings[k], c.hidden[k]))
    && (forall j :: 0 <= j < sys.p.m && j !in c.picks ==> CoversClosed(X, sys, pf.closed[j]))
  }

  lemma SameStar(X: set<seq<Byte>>, sys: System, a: seq<Digest3>, b: seq<Digest3>)
    requires CollisionFree(sys, X) && CoversTop(X, sys, Split(a)) && CoversTop(X, sys, Split(b)) && |a| == |b|
    requires StarOf(sys, Split(a)) == StarOf(sys, Split(b))
    ensures a == b
  {
    var x, y := Split(a), Split(b);
    assert Top(sys, x) == Top(sys, y);
    var x1: seq<Byte>, x2: seq<Byte> := sys.th(HStar1, EncodeSeeds(x.hj)), sys.th(HStar2, EncodeSeeds(x.hPrime));
    var y1: seq<Byte>, y2: seq<Byte> := sys.th(HStar1, EncodeSeeds(y.hj)), sys.th(HStar2, EncodeSeeds(y.hPrime));
    Unjoin(x1 + x2, sys.th(HStar3, EncodeSeeds(x.hOut)), y1 + y2, sys.th(HStar3, EncodeSeeds(y.hOut)));
    Unjoin(x1, x2, y1, y2);
    EncodeSeedsInjective(x.hj, y.hj);
    EncodeSeedsInjective(x.hPrime, y.hPrime);
    EncodeSeedsInjective(x.hOut, y.hOut);
    forall j | 0 <= j < |a|
      ensures a[j] == b[j]
    {
      assert a[j] == Digest3(x.hj[j], x.hPrime[j], x.hOut[j]) && b[j] == Digest3(y.hj[j], y.hPrime[j], y.hOut[j]);
    }
  }

  lemma SamePreimage(i: nat, a: D32, b: D32, x: seq<Word>, y: seq<Word>)
    requires PartyPreimage(i, a, x) == PartyPreimage(i, b, y) && |x| == |y|
    ensures a == b && (i == 0 ==> x == y)
  {
    var tag: seq<Byte> := [FromNat(i, 8)];
    Unjoin(tag + a, if i == 0 then EncodeWords(x) else [], tag + b, if i == 0 then EncodeWords(y) else []);
    Unjoin(tag, a, tag, b);
    if i == 0 { EncodeWordsInjective(x, y); }
  }

  /** If an opening and a closing of one instance commit alike, the opened seeds are the expansion of the
      closed one's seed, and the opened corrections are what that seed preprocesses to. */
  lemma OpenedFollowsClosed(X: set<seq<Byte>>, sys: System, m: D32, s: D16, o: Opened, e: nat, c: Closed)
    requires sys.Good() && CollisionFree(sys, X) && OpenedShape(sys.p, o, e) && e < sys.p.n
    requires CoversOpened(X, sys, m, s, o, e) && CoversClosed(X, sys, c)
    requires OpenedDigests(sys, m, s, o, e).hj == ClosedDigests(sys, c).hj
    ensures o.ke == Without(Seeds(sys, c.seedStar), e)
    ensures e != 0 ==> o.aux == Preprocessed(sys, Seeds(sys, c.seedStar)).aux
  {
    hide Preprocessed, Seeds, Replayed, FilledComs, Coms, PartyPreimage, FilledRows, OutShares, PartyCom, HPrimeOf, HOutOf;
    ComsAgree(X, sys, o, e, Seeds(sys, c.seedStar), Preprocessed(sys, Seeds(sys, c.seedStar)).aux);
  }

  lemma ComsAgree(X: set<seq<Byte>>, sys: System, o: Opened, e: nat, seeds: seq<D32>, aux: seq<Word>)
    requires CollisionFree(sys, X) && sys.p.Ok() && OpenedShape(sys.p, o, e) && e < sys.p.n == |seeds| && |aux| == sys.p.ySize
    requires EncodeSeeds(FilledComs(sys, o, e)) in X && EncodeSeeds(Coms(sys, seeds, aux)) in X
    requires forall j :: 0 <= j < sys.p.n - 1 ==> PartyPreimage(Orig(j, e), o.ke[j], o.aux) in X
    requires forall i :: 0 <= i < sys.p.n ==> PartyPreimage(i, seeds[i], aux) in X
    requires HjOf(sys, FilledComs(sys, o, e)) == HjOf(sys, Coms(sys, seeds, aux))
    ensures o.ke == Without(seeds, e) && (e != 0 ==> o.aux == aux)
  {
    hide PartyPreimage, FilledComs, Coms, PartyCom, EncodeSeeds, Without;
    var a, b := FilledComs(sys, o, e), Coms(sys, seeds, aux);
    EncodeSeedsInjective(a, b);
    forall j | 0 <= j < sys.p.n - 1
      ensures o.ke[j] == seeds[Orig(j, e)] && (Orig(j, e) == 0 ==> o.aux == aux)
    {
      var i := Orig(j, e);
      assert i != e && SlotOfParty(i, e) == j;
      assert a[i] == PartyCom(sys, i, o.ke[j], o.aux) && b[i] == PartyCom(sys, i, seeds[i], aux);
      ComPreimage(X, sys, i, o.ke[j], seeds[i], o.aux, aux);
    }
    if e != 0 { assert Orig(0, e) == 0; }
  }

  lemma ComPreimage(X: set<seq<Byte>>, sys: System, i: nat, a: D32, b: D32, x: seq<Word>, y: seq<Word>)
    requires CollisionFree(sys, X) && |x| == |y| && PartyCom(sys, i, a, x) == PartyCom(sys, i, b, y)
    requires PartyPreimage(i, a, x) in X && PartyPreimage(i, b, y) in X
    ensures a == b && (i == 0 ==> x == y)
  {
    hide PartyPreimage;
    SamePreimage(i, a, b, x, y);
  }

  /** Equal digests, and no collisions: the two openings agree on everything that was committed to, whichever
      party each of them hides. */
  lemma OpenedAgree(X: set<seq<Byte>>, sys: System, m: D32, s: D16, o1: Opened, e1: nat, o2: Opened, e2: nat)
    requires sys.Good() && CollisionFree(sys, X) && OpenedShape(sys.p, o1, e1) && OpenedShape(sys.p, o2, e2) && e1 < sys.p.n && e2 < sys.p.n
    requires CoversOpened(X, sys, m, s, o1, e1) && CoversOpened(X, sys, m, s, o2, e2)
    requires OpenedDigests(sys, m, s, o1, e1) == OpenedDigests(sys, m, s, o2, e2)
    ensures o1.x == o2.x && o1.yp == o2.yp && o1.r == o2.r
    ensures FilledRows(Replayed(sys, m, s, o1, e1).slots, o1.msgs, e1, sys.p.n) == FilledRows(Replayed(sys, m, s, o2, e2).slots, o2.msgs, e2, sys.p.n)
  {
    hide Replayed, FilledRows, FilledComs, PartyPreimage, HjOf;
    var r1, r2 := FilledRows(Replayed(sys, m, s, o1, e1).slots, o1.msgs, e1, sys.p.n), FilledRows(Replayed(sys, m, s, o2, e2).slots, o2.msgs, e2, sys.p.n);
    EncodeRowsInjective(o1.yp, o2.yp, 8);
    RowWidths(sys, m, s, o1, e1);
    RowWidths(sys, m, s, o2, e2);
    OnlinePreimage(sys, o1.x, r1, o1.r, o2.x, r2, o2.r);
  }

  lemma RowWidths(sys: System, m: D32, s: D16, o: Opened, e: nat)
    requires sys.Good() && OpenedShape(sys.p, o, e) && e < sys.p.n
    ensures var rows := FilledRows(Replayed(sys, m, s, o, e).slots, o.msgs, e, sys.p.n);
            forall i :: 0 <= i < sys.p.n ==> |rows[i]| == sys.p.ySize
  {
    hide Replayed;
  }

  lemma OnlinePreimage(sys: System, x1: seq<Byte>, r1: seq<seq<Word>>, s1: D32, x2: seq<Byte>, r2: seq<seq<Word>>, s2: D32)
    requires |x1| == |x2| && |r1| == |r2| && forall i :: 0 <= i < |r1| ==> |r1[i]| == |r2[i]| == sys.p.ySize
    requires x1 + EncodeRows(r1) + s1 == x2 + EncodeRows(r2) + s2
    ensures x1 == x2 && r1 == r2 && s1 == s2
  {
    hide EncodeRows;
    RowsLength(r1, sys.p.ySize);
    RowsLength(r2, sys.p.ySize);
    Unjoin(x1 + EncodeRows(r1), s1, x2 + EncodeRows(r2), s2);
    Unjoin(x1, EncodeRows(r1), x2, EncodeRows(r2));
    EncodeRowsInjective(r1, r2, sys.p.ySize);
  }

  /** The broadcast matrix gate by gate. */
  function Transposed(rows: seq<seq<Word>>, n: nat, cost: nat): (cols: seq<seq<Word>>)
    requires |rows| == n && forall i :: 0 <= i < n ==> |rows[i]| == cost
    ensures Matrix(cols, n, cost) && forall g, i :: 0 <= g < cost && 0 <= i < n ==> cols[g][i] == rows[i][g]
  {
    seq(cost, g requires 0 <= g < cost => RowsAt(rows, g))
  }

  function RowsAt(rows: seq<seq<Word>>, g: nat): (c: seq<Word>)
    requires forall i :: 0 <= i < |rows| ==> g < |rows[i]|
    ensures |c| == |rows| && forall i :: 0 <= i < |c| ==> c[i] == rows[i][g]
  {
    seq(|rows|, i requires 0 <= i < |rows| => rows[i][g])
  }

  lemma FilledTransposed(slots: seq<seq<Word>>, msgs: seq<Word>, e: nat, n: nat)
    requires e < n && (forall g :: 0 <= g < |slots| ==> |slots[g]| == n - 1) && |msgs| == |slots|
    ensures var cols := Transposed(FilledRows(slots, msgs, e, n), n, |slots|);
            Messages(cols, e, n) == msgs && HideCols(cols, e, n) == slots
  {
    var rows := FilledRows(slots, msgs, e, n);
    var cols := Transposed(rows, n, |slots|);
    forall g | 0 <= g < |slots|
      ensures HideCols(cols, e, n)[g] == slots[g] && Messages(cols, e, n)[g] == msgs[g]
    {
      forall j | 0 <= j < n - 1
        ensures Without(cols[g], e)[j] == slots[g][j]
      {
        assert SlotOfParty(Orig(j, e), e) == j;
        assert rows[Orig(j, e)] == PartyRow(slots, j);
      }
    }
  }

  /** The matrix the two verifiers hash alike, seen from one of them. */
  lemma ReproducedBy(sys: System, m: D32, s: D16, o: Opened, e: nat, seeds: seq<D32>, cols: seq<seq<Word>>)
    requires sys.Good() && OpenedShape(sys.p, o, e) && e < sys.p.n == |seeds| && o.ke == Without(seeds, e)
    requires cols == Transposed(FilledRows(Replayed(sys, m, s, o, e).slots, o.msgs, e, sys.p.n), sys.p.n, sys.p.ySize)
    ensures var gs, ins, tapes := sys.circuit, AllIns(o.x, Lams(sys, seeds), m, s), Tapes(sys, seeds);
            && Reproduces(gs, ins, tapes, e, o.aux, cols)
            && VerifyRun(gs, HideAll(ins, e, sys.p.n), Without(tapes, e), e, Messages(cols, e, sys.p.n), o.aux) == Replayed(sys, m, s, o, e)
  {
    FilledTransposed(Replayed(sys, m, s, o, e).slots, o.msgs, e, sys.p.n);
    HiddenSeeds(sys, seeds, e);
    HiddenInputs(o.x, Lams(sys, seeds), m, s, e);
  }

  /** The witness behind an opened instance: its masked witness XOR all parties' mask shares. */
  ghost function Extracted(sys: System, o: Opened, star: D32): (w: seq<Byte>)
    requires |o.x| == sys.p.inputLen
    ensures |w| == sys.p.inputLen
  {
    Masked(o.x, Lams(sys, Seeds(sys, star)))
  }

  lemma SharesOfWord(sys: System, wires: seq<Mw>, o: Opened, e: nat, w: nat)
    requires sys.p.n >= 2 && |sys.outs| == 8 && OpenedShape(sys.p, o, e) && e < sys.p.n && w < 8
    requires HasOuts(sys, wires, sys.p.n - 1) && SharesMatch(sys, wires, o, e)
    ensures wires[sys.outs[w]].l == Without(WordShares(o.yp, w), e)
  {
    var a, b := wires[sys.outs[w]].l, Without(WordShares(o.yp, w), e);
    forall j | 0 <= j < sys.p.n - 1
      ensures a[j] == b[j]
    {
      assert ShareRow(sys, wires, sys.p.n - 1, j)[w] == o.yp[Orig(j, e)][w];
    }
  }

  ghost predicate TwoOpenings(sys: System, m: D32, s: D16, o1: Opened, e1: nat, o2: Opened, e2: nat, star: D32)
    requires sys.Good()
  {
    && e1 < sys.p.n && e2 < sys.p.n && e1 != e2
    && OpenedShape(sys.p, o1, e1) && OpenedShape(sys.p, o2, e2)
    && o1.x == o2.x && o1.yp == o2.yp
    && o1.ke == Without(Seeds(sys, star), e1) && o2.ke == Without(Seeds(sys, star), e2)
    && FilledRows(Replayed(sys, m, s, o1, e1).slots, o1.msgs, e1, sys.p.n) == FilledRows(Replayed(sys, m, s, o2, e2).slots, o2.msgs, e2, sys.p.n)
    && (e1 != 0 ==> o1.aux == Preprocessed(sys, Seeds(sys, star)).aux)
    && (e2 != 0 ==> o2.aux == Preprocessed(sys, Seeds(sys, star)).aux)
  }

  /** Two accepted openings of one honestly preprocessed instance, hiding different parties, with the same
      masked witness, output shares and broadcast matrix, give a witness. */
  lemma OpeningsExtract(sys: System, m: D32, s: D16, pub: seq<Word>, o1: Opened, e1: nat, o2: Opened, e2: nat, star: D32)
    requires sys.Good() && TwoOpenings(sys, m, s, o1, e1, o2, e2, star)
    requires OpenedAccepted(sys, m, s, pub, o1, e1) && OpenedAccepted(sys, m, s, pub, o2, e2)
    ensures PlainOutputs(sys, m, s, Extracted(sys, o1, star)) == pub
  {
    hide Seeds, Lams, Tapes, Preprocessed, Replayed, ShareRow, FilledRows, TapesCover, Reproduces, Legal, Cost, ProveRun, VerifyRun, PlainRun;
    var gs, seeds, n := sys.circuit, Seeds(sys, star), sys.p.n;
    var lams, tapes := Lams(sys, seeds), Tapes(sys, seeds);
    var ins := AllIns(o1.x, lams, m, s);
    var cols := Transposed(FilledRows(Replayed(sys, m, s, o1, e1).slots, o1.msgs, e1, n), n, sys.p.ySize);
    ReproducedBy(sys, m, s, o1, e1, seeds, cols);
    ReproducedBy(sys, m, s, o2, e2, seeds, cols);
    assert Run(sys, m, s, o1.x, seeds) == ProveRun(gs, ins, tapes);
    SeedsDetermine(sys, m, s, o1.x, seeds);
    var v := Replayed(sys, m, s, o1, e1);
    InputUnmasksTo(o1.x, lams, m, s);
    forall w | 0 <= w < 8
      ensures PlainOutputs(sys, m, s, Extracted(sys, o1, star))[w] == pub[w]
    {
      SharesOfWord(sys, Replayed(sys, m, s, o1, e1).wires, o1, e1, w);
      SharesOfWord(sys, Replayed(sys, m, s, o2, e2).wires, o2, e2, w);
      Extraction(gs, ins, tapes, e1, e2, o1.aux, o2.aux, cols, sys.outs[w], WordShares(o1.yp, w));
      assert Recombined(Public(sys, v.wires, n - 1), o1.yp)[w] == pub[w];
    }
  }

  lemma MaskInvolution(x: Byte, lams: seq<seq<Byte>>, b: nat)
    requires forall i :: 0 <= i < |lams| ==> b < |lams[i]|
    ensures MaskByte(MaskByte(x, lams, b), lams, b) == x
  {
    ByteUnmasks(x, lams, b);
    ByteUnmasks(MaskByte(x, lams, b), lams, b);
    var y, z := MaskByte(MaskByte(x, lams, b), lams, b), XorAll(Column(lams, b));
    MaskTwice(Ext(x), z);
    forall k | 0 <= k < 8
      ensures y[k] == x[k]
    {
      assert Ext(y)[k] == Ext(x)[k];
    }
  }

  lemma InputUnmasksTo(d: seq<Byte>, lams: seq<seq<Byte>>, m: D32, s: D16)
    requires Widths(lams, |d|)
    ensures UnmaskAll(AllIns(d, lams, m, s)) == AllGiven(Masked(d, lams), m, s)
  {
    var w := Masked(d, lams);
    forall b | 0 <= b < |d|
      ensures Masked(w, lams)[b] == d[b]
    {
      MaskInvolution(d[b], lams, b);
    }
    assert Masked(w, lams) == d;
    InputUnmasks(w, lams, m, s);
  }

  /** An accepted proof that opens instance j in its round k, hiding party e. */
  ghost predicate Opens(X: set<seq<Byte>>, sys: System, m: D32, s: D16, pub: seq<Word>, pf: Proof, c: Challenge,
                        k: nat, j: nat, o: Opened, e: nat)
    requires sys.Good()
  {
    && AcceptedWithin(X, sys, m, s, pub, pf, c) && k < sys.p.tau
    && c.picks[k] == j && c.hidden[k] == e && pf.openings[k] == o && e < sys.p.n && OpenedShape(sys.p, o, e)
  }

  /** An accepted proof that leaves instance j closed. */
  ghost predicate LeavesClosed(X: set<seq<Byte>>, sys: System, m: D32, s: D16, pub: seq<Word>, pf: Proof, c: Challenge,
                               j: nat, cl: Closed)
    requires sys.Good()
  {
    AcceptedWithin(X, sys, m, s, pub, pf, c) && j < sys.p.m && j !in c.picks && pf.closed[j] == cl
  }

  /** Two accepted proofs with one first message have the same digests for every instance. */
  lemma SameFirstMessage(X: set<seq<Byte>>, sys: System, m: D32, s: D16, pub: seq<Word>,
                         pf1: Proof, c1: Challenge, pf2: Proof, c2: Challenge)
    requires sys.Good() && CollisionFree(sys, X) && pf1.hStar == pf2.hStar
    requires AcceptedWithin(X, sys, m, s, pub, pf1, c1) && AcceptedWithin(X, sys, m, s, pub, pf2, c2)
    ensures Shaped(sys, pf1, c1) && Shaped(sys, pf2, c2)
    ensures AllDigests(sys, m, s, pf1, c1) == AllDigests(sys, m, s, pf2, c2)
  {
    hide OpenedAccepted, CoversOpened, CoversClosed, CoversTop, Split, ChallengeOf, StarOf, AllDigests;
    SameStar(X, sys, AllDigests(sys, m, s, pf1, c1), AllDigests(sys, m, s, pf2, c2));
  }

  lemma OpenedSlot(X: set<seq<Byte>>, sys: System, m: D32, s: D16, pub: seq<Word>, pf: Proof, c: Challenge,
                   k: nat, j: nat, o: Opened, e: nat)
    requires sys.Good() && Opens(X, sys, m, s, pub, pf, c, k, j, o, e)
    ensures Shaped(sys, pf, c) && j < sys.p.m && e < sys.p.n && OpenedShape(sys.p, o, e) && |o.x| == sys.p.inputLen
    ensures AllDigests(sys, m, s, pf, c)[j] == OpenedDigests(sys, m, s, o, e)
    ensures OpenedAccepted(sys, m, s, pub, o, e) && CoversOpened(X, sys, m, s, o, e)
  {
    hide OpenedDigests, ClosedDigests, OpenedAccepted, CoversOpened, CoversClosed, CoversTop, Split, ChallengeOf, StarOf, Placed;
    PlacedAt(ClosedAll(sys, pf), c.picks, OpenedAll(sys, m, s, pf, c), sys.p.tau);
  }

  lemma ClosedSlot(X: set<seq<Byte>>, sys: System, m: D32, s: D16, pub: seq<Word>, pf: Proof, c: Challenge, j: nat, cl: Closed)
    requires sys.Good() && LeavesClosed(X, sys, m, s, pub, pf, c, j, cl)
    ensures Shaped(sys, pf, c) && j < sys.p.m
    ensures AllDigests(sys, m, s, pf, c)[j] == ClosedDigests(sys, cl) && CoversClosed(X, sys, cl)
  {
    hide OpenedDigests, ClosedDigests, OpenedAccepted, CoversOpened, CoversClosed, CoversTop, Split, ChallengeOf, StarOf, OpenedShape, Placed;
    PlacedAt(ClosedAll(sys, pf), c.picks, OpenedAll(sys, m, s, pf, c), sys.p.tau);
  }

  lemma ThreeAccepted(X: set<seq<Byte>>, sys: System, m: D32, s: D16, pub: seq<Word>, j: nat,
                      pf1: Proof, c1: Challenge, k1: nat, o1: Opened, e1: nat, pf2: Proof, c2: Challenge, k2: nat, o2: Opened, e2: nat,
                      pf3: Proof, c3: Challenge, cl: Closed)
    requires sys.Good() && Opens(X, sys, m, s, pub, pf1, c1, k1, j, o1, e1) && Opens(X, sys, m, s, pub, pf2, c2, k2, j, o2, e2)
    requires LeavesClosed(X, sys, m, s, pub, pf3, c3, j, cl)
    ensures AcceptedWithin(X, sys, m, s, pub, pf1, c1) && AcceptedWithin(X, sys, m, s, pub, pf2, c2) && AcceptedWithin(X, sys, m, s, pub, pf3, c3)
  {
    hide AcceptedWithin, OpenedShape;
  }

  /** Special soundness: three accepted proofs of one statement with the same first message, two opening
      instance j with different parties hidden and one leaving it closed, yield a witness: the circuit's
      output on masked witness XOR the shares of the closed seed is the public one. Only the hash
      inputs of the three verifications must be free of collisions. */
  lemma SpecialSoundness(X: set<seq<Byte>>, sys: System, m: D32, s: D16, pub: seq<Word>, j: nat,
                         pf1: Proof, c1: Challenge, k1: nat, o1: Opened, e1: nat, pf2: Proof, c2: Challenge, k2: nat, o2: Opened, e2: nat,
                         pf3: Proof, c3: Challenge, cl: Closed)
    requires sys.Good() && CollisionFree(sys, X) && pf1.hStar == pf2.hStar == pf3.hStar && e1 != e2
    requires Opens(X, sys, m, s, pub, pf1, c1, k1, j, o1, e1) && Opens(X, sys, m, s, pub, pf2, c2, k2, j, o2, e2)
    requires LeavesClosed(X, sys, m, s, pub, pf3, c3, j, cl)
    ensures |o1.x| == sys.p.inputLen && PlainOutputs(sys, m, s, Extracted(sys, o1, cl.seedStar)) == pub
  {
    hide *;
    ThreeAccepted(X, sys, m, s, pub, j, pf1, c1, k1, o1, e1, pf2, c2, k2, o2, e2, pf3, c3, cl);
    SameFirstMessage(X, sys, m, s, pub, pf1, c1, pf2, c2);
    SameFirstMessage(X, sys, m, s, pub, pf1, c1, pf3, c3);
    OpenedSlot(X, sys, m, s, pub, pf1, c1, k1, j, o1, e1);
    OpenedSlot(X, sys, m, s, pub, pf2, c2, k2, j, o2, e2);
    ClosedSlot(X, sys, m, s, pub, pf3, c3, j, cl);
    OpenedFollowsClosed(X, sys, m, s, o1, e1, cl);
    OpenedFollowsClosed(X, sys, m, s, o2, e2, cl);
    OpenedAgree(X, sys, m, s, o1, e1, o2, e2);
    TwoOpeningsMade(sys, m, s, o1, e1, o2, e2, cl.seedStar);
    OpeningsExtract(sys, m, s, pub, o1, e1, o2, e2, cl.seedStar);
  }

  lemma TwoOpeningsMade(sys: System, m: D32, s: D16, o1: Opened, e1: nat, o2: Opened, e2: nat, star: D32)
    requires sys.Good() && e1 < sys.p.n && e2 < sys.p.n && e1 != e2 && OpenedShape(sys.p, o1, e1) && OpenedShape(sys.p, o2, e2)
    requires o1.x == o2.x && o1.yp == o2.yp
    requires o1.ke == Without(Seeds(sys, star), e1) && o2.ke == Without(Seeds(sys, star), e2)
    requires FilledRows(Replayed(sys, m, s, o1, e1).slots, o1.msgs, e1, sys.p.n) == FilledRows(Replayed(sys, m, s, o2, e2).slots, o2.msgs, e2, sys.p.n)
    requires e1 != 0 ==> o1.aux == Preprocessed(sys, Seeds(sys, star)).aux
    requires e2 != 0 ==> o2.aux == Preprocessed(sys, Seeds(sys, star)).aux
    ensures TwoOpenings(sys, m, s, o1, e1, o2, e2, star)
  {
    hide Replayed, Preprocessed, Seeds, FilledRows, OpenedShape;
  }
}
