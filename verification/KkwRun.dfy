/** The prover and the verifier as programs over a byte stream. */
module KkwRun {
  import opened Wrappers
  import opened Words
  import opened Sharing
  import opened Engine
  import opened Blake3
  import opened KkwCodec
  import opened Kkw
  import opened KkwReader
  import opened KkwTheorems
  import Mpc

  // ---- instances -----------------------------------------------------------

  /** The run of the whole circuit on a masked witness, written to per-gate buffers. */
  method Evaluate(sys: System, m: D32, s: D16, d: seq<Byte>, seeds: seq<D32>, record: bool)
    returns (wires: seq<Mw>, t: Mpc.Prover)
    requires sys.Good() && |d| == sys.p.inputLen && |seeds| == sys.p.n
    ensures wires == Run(sys, m, s, d, seeds).wires && HasOuts(sys, wires, sys.p.n)
    ensures fresh(t) && t.Valid() && t.n == sys.p.n && t.ySize == sys.p.ySize && (t.sAll != null <==> record)
    ensures t.Records(Run(sys, m, s, d, seeds))
  {
    hide ProveRun, Legal, Cost;
    var gs := sys.circuit;
    t := new Mpc.Prover(Tapes(sys, seeds), sys.p.ySize, record);
    wires := t.Evaluate(gs, AllIns(d, Lams(sys, seeds), m, s));
  }

  /** Both preprocessing digests of a closed instance from its seed. */
  method RecomputeClosed(sys: System, c: Closed) returns (ds: Digest3)
    requires sys.Good()
    ensures ds == ClosedDigests(sys, c)
  {
    hide Run, HasOuts;
    var seeds := Seeds(sys, c.seedStar);
    var wires, t := Evaluate(sys, Blank(32), Blank(16), Blank(sys.p.inputLen), seeds, false);
    assert t.aux[..sys.p.ySize] == t.aux[..];
    ds := Digest3(HjOf(sys, Coms(sys, seeds, t.aux[..])), c.hPrime, HOutOf(sys, OutShares(sys, wires, sys.p.n)));
  }

  /** The parties' rows read off a gate-indexed buffer. */
  method RowsOf(a: array2<Word>, ghost cols: seq<seq<Word>>) returns (rows: seq<seq<Word>>)
    requires |cols| == a.Length1 && (forall g :: 0 <= g < |cols| ==> |cols[g]| == a.Length0)
    requires forall i, g :: 0 <= i < a.Length0 && 0 <= g < a.Length1 ==> a[i, g] == cols[g][i]
    ensures rows == PartyRows(cols, a.Length0)
  {
    rows := [];
    for i := 0 to a.Length0
      invariant rows == PartyRows(cols, a.Length0)[..i]
    {
      var row := [];
      for g := 0 to a.Length1
        invariant row == PartyRow(cols, i)[..g]
      {
        row := row + [a[i, g]];
      }
      assert row == PartyRow(cols, i);
      rows := rows + [row];
    }
  }

  method ReplayOpened(sys: System, m: D32, s: D16, o: Opened, e: nat) returns (wires: seq<Mw>, rows: seq<seq<Word>>)
    requires sys.Good() && OpenedShape(sys.p, o, e) && e < sys.p.n
    ensures var v := Replayed(sys, m, s, o, e);
            wires == v.wires && rows == PartyRows(v.slots, sys.p.n - 1)
  {
    hide VerifyRun, Legal, Cost;
    var gs := sys.circuit;
    var t := new Mpc.Verifier(Tapes(sys, o.ke), e, o.msgs, o.aux, sys.p.ySize);
    wires := t.Evaluate(gs, AllIns(o.x, Lams(sys, o.ke), m, s));
    rows := RowsOf(t.sSlots, Replayed(sys, m, s, o, e).slots);
  }

  /** The rows with the hidden party's stream inserted. */
  function Inserted(rows: seq<seq<Word>>, msgs: seq<Word>, e: nat): (r: seq<seq<Word>>)
    requires e <= |rows|
  {
    rows[..e] + [msgs] + rows[e..]
  }

  lemma InsertedIsFilled(slots: seq<seq<Word>>, msgs: seq<Word>, e: nat, n: nat)
    requires e < n && forall g :: 0 <= g < |slots| ==> |slots[g]| == n - 1
    ensures Inserted(PartyRows(slots, n - 1), msgs, e) == FilledRows(slots, msgs, e, n)
  {
  }

  method SharesOk(sys: System, wires: seq<Mw>, o: Opened, e: nat) returns (ok: bool)
    requires |sys.outs| == 8 && sys.p.Ok() && OpenedShape(sys.p, o, e) && e < sys.p.n && HasOuts(sys, wires, sys.p.n - 1)
    ensures ok <==> SharesMatch(sys, wires, o, e)
  {
    var n := sys.p.n;
    ok := true;
    for j := 0 to n - 1
      invariant ok <==> forall i :: 0 <= i < j ==> ShareRow(sys, wires, n - 1, i) == o.yp[Orig(i, e)]
    {
      if ShareRow(sys, wires, n - 1, j) != o.yp[Orig(j, e)] {
        ok := false;
      }
    }
  }

  /** One opened round: do the visible shares and the public output match, and its digests. */
  method CheckOpened(sys: System, m: D32, s: D16, pub: seq<Word>, o: Opened, e: nat) returns (ok: bool, ds: Digest3)
    requires sys.Good() && OpenedShape(sys.p, o, e) && e < sys.p.n
    ensures ok <==> OpenedAccepted(sys, m, s, pub, o, e)
    ensures ds == OpenedDigests(sys, m, s, o, e)
  {
    hide Replayed, SharesMatch, HasOuts, PartyRows, FilledRows, Inserted, FilledComs, HjOf, HPrimeOf, HOutOf;
    ghost var v := Replayed(sys, m, s, o, e);
    var wires, rows := ReplayOpened(sys, m, s, o, e);
    ok := SharesOk(sys, wires, o, e);
    if Recombined(Public(sys, wires, sys.p.n - 1), o.yp) != pub {
      ok := false;
    }
    InsertedIsFilled(v.slots, o.msgs, e, sys.p.n);
    ds := Digest3(HjOf(sys, FilledComs(sys, o, e)), HPrimeOf(sys, o.x, Inserted(rows, o.msgs, e), o.r), HOutOf(sys, o.yp));
  }

  /** The challenge, or none if the counter misses the grinding target. */
  method Derive(sys: System, m: D32, s: D16, pub: seq<Word>, nonce: D32, hStar: D32, ctr: Word) returns (c: Option<Challenge>)
    requires sys.Good()
    ensures c == ChallengeOf(sys, m, s, pub, nonce, hStar, ctr)
  {
    var d := FsSeed(sys, m, s, pub, nonce, hStar, ctr);
    for b := 0 to sys.p.grind
      invariant forall i :: 0 <= i < b ==> !d[31 - i / 8][i % 8]
    {
      if d[31 - b / 8][b % 8] {
        assert !Ground(d, sys.p.grind);
        return None;
      }
    }
    c := sys.expand(d);
  }

  // ---- the verifier --------------------------------------------------------

  /** The stream starts with this preamble: then it fixes challenge, length and, read in full, the proof. */
  lemma OnlyThisProof(sys: System, m: D32, s: D16, pub: seq<Word>, stream: seq<Byte>, f: FirstPart, pf: Proof, c: Challenge)
    requires sys.Good() && |stream| >= 92 && stream[..92] == Preamble(sys.p, f.nonce, f.hStar, f.ctr)
    requires IsProofOf(sys, m, s, pub, stream, pf, c)
    ensures pf.nonce == f.nonce && pf.hStar == f.hStar && pf.ctr == f.ctr
    ensures ChallengeOf(sys, m, s, pub, f.nonce, f.hStar, f.ctr) == Some(c)
    ensures |stream| == EncodedLength(sys.p, Mark(c, sys.p.m), c.hidden)
  {
    hide Preamble, Encode, ChallengeOf, RoundsAccepted, AllDigests;
    EncodeParts(sys.p, pf, Mark(c, sys.p.m), c.hidden);
    PreambleInjective(sys.p, pf.nonce, pf.hStar, pf.ctr, f.nonce, f.hStar, f.ctr);
  }

  /** Reads a proof: it is the one proof that the stream can encode, and the challenge its preamble gives. */
  method Parse(sys: System, m: D32, s: D16, pub: seq<Word>, stream: seq<Byte>) returns (r: Option<(Proof, Challenge)>)
    requires sys.Good()
    ensures r.Some? ==>
              && Shaped(sys, r.value.0, r.value.1)
              && stream == Encode(sys.p, r.value.0, Mark(r.value.1, sys.p.m), r.value.1.hidden)
              && ChallengeOf(sys, m, s, pub, r.value.0.nonce, r.value.0.hStar, r.value.0.ctr) == Some(r.value.1)
    ensures r.None? ==> !StreamAccepted(sys, m, s, pub, stream)
  {
    hide Preamble, EncodeClosed, EncodeOpenings, ClosedLength, OpeningsLength, Encode, ChallengeOf, Accepts;
    r := None;
    var rd := new Reader(stream);
    var first := ReadPreamble(rd, sys.p);
    if first.None? {
      NoPreamble(sys, m, s, pub, stream);
      return;
    }
    var f := first.value;
    var ch := Derive(sys, m, s, pub, f.nonce, f.hStar, f.ctr);
    if ch.None? {
      OnlyThese(sys, m, s, pub, stream, f, ch);
      return;
    }
    var inC := Mark(ch.value, sys.p.m);
    var closed := ReadClosed(rd, inC);
    if closed.None? {
      OnlyThese(sys, m, s, pub, stream, f, ch);
      return;
    }
    var openings := ReadOpenings(rd, sys.p, ch.value.hidden);
    if openings.None? || rd.pos != |stream| {
      OnlyThese(sys, m, s, pub, stream, f, ch);
      return;
    }
    var pf := Proof(f.nonce, f.hStar, f.ctr, closed.value, openings.value);
    Assembled(sys.p, stream, pf, inC, ch.value.hidden);
    r := Some((pf, ch.value));
  }

  lemma NoPreamble(sys: System, m: D32, s: D16, pub: seq<Word>, stream: seq<Byte>)
    requires sys.Good()
    requires |stream| < 92 || forall a: D32, b: D32, c: Word :: stream[..92] != Preamble(sys.p, a, b, c)
    ensures !StreamAccepted(sys, m, s, pub, stream)
  {
    hide Preamble, Encode, ChallengeOf, RoundsAccepted, AllDigests, EncodeClosed, EncodeOpenings;
    if pf, c :| IsProofOf(sys, m, s, pub, stream, pf, c) {
      EncodeParts(sys.p, pf, Mark(c, sys.p.m), c.hidden);
    }
  }

  /** A stream of the wrong length for its own challenge, or with none, is no accepted proof. */
  lemma OnlyThese(sys: System, m: D32, s: D16, pub: seq<Word>, stream: seq<Byte>, f: FirstPart, ch: Option<Challenge>)
    requires sys.Good() && |stream| >= 92 && stream[..92] == Preamble(sys.p, f.nonce, f.hStar, f.ctr)
    requires ch == ChallengeOf(sys, m, s, pub, f.nonce, f.hStar, f.ctr)
    requires ch.Some? ==> |stream| != EncodedLength(sys.p, Mark(ch.value, sys.p.m), ch.value.hidden)
    ensures !StreamAccepted(sys, m, s, pub, stream)
  {
    hide Preamble, Encode, ChallengeOf, EncodedLength, Accepts;
    if pf, c :| IsProofOf(sys, m, s, pub, stream, pf, c) {
      OnlyThisProof(sys, m, s, pub, stream, f, pf, c);
    }
  }

  lemma Assembled(p: Params, stream: seq<Byte>, pf: Proof, inC: seq<bool>, ps: seq<nat>)
    requires p.Ok() && ProofShape(p, pf, inC, ps) && |stream| == EncodedLength(p, inC, ps)
    requires var k := 92 + ClosedLength(inC, |inC|);
             && k <= |stream|
             && stream[..92] == Preamble(p, pf.nonce, pf.hStar, pf.ctr)
             && stream[92..k] == EncodeClosed(pf.closed, inC, |inC|)
             && stream[k..] == EncodeOpenings(pf.openings, ps, |ps|)
    ensures stream == Encode(p, pf, inC, ps)
  {
    hide Preamble, EncodeClosed, EncodeOpenings, ClosedLength, OpeningsLength, OpenedShape, ProofShape;
    var k := 92 + ClosedLength(inC, |inC|);
    assert stream == stream[..92] + stream[92..k] + stream[k..];
  }

  method DigestsOf(sys: System, m: D32, s: D16, pub: seq<Word>, pf: Proof, c: Challenge) returns (ok: bool, ds: seq<Digest3>)
    requires sys.Good() && Shaped(sys, pf, c)
    ensures ok <==> RoundsAccepted(sys, m, s, pub, pf, c)
    ensures ds == AllDigests(sys, m, s, pf, c)
  {
    hide OpenedAccepted, OpenedDigests, ClosedDigests, OpenedShape;
    var inC := Mark(c, sys.p.m);
    ds := [];
    for j := 0 to sys.p.m
      invariant |ds| == j && forall i :: 0 <= i < j && !inC[i] ==> ds[i] == ClosedDigests(sys, pf.closed[i])
    {
      var d := Digest3(Blank(32), Blank(32), Blank(32));
      if !inC[j] {
        d := RecomputeClosed(sys, pf.closed[j]);
      }
      ds := ds + [d];
    }
    ghost var base, vals := ds, OpenedAll(sys, m, s, pf, c);
    ok := true;
    for k := 0 to sys.p.tau
      invariant ds == Placed(base, c.picks, vals, k)
      invariant ok <==> forall i :: 0 <= i < k ==> OpenedAccepted(sys, m, s, pub, pf.openings[i], c.hidden[i])
    {
      var good, d := CheckOpened(sys, m, s, pub, pf.openings[k], c.hidden[k]);
      ds := ds[c.picks[k] := d];
      ok := ok && good;
    }
    PlacedSame(base, ClosedAll(sys, pf), c.picks, vals);
  }

  /** Only the slots that are not written over matter. */
  lemma PlacedSame<T>(base: seq<T>, base': seq<T>, at: seq<nat>, vals: seq<T>)
    requires |at| == |vals| && Increasing(at) && |base| == |base'| && forall i :: 0 <= i < |at| ==> at[i] < |base|
    requires forall j :: 0 <= j < |base| && j !in at ==> base[j] == base'[j]
    ensures Placed(base, at, vals, |at|) == Placed(base', at, vals, |at|)
  {
    hide Placed;
    PlacedAt(base, at, vals, |at|);
    PlacedAt(base', at, vals, |at|);
    var a, b := Placed(base, at, vals, |at|), Placed(base', at, vals, |at|);
    forall j | 0 <= j < |base|
      ensures a[j] == b[j]
    {
      if j in at {
        var i :| 0 <= i < |at| && at[i] == j;
        assert a[at[i]] == vals[i] && b[at[i]] == vals[i];
      }
    }
  }

  /** The verifier accepts a stream iff it is the encoding of an accepted proof. */
  method KkwVerify(sys: System, m: D32, s: D16, pub: seq<Word>, stream: seq<Byte>) returns (ok: bool)
    requires sys.Good()
    ensures ok <==> StreamAccepted(sys, m, s, pub, stream)
  {
    hide Encode, ChallengeOf, RoundsAccepted, AllDigests, StarOf;
    var parsed := Parse(sys, m, s, pub, stream);
    if parsed.None? { return false; }
    var pf, c := parsed.value.0, parsed.value.1;
    var good, ds := DigestsOf(sys, m, s, pub, pf, c);
    ok := good && StarOf(sys, Split(ds)) == pf.hStar;
    if ok {
      assert IsProofOf(sys, m, s, pub, stream, pf, c);
    } else if pf', c' :| IsProofOf(sys, m, s, pub, stream, pf', c') {
      SameProof(sys, m, s, pub, stream, pf, c, pf', c');
      assert false;
    }
  }

  lemma SameProof(sys: System, m: D32, s: D16, pub: seq<Word>, stream: seq<Byte>, pf: Proof, c: Challenge, pf': Proof, c': Challenge)
    requires sys.Good() && Shaped(sys, pf, c) && stream == Encode(sys.p, pf, Mark(c, sys.p.m), c.hidden)
    requires ChallengeOf(sys, m, s, pub, pf.nonce, pf.hStar, pf.ctr) == Some(c)
    requires IsProofOf(sys, m, s, pub, stream, pf', c')
    ensures pf == pf' && c == c'
  {
    hide Encode, ChallengeOf, RoundsAccepted, AllDigests, Preamble;
    EncodeParts(sys.p, pf, Mark(c, sys.p.m), c.hidden);
    OnlyThisProof(sys, m, s, pub, stream, FirstPart(pf.nonce, pf.hStar, pf.ctr), pf', c');
    EncodeInjective(sys.p, pf, pf', Mark(c, sys.p.m), c.hidden);
  }

  // ---- the prover ----------------------------------------------------------

  /** The buffers of a run: its wires, corrections and every party's broadcasts. */
  method EvaluateHonest(sys: System, m: D32, s: D16, input: seq<Byte>, star: D32)
    returns (d: seq<Byte>, wires: seq<Mw>, aux: seq<Word>, rows: seq<seq<Word>>)
    requires sys.Good() && |input| == sys.p.inputLen
    ensures d == HonestMasked(sys, input, star)
    ensures var v := HonestView(sys, m, s, input, star);
            wires == v.wires && aux == v.aux && rows == PartyRows(v.cols, sys.p.n) && HasOuts(sys, wires, sys.p.n)
  {
    hide Run, HasOuts;
    var seeds := Seeds(sys, star);
    d := Masked(input, Lams(sys, seeds));
    ghost var v := HonestView(sys, m, s, input, star);
    var t: Mpc.Prover;
    wires, t := Evaluate(sys, m, s, d, seeds, true);
    aux := t.aux[..];
    assert t.aux[..sys.p.ySize] == t.aux[..];
    rows := RowsOf(t.sAll, v.cols);
  }

  /** First pass: the output check and the three digests of one instance. */
  method ProveInstance(sys: System, m: D32, s: D16, pub: seq<Word>, input: seq<Byte>, star: D32, r: D32)
    returns (ok: bool, ds: Digest3)
    requires sys.Good() && |input| == sys.p.inputLen
    ensures ok <==> PlainOutputs(sys, m, s, input) == pub
    ensures ds == HonestDigests(sys, m, s, input, star, r)
  {
    hide HonestView, HonestMasked, HasOuts, PartyRows, Coms, HjOf, HPrimeOf, HOutOf;
    var d, wires, aux, rows := EvaluateHonest(sys, m, s, input, star);
    OutputsArePlain(sys, m, s, input, star);
    ok := Recombined(Public(sys, wires, sys.p.n), OutShares(sys, wires, sys.p.n)) == pub;
    ds := Digest3(HjOf(sys, Coms(sys, Seeds(sys, star), aux)), HPrimeOf(sys, d, rows, r), HOutOf(sys, OutShares(sys, wires, sys.p.n)));
  }

  /** Second pass: the opening of one instance to a verifier from whom party e is hidden. */
  method OpenInstance(sys: System, m: D32, s: D16, input: seq<Byte>, star: D32, r: D32, e: nat) returns (o: Opened)
    requires sys.Good() && |input| == sys.p.inputLen && e < sys.p.n
    ensures o == HonestOpened(sys, m, s, input, star, r, e)
  {
    hide HonestView, HonestMasked, HasOuts, PartyCom;
    var d, wires, aux, rows := EvaluateHonest(sys, m, s, input, star);
    var seeds := Seeds(sys, star);
    assert rows[e] == Messages(HonestView(sys, m, s, input, star).cols, e, sys.p.n);
    o := Opened(PartyCom(sys, e, seeds[e], aux), OutShares(sys, wires, sys.p.n), Without(seeds, e),
                d, if e == 0 then ZeroWords(sys.p.ySize) else aux, rows[e], r);
  }

  ghost predicate Misses(sys: System, m: D32, s: D16, pub: seq<Word>, nonce: D32, hStar: D32, ctr: nat)
    requires sys.p.grind <= 256
  {
    !Ground(FsSeed(sys, m, s, pub, nonce, hStar, Word32(ctr)), sys.p.grind)
  }

  /** The first counter that meets the grinding target; None if all 2^32 miss it. */
  method Grinding(sys: System, m: D32, s: D16, pub: seq<Word>, nonce: D32, hStar: D32) returns (ctr: nat)
    requires sys.Good()
    ensures ctr <= 0x1_0000_0000
    ensures forall k :: 0 <= k < ctr ==> Misses(sys, m, s, pub, nonce, hStar, k)
    ensures ctr < 0x1_0000_0000 ==> !Misses(sys, m, s, pub, nonce, hStar, ctr)
  {
    hide FsSeed, Word32;
    ctr := 0;
    while ctr < 0x1_0000_0000 && !Ground(FsSeed(sys, m, s, pub, nonce, hStar, Word32(ctr)), sys.p.grind)
      invariant ctr <= 0x1_0000_0000
      invariant forall k :: 0 <= k < ctr ==> Misses(sys, m, s, pub, nonce, hStar, k)
      decreases 0x1_0000_0000 - ctr
    {
      ctr := ctr + 1;
    }
  }

  method WriteClosed(closed: seq<Closed>, inC: seq<bool>) returns (out: seq<Byte>)
    requires |closed| == |inC|
    ensures out == EncodeClosed(closed, inC, |inC|)
  {
    out := [];
    for j := 0 to |inC|
      invariant out == EncodeClosed(closed, inC, j)
    {
      if !inC[j] {
        out := out + closed[j].seedStar + closed[j].hPrime;
      }
    }
  }

  method WriteOpenings(os: seq<Opened>, ps: seq<nat>) returns (out: seq<Byte>)
    requires |os| == |ps|
    ensures out == EncodeOpenings(os, ps, |ps|)
  {
    hide EncodeOpened;
    out := [];
    for k := 0 to |ps|
      invariant out == EncodeOpenings(os, ps, k)
    {
      out := out + EncodeOpened(os[k], ps[k]);
    }
  }

  datatype Outcome = Written(stream: seq<Byte>) | WrongOutput | NoChallenge

  method FirstPass(sys: System, m: D32, s: D16, pub: seq<Word>, input: seq<Byte>, stars: seq<D32>, rs: seq<D32>)
    returns (ok: bool, ds: seq<Digest3>)
    requires sys.Good() && |input| == sys.p.inputLen && |stars| == |rs| == sys.p.m
    ensures ok <==> sys.p.m == 0 || PlainOutputs(sys, m, s, input) == pub
    ensures ds == AllHonest(sys, m, s, input, stars, rs)
  {
    hide PlainOutputs, HonestDigests;
    ok, ds := true, [];
    for j := 0 to sys.p.m
      invariant ok <==> j == 0 || PlainOutputs(sys, m, s, input) == pub
      invariant ds == AllHonest(sys, m, s, input, stars, rs)[..j]
    {
      var good, d := ProveInstance(sys, m, s, pub, input, stars[j], rs[j]);
      ok := ok && good;
      ds := ds + [d];
    }
  }

  method SecondPass(sys: System, m: D32, s: D16, input: seq<Byte>, stars: seq<D32>, rs: seq<D32>, c: Challenge) returns (os: seq<Opened>)
    requires sys.Good() && |input| == sys.p.inputLen && |stars| == |rs| == sys.p.m && GoodChallenge(sys.p, c)
    ensures os == HonestOpenings(sys, m, s, input, stars, rs, c)
  {
    hide HonestOpened;
    os := [];
    for k := 0 to sys.p.tau
      invariant os == HonestOpenings(sys, m, s, input, stars, rs, c)[..k]
    {
      var j := c.picks[k];
      var o := OpenInstance(sys, m, s, input, stars[j], rs[j], c.hidden[k]);
      os := os + [o];
    }
  }

  /** Counters below n miss the target, and n is past the last one or draws no challenge: the original
      would search or sample for ever. */
  ghost predicate Stuck(sys: System, m: D32, s: D16, pub: seq<Word>, nonce: D32, hStar: D32, n: nat)
    requires sys.Good()
  {
    && n <= 0x1_0000_0000 && (forall k :: 0 <= k < n ==> Misses(sys, m, s, pub, nonce, hStar, k))
    && (n < 0x1_0000_0000 ==> ChallengeOf(sys, m, s, pub, nonce, hStar, Word32(n)).None?)
  }

  /** Grinds and derives the challenge. */
  method Draw(sys: System, m: D32, s: D16, pub: seq<Word>, nonce: D32, hStar: D32) returns (ctr: Word, ch: Option<Challenge>)
    requires sys.Good()
    ensures ch.Some? ==> ch == ChallengeOf(sys, m, s, pub, nonce, hStar, ctr)
    ensures ch.None? ==> exists n: nat :: Stuck(sys, m, s, pub, nonce, hStar, n)
  {
    hide ChallengeOf, FsSeed, Word32;
    var n := Grinding(sys, m, s, pub, nonce, hStar);
    ctr := Word32(n);
    if n == 0x1_0000_0000 {
      ch := None;
      assert Stuck(sys, m, s, pub, nonce, hStar, n);
    } else {
      ch := Derive(sys, m, s, pub, nonce, hStar, ctr);
      if ch.None? { assert Stuck(sys, m, s, pub, nonce, hStar, n); }
    }
  }

  method WriteProof(sys: System, m: D32, s: D16, input: seq<Byte>, stars: seq<D32>, rs: seq<D32>,
                    ds: seq<Digest3>, nonce: D32, hStar: D32, ctr: Word, c: Challenge) returns (stream: seq<Byte>)
    requires sys.Good() && |input| == sys.p.inputLen && |stars| == |rs| == sys.p.m && GoodChallenge(sys.p, c)
    requires ds == AllHonest(sys, m, s, input, stars, rs) && hStar == HonestStar(sys, m, s, input, stars, rs)
    ensures stream == Encode(sys.p, HonestProof(sys, m, s, input, stars, rs, nonce, ctr, c), Mark(c, sys.p.m), c.hidden)
  {
    hide StarOf, Preamble, EncodeClosed, EncodeOpenings, HonestOpened, HonestDigests;
    var inC := Mark(c, sys.p.m);
    var closed: seq<Closed> := [];
    for j := 0 to sys.p.m
      invariant closed == HonestClosed(ds, stars, inC)[..j]
    {
      closed := closed + [if inC[j] then BLANK else Closed(stars[j], ds[j].hPrime)];
    }
    var os := SecondPass(sys, m, s, input, stars, rs, c);
    var a := WriteClosed(closed, inC);
    var b := WriteOpenings(os, c.hidden);
    assert closed == HonestClosed(ds, stars, inC);
    assert HonestProof(sys, m, s, input, stars, rs, nonce, ctr, c) == Proof(nonce, hStar, ctr, closed, os);
    stream := Preamble(sys.p, nonce, hStar, ctr) + a + b;
  }

  /** The prover on given randomness. It refuses exactly the witnesses whose plain output is not the public
      one, and the verifier accepts every stream it writes. */
  method KkwProve(sys: System, m: D32, s: D16, pub: seq<Word>, input: seq<Byte>, stars: seq<D32>, rs: seq<D32>, nonce: D32)
    returns (out: Outcome)
    requires sys.Good() && |input| == sys.p.inputLen && |stars| == |rs| == sys.p.m
    ensures out.WrongOutput? <==> sys.p.m > 0 && PlainOutputs(sys, m, s, input) != pub
    ensures out.Written? ==> StreamAccepted(sys, m, s, pub, out.stream)
    ensures out.NoChallenge? ==> exists n: nat :: Stuck(sys, m, s, pub, nonce, HonestStar(sys, m, s, input, stars, rs), n)
  {
    hide PlainOutputs, StarOf, ChallengeOf, Accepts, Stuck, Encode, HonestDigests;
    var ok, ds := FirstPass(sys, m, s, pub, input, stars, rs);
    if !ok { return WrongOutput; }
    var hStar := StarOf(sys, Split(ds));
    var ctr, ch := Draw(sys, m, s, pub, nonce, hStar);
    assert hStar == HonestStar(sys, m, s, input, stars, rs);
    if ch.None? {
      ghost var n: nat :| Stuck(sys, m, s, pub, nonce, hStar, n);
      assert Stuck(sys, m, s, pub, nonce, HonestStar(sys, m, s, input, stars, rs), n);
      return NoChallenge;
    }
    var stream := WriteProof(sys, m, s, input, stars, rs, ds, nonce, hStar, ctr, ch.value);
    HonestAccepted(sys, m, s, pub, input, stars, rs, nonce, ctr, ch.value, stream);
    out := Written(stream);
  }

  lemma HonestAccepted(sys: System, m: D32, s: D16, pub: seq<Word>, input: seq<Byte>, stars: seq<D32>, rs: seq<D32>,
                       nonce: D32, ctr: Word, c: Challenge, stream: seq<Byte>)
    requires sys.Good() && |input| == sys.p.inputLen && |stars| == |rs| == sys.p.m
    requires sys.p.m == 0 || PlainOutputs(sys, m, s, input) == pub
    requires ChallengeOf(sys, m, s, pub, nonce, HonestStar(sys, m, s, input, stars, rs), ctr) == Some(c) && GoodChallenge(sys.p, c)
    requires stream == Encode(sys.p, HonestProof(sys, m, s, input, stars, rs, nonce, ctr, c), Mark(c, sys.p.m), c.hidden)
    ensures StreamAccepted(sys, m, s, pub, stream)
  {
    hide PlainOutputs, ChallengeOf, Accepts, Encode;
    Completeness(sys, m, s, pub, input, stars, rs, nonce, ctr, c);
    assert IsProofOf(sys, m, s, pub, stream, HonestProof(sys, m, s, input, stars, rs, nonce, ctr, c), c);
  }
}
