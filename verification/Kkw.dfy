/** The cut-and-choose protocol: what a prover writes for each instance, what a verifier recomputes from
    an opened and from a closed one, and when it accepts. The extendable-output function and the
    tagged hash are uninterpreted, so nothing below depends on what they compute. */
module Kkw {
  import opened Wrappers
  import opened Words
  import opened Sharing
  import opened Engine
  import opened Builder
  import opened Blake3
  import opened KkwCodec

  datatype Tag = PpCom | Hj | HPrime | HOut | HStar1 | HStar2 | HStar3 | HStar | Fs | Grind
  datatype Stream = TapeStream | SeedStream | ShareStream

  /** picks are the opened instances, hidden the party left out of each. */
  datatype Challenge = Challenge(picks: seq<nat>, hidden: seq<nat>)

  predicate Increasing(s: seq<nat>)
  {
    forall i, j :: 0 <= i < j < |s| ==> s[i] < s[j]
  }

  predicate GoodChallenge(p: Params, c: Challenge)
  {
    && |c.picks| == |c.hidden| == p.tau && Increasing(c.picks)
    && (forall k :: 0 <= k < p.tau ==> c.picks[k] < p.m && c.hidden[k] < p.n)
  }

  function Mark(c: Challenge, m: nat): (inC: seq<bool>)
    ensures |inC| == m && forall j :: 0 <= j < m ==> (inC[j] <==> j in c.picks)
  {
    seq(m, j requires 0 <= j < m => j in c.picks)
  }

  /** Bytes that both sides know: message and key seed. They enter a circuit as inputs without a mask. */
  const PUBLIC_LEN: nat := 48

  /** The hashes, the challenge expansion (None where its rejection sampling never ends) and the circuit
      with its eight output wires. Its inputs are the witness, the message and the key seed. */
  datatype System = System(
    p: Params,
    xof: (D32, Stream, nat) -> Byte,
    th: (Tag, seq<Byte>) -> D32,
    expand: D32 -> Option<Challenge>,
    circuit: Program,
    outs: seq<nat>)
  {
    function Inputs(): nat { p.inputLen + PUBLIC_LEN }

    ghost predicate Good()
    {
      && p.Ok() && p.grind <= 256 && GoodCircuit()
      && (forall d :: expand(d).Some? ==> GoodChallenge(p, expand(d).value))
    }

    predicate GoodCircuit()
    {
      && Legal(circuit, Inputs()) && Cost(circuit) == p.ySize
      && |outs| == 8 && forall w :: 0 <= w < |outs| ==> outs[w] < Inputs() + |circuit|
    }
  }

  // ---- expanding seeds -----------------------------------------------------

  function DrawnByte(sys: System, key: D32, s: Stream, at: nat): Byte { sys.xof(key, s, at) }

  function Drawn(sys: System, key: D32, s: Stream, from: nat, n: nat): (b: seq<Byte>)
    ensures |b| == n && forall i :: 0 <= i < n ==> b[i] == DrawnByte(sys, key, s, from + i)
  {
    var r: seq<Bits> := seq(n, (i: nat) => DrawnByte(sys, key, s, from + i));
    assert forall i :: 0 <= i < n ==> r[i] == DrawnByte(sys, key, s, from + i);
    r
  }

  function Seeds(sys: System, star: D32): (r: seq<D32>)
    ensures |r| == sys.p.n
  {
    seq(sys.p.n, i requires 0 <= i < sys.p.n => Drawn(sys, star, SeedStream, 32 * i, 32))
  }

  function TapeWord(sys: System, seed: D32, k: nat): Word
  {
    LoadWord(Drawn(sys, seed, TapeStream, 4 * k, 4), 0)
  }

  function TapeWords(sys: System, seed: D32, from: nat): (r: seq<Word>)
    ensures |r| == sys.p.ySize && forall g :: 0 <= g < |r| ==> r[g] == TapeWord(sys, seed, from + g)
  {
    var r: seq<Bits> := seq(sys.p.ySize, (g: nat) => TapeWord(sys, seed, from + g));
    assert forall g :: 0 <= g < |r| ==> r[g] == TapeWord(sys, seed, from + g);
    r
  }

  function TapeOf(sys: System, seed: D32): (t: Tape)
    ensures |t.lam| == |t.prod| == sys.p.ySize
  {
    Tape(TapeWords(sys, seed, 0), TapeWords(sys, seed, sys.p.ySize))
  }

  function Tapes(sys: System, seeds: seq<D32>): (r: seq<Tape>)
    ensures |r| == |seeds| && TapesCover(r, sys.p.ySize)
    ensures forall i :: 0 <= i < |r| ==> r[i] == TapeOf(sys, seeds[i])
  {
    seq(|seeds|, i requires 0 <= i < |seeds| => TapeOf(sys, seeds[i]))
  }

  function Lams(sys: System, seeds: seq<D32>): (r: seq<seq<Byte>>)
    ensures |r| == |seeds| && forall i :: 0 <= i < |r| ==> |r[i]| == sys.p.inputLen
    ensures forall i :: 0 <= i < |r| ==> r[i] == Drawn(sys, seeds[i], ShareStream, 0, sys.p.inputLen)
  {
    seq(|seeds|, i requires 0 <= i < |seeds| => Drawn(sys, seeds[i], ShareStream, 0, sys.p.inputLen))
  }

  predicate Widths(lams: seq<seq<Byte>>, n: nat)
  {
    forall i :: 0 <= i < |lams| ==> |lams[i]| == n
  }

  function XorByte(a: Byte, b: Byte): Byte { XorBits(a, b) }

  /** Byte b of the input with every party's share XORed in, party by party. */
  function MaskByte(x: Byte, lams: seq<seq<Byte>>, b: nat): Byte
    requires forall i :: 0 <= i < |lams| ==> b < |lams[i]|
  {
    if lams == [] then x else XorByte(MaskByte(x, lams[..|lams| - 1], b), lams[|lams| - 1][b])
  }

  function Masked(input: seq<Byte>, lams: seq<seq<Byte>>): (d: seq<Byte>)
    requires Widths(lams, |input|)
    ensures |d| == |input|
  {
    seq(|input|, b requires 0 <= b < |input| => MaskByte(input[b], lams, b))
  }

  function Column(lams: seq<seq<Byte>>, b: nat): (r: seq<Word>)
    requires forall i :: 0 <= i < |lams| ==> b < |lams[i]|
    ensures |r| == |lams| && forall i :: 0 <= i < |r| ==> r[i] == Ext(lams[i][b])
  {
    seq(|lams|, i requires 0 <= i < |lams| => Ext(lams[i][b]))
  }

  /** The input wires: masked witness bytes with each party's share of their masks. */
  function Ins(d: seq<Byte>, lams: seq<seq<Byte>>): (ws: seq<Mw>)
    requires Widths(lams, |d|)
    ensures |ws| == |d| && Shared(ws, |lams|)
    ensures forall b :: 0 <= b < |d| ==> ws[b] == Mw(Ext(d[b]), Column(lams, b))
  {
    seq(|d|, b requires 0 <= b < |d| => Mw(Ext(d[b]), Column(lams, b)))
  }

  /** Public bytes on wires: no party holds a share of a mask. */
  function Publics(bytes: seq<Byte>, n: nat): (ws: seq<Mw>)
    ensures |ws| == |bytes| && Shared(ws, n)
    ensures forall b :: 0 <= b < |bytes| ==> ws[b] == Mw(Ext(bytes[b]), ZeroWords(n))
  {
    seq(|bytes|, b requires 0 <= b < |bytes| => Mw(Ext(bytes[b]), ZeroWords(n)))
  }

  /** All input wires: masked witness, message, key seed. */
  function AllIns(d: seq<Byte>, lams: seq<seq<Byte>>, m: D32, s: D16): (ws: seq<Mw>)
    requires Widths(lams, |d|)
    ensures |ws| == |d| + PUBLIC_LEN && Shared(ws, |lams|)
  {
    Ins(d, lams) + Publics(m + s, |lams|)
  }

  /** What the inputs stand for. */
  function AllGiven(input: seq<Byte>, m: D32, s: D16): (env: seq<Word>)
    ensures |env| == |input| + PUBLIC_LEN
  {
    ExtAll(input + m + s)
  }

  lemma ExtXor(a: Byte, b: Byte)
    ensures Ext(XorByte(a, b)) == Xor(Ext(a), Ext(b))
  {
  }

  lemma {:induction false} ByteUnmasks(x: Byte, lams: seq<seq<Byte>>, b: nat)
    requires forall i :: 0 <= i < |lams| ==> b < |lams[i]|
    ensures Ext(MaskByte(x, lams, b)) == Xor(Ext(x), XorAll(Column(lams, b)))
  {
    var k := |lams| - 1;
    if lams == [] {
      assert XorAll(Column(lams, b)) == ZERO;
    } else {
      ByteUnmasks(x, lams[..k], b);
      ExtXor(MaskByte(x, lams[..k], b), lams[k][b]);
      assert Column(lams, b) == Column(lams[..k], b) + [Ext(lams[k][b])];
      XorAllSnoc(Column(lams[..k], b), Ext(lams[k][b]));
    }
  }

  /** Masking is undone on the wires: masked input and shares stand for the input, public bytes for themselves. */
  lemma InputUnmasks(input: seq<Byte>, lams: seq<seq<Byte>>, m: D32, s: D16)
    requires Widths(lams, |input|)
    ensures UnmaskAll(AllIns(Masked(input, lams), lams, m, s)) == AllGiven(input, m, s)
  {
    hide Ext;
    var ins, want, pub := AllIns(Masked(input, lams), lams, m, s), AllGiven(input, m, s), m + s;
    forall b | 0 <= b < |ins|
      ensures Unmask(ins[b]) == want[b]
    {
      if b < |input| {
        ByteUnmasks(input[b], lams, b);
        MaskTwice(Ext(input[b]), XorAll(Column(lams, b)));
      } else {
        assert ins[b] == Mw(Ext(pub[b - |input|]), ZeroWords(|lams|)) && (input + m + s)[b] == pub[b - |input|];
        ZeroWordsCancel(|lams|);
        MaskNothing(Ext(pub[b - |input|]));
      }
    }
  }

  lemma MaskTwice(a: Word, b: Word)
    ensures Xor(Xor(a, b), b) == a
  {
  }

  lemma MaskNothing(a: Word)
    ensures Xor(a, ZERO) == a
  {
  }

  // ---- one instance --------------------------------------------------------

  predicate HasOuts(sys: System, wires: seq<Mw>, n: nat)
  {
    Shared(wires, n) && forall w :: 0 <= w < |sys.outs| ==> sys.outs[w] < |wires|
  }

  /** The run on a masked witness d under the parties' seeds. */
  ghost function Run(sys: System, m: D32, s: D16, d: seq<Byte>, seeds: seq<D32>): (v: View)
    requires sys.Good() && |d| == sys.p.inputLen
    ensures ValidView(v, |seeds|, sys.p.ySize) && HasOuts(sys, v.wires, |seeds|)
  {
    ProveRun(sys.circuit, AllIns(d, Lams(sys, seeds), m, s), Tapes(sys, seeds))
  }

  function Public(sys: System, wires: seq<Mw>, n: nat): (zh: seq<Word>)
    requires HasOuts(sys, wires, n)
    ensures |zh| == |sys.outs|
  {
    seq(|sys.outs|, w requires 0 <= w < |sys.outs| => wires[sys.outs[w]].h)
  }

  function ShareRow(sys: System, wires: seq<Mw>, n: nat, i: nat): (row: seq<Word>)
    requires HasOuts(sys, wires, n) && i < n
    ensures |row| == |sys.outs|
  {
    seq(|sys.outs|, w requires 0 <= w < |sys.outs| => wires[sys.outs[w]].l[i])
  }

  /** Every party's mask shares of the output words. */
  function OutShares(sys: System, wires: seq<Mw>, n: nat): (yp: seq<seq<Word>>)
    requires HasOuts(sys, wires, n)
    ensures |yp| == n && forall i :: 0 <= i < n ==> yp[i] == ShareRow(sys, wires, n, i)
  {
    seq(n, i requires 0 <= i < n => ShareRow(sys, wires, n, i))
  }

  function WordShares(yp: seq<seq<Word>>, w: nat): (c: seq<Word>)
    requires forall i :: 0 <= i < |yp| ==> w < |yp[i]|
    ensures |c| == |yp| && forall i :: 0 <= i < |c| ==> c[i] == yp[i][w]
  {
    seq(|yp|, i requires 0 <= i < |yp| => yp[i][w])
  }

  /** The public output words with all mask shares XORed in. */
  function Recombined(zh: seq<Word>, yp: seq<seq<Word>>): (r: seq<Word>)
    requires forall i :: 0 <= i < |yp| ==> |yp[i]| == |zh|
    ensures |r| == |zh| && forall w :: 0 <= w < |zh| ==> r[w] == Xor(zh[w], XorAll(WordShares(yp, w)))
  {
    seq(|zh|, w requires 0 <= w < |zh| => Xor(zh[w], XorAll(WordShares(yp, w))))
  }

  function PartyRow(cols: seq<seq<Word>>, i: nat): (row: seq<Word>)
    requires forall g :: 0 <= g < |cols| ==> i < |cols[g]|
    ensures |row| == |cols| && forall g :: 0 <= g < |cols| ==> row[g] == cols[g][i]
  {
    seq(|cols|, g requires 0 <= g < |cols| => cols[g][i])
  }

  /** The broadcasts party by party, as they are hashed. */
  function PartyRows(cols: seq<seq<Word>>, n: nat): (rows: seq<seq<Word>>)
    requires forall g :: 0 <= g < |cols| ==> |cols[g]| == n
    ensures |rows| == n && forall i :: 0 <= i < n ==> rows[i] == PartyRow(cols, i)
  {
    seq(n, i requires 0 <= i < n => PartyRow(cols, i))
  }

  // ---- commitments ---------------------------------------------------------

  function PartyPreimage(party: nat, seed: D32, aux: seq<Word>): seq<Byte>
  {
    [FromNat(party, 8)] + seed + (if party == 0 then EncodeWords(aux) else [])
  }

  function PartyCom(sys: System, party: nat, seed: D32, aux: seq<Word>): D32
  {
    sys.th(PpCom, PartyPreimage(party, seed, aux))
  }

  function Coms(sys: System, seeds: seq<D32>, aux: seq<Word>): (r: seq<D32>)
    ensures |r| == |seeds| && forall i :: 0 <= i < |r| ==> r[i] == PartyCom(sys, i, seeds[i], aux)
  {
    seq(|seeds|, i requires 0 <= i < |seeds| => PartyCom(sys, i, seeds[i], aux))
  }

  function HjOf(sys: System, coms: seq<D32>): D32 { sys.th(Hj, EncodeSeeds(coms)) }

  function HPrimeOf(sys: System, d: seq<Byte>, rows: seq<seq<Word>>, r: D32): D32
  {
    sys.th(HPrime, d + EncodeRows(rows) + r)
  }

  function HOutOf(sys: System, yp: seq<seq<Word>>): D32 { sys.th(HOut, EncodeRows(yp)) }

  /** The three per-instance digests: preprocessing, online messages, output shares. */
  datatype Digests = Digests(hj: seq<D32>, hPrime: seq<D32>, hOut: seq<D32>)

  function Top(sys: System, ds: Digests): seq<Byte>
  {
    sys.th(HStar1, EncodeSeeds(ds.hj)) + sys.th(HStar2, EncodeSeeds(ds.hPrime)) + sys.th(HStar3, EncodeSeeds(ds.hOut))
  }

  function StarOf(sys: System, ds: Digests): D32 { sys.th(HStar, Top(sys, ds)) }

  // ---- Fiat-Shamir ---------------------------------------------------------

  function BigEndianAll(ws: seq<Word>): (b: seq<Byte>)
    ensures |b| == 4 * |ws|
  {
    if ws == [] then [] else BigEndianAll(ws[..|ws| - 1]) + BigEndian(ws[|ws| - 1])
  }

  /** Statement, nonce and first message. */
  function FsPreimage(m: D32, s: D16, pub: seq<Word>, nonce: D32, hStar: D32): seq<Byte>
  {
    m + BigEndianAll(pub) + s + nonce + hStar
  }

  function GrindPreimage(sys: System, m: D32, s: D16, pub: seq<Word>, nonce: D32, hStar: D32, ctr: Word): seq<Byte>
  {
    sys.th(Fs, FsPreimage(m, s, pub, nonce, hStar)) + BigEndian(ctr)
  }

  function FsSeed(sys: System, m: D32, s: D16, pub: seq<Word>, nonce: D32, hStar: D32, ctr: Word): D32
  {
    sys.th(Grind, GrindPreimage(sys, m, s, pub, nonce, hStar, ctr))
  }

  /** The low grind bits of the digest read as a big-endian number are clear. */
  predicate Ground(d: D32, grind: nat)
    requires grind <= 256
  {
    forall b :: 0 <= b < grind ==> !d[31 - b / 8][b % 8]
  }

  /** The challenge both sides derive; None if the counter does not meet the grinding target. */
  ghost function ChallengeOf(sys: System, m: D32, s: D16, pub: seq<Word>, nonce: D32, hStar: D32, ctr: Word): (c: Option<Challenge>)
    requires sys.Good()
    ensures c.Some? ==> GoodChallenge(sys.p, c.value)
  {
    var d := FsSeed(sys, m, s, pub, nonce, hStar, ctr);
    if Ground(d, sys.p.grind) then sys.expand(d) else None
  }

  // ---- the verifier's view of an instance ----------------------------------

  /** What the seeds alone determine: the run on zero witness, zero message and zero key seed. */
  ghost function Preprocessed(sys: System, seeds: seq<D32>): (v: View)
    requires sys.Good()
    ensures ValidView(v, |seeds|, sys.p.ySize) && HasOuts(sys, v.wires, |seeds|)
  {
    Run(sys, Blank(32), Blank(16), Blank(sys.p.inputLen), seeds)
  }

  datatype Digest3 = Digest3(hj: D32, hPrime: D32, hOut: D32)

  /** A closed instance: both preprocessing digests recomputed from the published seed. */
  ghost function ClosedDigests(sys: System, c: Closed): Digest3
    requires sys.Good()
  {
    var seeds := Seeds(sys, c.seedStar);
    var v := Preprocessed(sys, seeds);
    Digest3(HjOf(sys, Coms(sys, seeds, v.aux)), c.hPrime, HOutOf(sys, OutShares(sys, v.wires, sys.p.n)))
  }

  /** The visible parties' replay of an opened instance. */
  ghost function Replayed(sys: System, m: D32, s: D16, o: Opened, e: nat): (v: Replay)
    requires sys.Good() && OpenedShape(sys.p, o, e)
    ensures ValidReplay(v, sys.p.n - 1, sys.p.ySize) && HasOuts(sys, v.wires, sys.p.n - 1)
  {
    VerifyRun(sys.circuit, AllIns(o.x, Lams(sys, o.ke), m, s), Tapes(sys, o.ke), e, o.msgs, o.aux)
  }

  function SlotOfParty(i: nat, e: nat): (j: nat)
    requires i != e
    ensures Orig(j, e) == i
  {
    if i < e then i else i - 1
  }

  /** The broadcasts party by party, with the stream of the hidden party put in its place. */
  function FilledRows(slots: seq<seq<Word>>, msgs: seq<Word>, e: nat, n: nat): (rows: seq<seq<Word>>)
    requires e < n && forall g :: 0 <= g < |slots| ==> |slots[g]| == n - 1
    ensures |rows| == n
    ensures forall i :: 0 <= i < n ==> rows[i] == if i == e then msgs else PartyRow(slots, SlotOfParty(i, e))
  {
    seq(n, i requires 0 <= i < n => if i == e then msgs else PartyRow(slots, SlotOfParty(i, e)))
  }

  function FilledComs(sys: System, o: Opened, e: nat): (coms: seq<D32>)
    requires OpenedShape(sys.p, o, e) && e < sys.p.n
    ensures |coms| == sys.p.n
    ensures forall i :: 0 <= i < sys.p.n ==> coms[i] == if i == e then o.com else PartyCom(sys, i, o.ke[SlotOfParty(i, e)], o.aux)
  {
    seq(sys.p.n, i requires 0 <= i < sys.p.n => if i == e then o.com else PartyCom(sys, i, o.ke[SlotOfParty(i, e)], o.aux))
  }

  /** Every visible party's output shares are the ones in the proof. */
  predicate SharesMatch(sys: System, wires: seq<Mw>, o: Opened, e: nat)
    requires OpenedShape(sys.p, o, e) && |sys.outs| == 8 && sys.p.n >= 2 && HasOuts(sys, wires, sys.p.n - 1)
  {
    forall j :: 0 <= j < sys.p.n - 1 ==> ShareRow(sys, wires, sys.p.n - 1, j) == o.yp[Orig(j, e)]
  }

  ghost predicate OpenedAccepted(sys: System, m: D32, s: D16, pub: seq<Word>, o: Opened, e: nat)
    requires sys.Good() && OpenedShape(sys.p, o, e)
  {
    var v := Replayed(sys, m, s, o, e);
    SharesMatch(sys, v.wires, o, e) && Recombined(Public(sys, v.wires, sys.p.n - 1), o.yp) == pub
  }

  ghost function OpenedDigests(sys: System, m: D32, s: D16, o: Opened, e: nat): Digest3
    requires sys.Good() && OpenedShape(sys.p, o, e) && e < sys.p.n
  {
    var v := Replayed(sys, m, s, o, e);
    Digest3(HjOf(sys, FilledComs(sys, o, e)), HPrimeOf(sys, o.x, FilledRows(v.slots, o.msgs, e, sys.p.n), o.r), HOutOf(sys, o.yp))
  }

  // ---- acceptance ----------------------------------------------------------

  /** The digests that the opened instances write over the slots of base, round by round. */
  function Placed<T>(base: seq<T>, at: seq<nat>, vals: seq<T>, k: nat): (r: seq<T>)
    requires k <= |at| == |vals| && forall i :: 0 <= i < |at| ==> at[i] < |base|
    ensures |r| == |base|
  {
    if k == 0 then base else Placed(base, at, vals, k - 1)[at[k - 1] := vals[k - 1]]
  }

  lemma {:induction false} PlacedAt<T>(base: seq<T>, at: seq<nat>, vals: seq<T>, k: nat)
    requires k <= |at| == |vals| && Increasing(at) && forall i :: 0 <= i < |at| ==> at[i] < |base|
    ensures forall i :: 0 <= i < k ==> Placed(base, at, vals, k)[at[i]] == vals[i]
    ensures forall j :: 0 <= j < |base| && j !in at ==> Placed(base, at, vals, k)[j] == base[j]
  {
    if k > 0 {
      PlacedAt(base, at, vals, k - 1);
    }
  }

  ghost function ClosedAll(sys: System, pf: Proof): (r: seq<Digest3>)
    requires sys.Good()
    ensures |r| == |pf.closed| && forall j :: 0 <= j < |r| ==> r[j] == ClosedDigests(sys, pf.closed[j])
  {
    seq(|pf.closed|, j requires 0 <= j < |pf.closed| => ClosedDigests(sys, pf.closed[j]))
  }

  ghost predicate Shaped(sys: System, pf: Proof, c: Challenge)
  {
    GoodChallenge(sys.p, c) && ProofShape(sys.p, pf, Mark(c, sys.p.m), c.hidden)
  }

  ghost function OpenedAll(sys: System, m: D32, s: D16, pf: Proof, c: Challenge): (r: seq<Digest3>)
    requires sys.Good() && Shaped(sys, pf, c)
    ensures |r| == sys.p.tau
    ensures forall k :: 0 <= k < |r| ==> r[k] == OpenedDigests(sys, m, s, pf.openings[k], c.hidden[k])
  {
    seq(sys.p.tau, k requires 0 <= k < sys.p.tau => OpenedDigests(sys, m, s, pf.openings[k], c.hidden[k]))
  }

  function Split(ds: seq<Digest3>): (r: Digests)
    ensures |r.hj| == |r.hPrime| == |r.hOut| == |ds|
    ensures forall j :: 0 <= j < |ds| ==> r.hj[j] == ds[j].hj && r.hPrime[j] == ds[j].hPrime && r.hOut[j] == ds[j].hOut
  {
    Digests(seq(|ds|, j requires 0 <= j < |ds| => ds[j].hj),
            seq(|ds|, j requires 0 <= j < |ds| => ds[j].hPrime),
            seq(|ds|, j requires 0 <= j < |ds| => ds[j].hOut))
  }

  ghost function AllDigests(sys: System, m: D32, s: D16, pf: Proof, c: Challenge): (ds: seq<Digest3>)
    requires sys.Good() && Shaped(sys, pf, c)
    ensures |ds| == sys.p.m
  {
    Placed(ClosedAll(sys, pf), c.picks, OpenedAll(sys, m, s, pf, c), sys.p.tau)
  }

  ghost predicate RoundsAccepted(sys: System, m: D32, s: D16, pub: seq<Word>, pf: Proof, c: Challenge)
    requires sys.Good() && Shaped(sys, pf, c)
  {
    forall k :: 0 <= k < sys.p.tau ==> OpenedAccepted(sys, m, s, pub, pf.openings[k], c.hidden[k])
  }

  /** The verifier's verdict on a parsed proof under challenge c. */
  ghost predicate Accepts(sys: System, m: D32, s: D16, pub: seq<Word>, pf: Proof, c: Challenge)
    requires sys.Good()
  {
    && ChallengeOf(sys, m, s, pub, pf.nonce, pf.hStar, pf.ctr) == Some(c)
    && Shaped(sys, pf, c)
    && RoundsAccepted(sys, m, s, pub, pf, c)
    && StarOf(sys, Split(AllDigests(sys, m, s, pf, c))) == pf.hStar
  }

  /** Some accepted proof encodes to exactly this stream. */
  ghost predicate StreamAccepted(sys: System, m: D32, s: D16, pub: seq<Word>, stream: seq<Byte>)
    requires sys.Good()
  {
    exists pf, c :: IsProofOf(sys, m, s, pub, stream, pf, c)
  }

  ghost predicate IsProofOf(sys: System, m: D32, s: D16, pub: seq<Word>, stream: seq<Byte>, pf: Proof, c: Challenge)
    requires sys.Good()
  {
    Accepts(sys, m, s, pub, pf, c) && stream == Encode(sys.p, pf, Mark(c, sys.p.m), c.hidden)
  }
}
