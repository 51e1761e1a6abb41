/** The protocol on the statement's own circuit: what its prover refuses, what its verifier accepts, and
    which witness accepted proofs pin down. */
module StatementProof {
  import opened Words
  import opened Sharing
  import opened Engine
  import opened Builder
  import opened Wrappers
  import opened Wots
  import opened Xmss
  import opened Codeword
  import opened Schedule
  import opened Pool
  import opened Statement
  import opened KkwCodec
  import opened Kkw
  import opened KkwTheorems
  import opened KkwRun
  import opened KkwHiding

  /** A system whose circuit decides the statement, with any hashes, party count, instance counts and grinding. */
  ghost predicate ForStatement(sys: System)
  {
    && sys.p.inputLen == WITNESS_LEN && sys.p.ySize == GATES && sys.p.Ok() && sys.p.grind <= 256 && |sys.outs| == 8
    && (forall d :: sys.expand(d).Some? ==> GoodChallenge(sys.p, sys.expand(d).value))
    && forall m: D32, s: Seed, root: Node, w: Witness :: Decides(Net(INPUTS, sys.circuit), sys.outs, m, s, root, w)
  }

  /** Builds the system from the emitted gates. */
  method NewSystem(p: Params, xof: (D32, Stream, nat) -> Byte, th: (Tag, seq<Byte>) -> D32, expand: D32 -> Option<Challenge>) returns (sys: System)
    requires p.inputLen == WITNESS_LEN && p.ySize == GATES && p.Ok() && p.grind <= 256
    requires forall d :: expand(d).Some? ==> GoodChallenge(p, expand(d).value)
    ensures ForStatement(sys) && sys.Good()
    ensures sys == System(p, xof, th, expand, StatementNet().net.gates, StatementNet().ids)
  {
    hide StatementNet, Decides;
    StatementInputs();
    var net, outs := BuildStatement();
    sys := System(p, xof, th, expand, net.gates, outs);
    StatementGood(sys);
  }

  lemma StatementInputs()
    ensures StatementNet().net.inputs == INPUTS
  {
    hide StatementNet, Legal, Cost, Vals, PubOut, Satisfies, On;
    var m: D32, s: Seed, w: Witness := Blank(32), Blank(16), Blank(WITNESS_LEN);
    StatementDecides(m, s, ZERO_NODE, w);
  }

  /** Such a circuit meets everything the protocol asks of it. */
  lemma StatementGood(sys: System)
    requires ForStatement(sys)
    ensures sys.Good()
  {
    hide Legal, Cost, Vals, PubOut, Satisfies;
    var m: D32, s: Seed, w: Witness := Blank(32), Blank(16), Blank(WITNESS_LEN);
    assert Decides(Net(INPUTS, sys.circuit), sys.outs, m, s, ZERO_NODE, w);
  }

  /** Its plain outputs are the public output of a root iff the witness satisfies the statement. */
  lemma StatementOutputs(sys: System, m: D32, s: D16, root: Node, w: Witness)
    requires ForStatement(sys) && sys.Good()
    ensures PlainOutputs(sys, m, s, w) == PubOut(root) <==> Satisfies(m, s, root, w)
  {
    hide PlainRun, Legal, Cost, PubOut, Satisfies;
    var env, net := Given(m, s, w), Net(INPUTS, sys.circuit);
    assert Decides(net, sys.outs, m, s, root, w);
    assert AllGiven(w, m, s) == env;
    assert PlainOutputs(sys, m, s, w) == Vals(On(net, env), sys.outs);
  }

  /** Corrections and output shares of the statement circuit are settled by the seeds alone, before message,
      key seed and witness are known. */
  lemma SeedsAlone(sys: System, m: D32, s: D16, d: seq<Byte>, m': D32, s': D16, d': seq<Byte>, seeds: seq<D32>)
    requires ForStatement(sys) && sys.Good() && |d| == |d'| == sys.p.inputLen && |seeds| == sys.p.n
    ensures Run(sys, m, s, d, seeds).aux == Run(sys, m', s', d', seeds).aux
    ensures OutShares(sys, Run(sys, m, s, d, seeds).wires, sys.p.n) == OutShares(sys, Run(sys, m', s', d', seeds).wires, sys.p.n)
  {
    hide ForStatement, Run, HasOuts, OutShares, Preprocessed;
    SeedsDetermine(sys, m, s, d, seeds);
    SeedsDetermine(sys, m', s', d', seeds);
  }

  /** The prover refuses exactly the witnesses that do not satisfy the statement, whatever its randomness,
      and the verifier accepts every stream it writes. */
  method ProveStatement(sys: System, m: D32, s: D16, root: Node, w: Witness, stars: seq<D32>, rs: seq<D32>, nonce: D32) returns (out: Outcome)
    requires ForStatement(sys) && sys.Good() && |stars| == |rs| == sys.p.m
    ensures out.WrongOutput? <==> sys.p.m > 0 && !Satisfies(m, s, root, w)
    ensures out.Written? ==> StreamAccepted(sys, m, s, PubOut(root), out.stream)
    ensures out.NoChallenge? ==> exists n: nat :: Stuck(sys, m, s, PubOut(root), nonce, HonestStar(sys, m, s, w, stars, rs), n)
  {
    hide ForStatement, PlainOutputs, PubOut, Satisfies, StreamAccepted, Stuck;
    assert sys.p.inputLen == WITNESS_LEN by { InputLength(sys); }
    StatementOutputs(sys, m, s, root, w);
    out := KkwProve(sys, m, s, PubOut(root), w, stars, rs, nonce);
  }

  lemma InputLength(sys: System)
    requires ForStatement(sys)
    ensures sys.p.inputLen == WITNESS_LEN
  {
  }

  /** Completeness and its converse for honest proofs: under the challenge they derive, they are accepted iff
      the witness satisfies the statement. */
  lemma StatementCompleteness(sys: System, m: D32, s: D16, root: Node, w: Witness, stars: seq<D32>, rs: seq<D32>, nonce: D32, ctr: Word, c: Challenge)
    requires ForStatement(sys) && sys.Good() && |stars| == |rs| == sys.p.m
    requires ChallengeOf(sys, m, s, PubOut(root), nonce, HonestStar(sys, m, s, w, stars, rs), ctr) == Some(c)
    ensures Accepts(sys, m, s, PubOut(root), HonestProof(sys, m, s, w, stars, rs, nonce, ctr, c), c)
            <==> (sys.p.tau == 0 || Satisfies(m, s, root, w))
  {
    hide ForStatement, PlainOutputs, PubOut, Satisfies, Accepts, ChallengeOf, HonestStar;
    InputLength(sys);
    Completeness(sys, m, s, PubOut(root), w, stars, rs, nonce, ctr, c);
    StatementOutputs(sys, m, s, root, w);
  }

  /** Three accepted proofs with one first message, two opening instance j with different parties hidden and
      one leaving it closed, give a witness that satisfies the statement: it opens a commitment to the
      message, carries a signature that verifies under the key, and schedules its chains. */
  lemma StatementSoundness(X: set<seq<Byte>>, sys: System, m: D32, s: D16, root: Node, j: nat,
                           pf1: Proof, c1: Challenge, k1: nat, o1: Opened, e1: nat, pf2: Proof, c2: Challenge, k2: nat, o2: Opened, e2: nat,
                           pf3: Proof, c3: Challenge, cl: Closed)
    requires ForStatement(sys) && sys.Good() && CollisionFree(sys, X) && pf1.hStar == pf2.hStar == pf3.hStar && e1 != e2
    requires Opens(X, sys, m, s, PubOut(root), pf1, c1, k1, j, o1, e1) && Opens(X, sys, m, s, PubOut(root), pf2, c2, k2, j, o2, e2)
    requires LeavesClosed(X, sys, m, s, PubOut(root), pf3, c3, j, cl)
    ensures |o1.x| == sys.p.inputLen == WITNESS_LEN && Satisfies(m, s, root, Extracted(sys, o1, cl.seedStar))
  {
    hide ForStatement, PlainOutputs, PubOut, Satisfies, Opens, LeavesClosed, CollisionFree, Seeds, Lams;
    InputLength(sys);
    SpecialSoundness(X, sys, m, s, PubOut(root), j, pf1, c1, k1, o1, e1, pf2, c2, k2, o2, e2, pf3, c3, cl);
    StatementOutputs(sys, m, s, root, Extracted(sys, o1, cl.seedStar));
  }

  /** No opening tells two witnesses of one statement apart: whatever was opened with the one could have been opened
      with the other, under an extendable output that differs on the hidden party's seed alone. */
  lemma StatementHides(sys: System, m: D32, s: D16, root: Node, w: Witness, v: Witness, star: D32, r: D32, e: nat) returns (xof: (D32, Stream, nat) -> Byte)
    requires ForStatement(sys) && sys.Good() && sys.p.inputLen == WITNESS_LEN && e < sys.p.n && HiddenApart(sys, star, e)
    requires Satisfies(m, s, root, w) && Satisfies(m, s, root, v)
    ensures Explains(sys, xof, m, s, w, v, star, r, e)
  {
    hide ForStatement, PlainOutputs, PubOut, Satisfies, Explains, Seeds, HiddenApart;
    StatementOutputs(sys, m, s, root, w);
    StatementOutputs(sys, m, s, root, v);
    xof := OpeningHides(sys, m, s, w, v, star, r, e);
  }

  // ---- one instance --------------------------------------------------------

  /** One honest instance, from witness to verdict: with any party hidden, the verifier recomputes the prover's
      digests, and accepts iff the witness satisfies the statement. */
  method ProveAndCheck(sys: System, m: D32, s: D16, root: Node, w: Witness, star: D32, r: D32, e: nat) returns (ok: bool, ds: Digest3)
    requires ForStatement(sys) && sys.Good() && e < sys.p.n && sys.p.inputLen == WITNESS_LEN
    ensures ok <==> Satisfies(m, s, root, w)
    ensures ds == HonestDigests(sys, m, s, w, star, r)
  {
    hide ForStatement, HonestView, HonestOpened, HonestDigests, OpenedAccepted, OpenedDigests, PlainOutputs, PubOut, Satisfies;
    var o := OpenInstance(sys, m, s, w, star, r, e);
    ok, ds := CheckOpened(sys, m, s, PubOut(root), o, e);
    OpenedHonestAccepted(sys, m, s, PubOut(root), w, star, r, e);
    OpenedHonestDigests(sys, m, s, w, star, r, e);
    OutputsArePlain(sys, m, s, w, star);
    StatementOutputs(sys, m, s, root, w);
  }

  /** What an opened instance must share with the seed of a closed one. */
  ghost predicate Follows(sys: System, o: Opened, e: nat, star: D32)
    requires sys.Good() && e < sys.p.n
  {
    o.ke == Without(Seeds(sys, star), e) && (e != 0 ==> o.aux == Preprocessed(sys, Seeds(sys, star)).aux)
  }

  method CheckFollows(sys: System, o: Opened, e: nat, star: D32) returns (ok: bool)
    requires sys.Good() && OpenedShape(sys.p, o, e) && e < sys.p.n
    ensures ok <==> Follows(sys, o, e, star)
  {
    hide Run, HasOuts, Seeds;
    var seeds := Seeds(sys, star);
    var _, t := Evaluate(sys, Blank(32), Blank(16), Blank(sys.p.inputLen), seeds, false);
    assert t.aux[..sys.p.ySize] == t.aux[..];
    ok := o.ke == Without(seeds, e) && (e == 0 || o.aux == t.aux[..]);
  }

  /** Extraction for the statement, checked: two openings of one instance that hide different parties, follow
      one seed and agree on masked witness, output shares and broadcasts, and both pass, give a witness. */
  method CheckTwice(sys: System, m: D32, s: D16, root: Node, o1: Opened, e1: nat, o2: Opened, e2: nat, star: D32) returns (ok: bool)
    requires ForStatement(sys) && sys.Good() && OpenedShape(sys.p, o1, e1) && OpenedShape(sys.p, o2, e2)
    requires e1 < sys.p.n && e2 < sys.p.n && e1 != e2 && sys.p.inputLen == WITNESS_LEN
    ensures ok <==> TwoOpenings(sys, m, s, o1, e1, o2, e2, star)
                    && OpenedAccepted(sys, m, s, PubOut(root), o1, e1) && OpenedAccepted(sys, m, s, PubOut(root), o2, e2)
    ensures ok ==> Satisfies(m, s, root, Extracted(sys, o1, star))
  {
    hide ForStatement, OpenedAccepted, OpenedDigests, Replayed, FilledRows, Inserted, PlainOutputs, PubOut, Satisfies, Extracted,
      Seeds, Preprocessed, PartyRows;
    var follows1 := CheckFollows(sys, o1, e1, star);
    var follows2 := CheckFollows(sys, o2, e2, star);
    var pass1, _ := CheckOpened(sys, m, s, PubOut(root), o1, e1);
    var pass2, _ := CheckOpened(sys, m, s, PubOut(root), o2, e2);
    var _, rows1 := ReplayOpened(sys, m, s, o1, e1);
    var _, rows2 := ReplayOpened(sys, m, s, o2, e2);
    InsertedIsFilled(Replayed(sys, m, s, o1, e1).slots, o1.msgs, e1, sys.p.n);
    InsertedIsFilled(Replayed(sys, m, s, o2, e2).slots, o2.msgs, e2, sys.p.n);
    ok := follows1 && follows2 && pass1 && pass2 && o1.x == o2.x && o1.yp == o2.yp
       && Inserted(rows1, o1.msgs, e1) == Inserted(rows2, o2.msgs, e2);
    if ok {
      OpeningsExtract(sys, m, s, PubOut(root), o1, e1, o2, e2, star);
      StatementOutputs(sys, m, s, root, Extracted(sys, o1, star));
    }
  }

  // ---- filling in the schedule ---------------------------------------------

  /** Writes the chain schedule into a witness. On the digests a signer may use it succeeds, and then the
      witness satisfies the statement iff its signature verifies; on others no schedule could help. */
  method FillSchedule(message: seq<Byte>, seed: Seed, w: Witness) returns (ok: bool, filled: Witness)
    requires |message| == 32
    ensures filled[..SCHEDULE_OFF] == w[..SCHEDULE_OFF]
    ensures ok ==> forall root: Node :: Satisfies(message, seed, root, filled) <==> Verifies(seed, root, DigestIn(message, w), SignatureIn(w))
    ensures !ok ==> forall root: Node :: !Verifies(seed, root, DigestIn(message, w), SignatureIn(w))
  {
    hide Accepted, Complete, Coords, Indices, HashMessage, DigestIn, Verifies;
    var d := HashMessage(seed, w[LEAF_OFF..NONCE_OFF], w[NONCE_OFF..SIG_OFF], DigestIn(message, w));
    var sched: seq<Byte>;
    ok, sched := BuildSchedule(d);
    filled := w;
    forall root: Node
      ensures Verifies(seed, root, DigestIn(message, w), SignatureIn(w)) ==> Accepted(d)
    {
      VerifiesAccepts(message, seed, root, w);
    }
    if ok {
      filled := w[..SCHEDULE_OFF] + sched;
      forall root: Node
        ensures Satisfies(message, seed, root, filled) <==> Verifies(seed, root, DigestIn(message, w), SignatureIn(w))
      {
        OnlySchedule(message, seed, root, w, filled);
        assert filled[SCHEDULE_OFF..] == sched;
      }
    }
  }

  lemma VerifiesAccepts(message: seq<Byte>, seed: Seed, root: Node, w: Witness)
    requires |message| == 32
    ensures Verifies(seed, root, DigestIn(message, w), SignatureIn(w)) ==>
              Accepted(HashMessage(seed, w[LEAF_OFF..NONCE_OFF], w[NONCE_OFF..SIG_OFF], DigestIn(message, w)))
  {
    hide Accepted, Climb, LeafOf, HashMessage, DigestIn, Coords;
    LeafRoundTrip(w[LEAF_OFF..NONCE_OFF]);
  }

  /** Everything but the schedule is read from the part of the witness before it. */
  lemma OnlySchedule(message: seq<Byte>, seed: Seed, root: Node, w: Witness, v: Witness)
    requires |message| == 32 && v[..SCHEDULE_OFF] == w[..SCHEDULE_OFF]
    ensures DigestIn(message, v) == DigestIn(message, w) && SignatureIn(v) == SignatureIn(w)
    ensures v[LEAF_OFF..NONCE_OFF] == w[LEAF_OFF..NONCE_OFF] && v[NONCE_OFF..SIG_OFF] == w[NONCE_OFF..SIG_OFF]
  {
    hide CommitDigest, LeafWord, NodeOf;
    SamePart(w, v, 0, R_LEN);
    assert w[..R_LEN] == w[0..R_LEN] && v[..R_LEN] == v[0..R_LEN];
    SamePart(w, v, A_OFF, LEAF_OFF);
    SamePart(w, v, LEAF_OFF, NONCE_OFF);
    SamePart(w, v, NONCE_OFF, SIG_OFF);
    SameNodes(w, v, SIG_OFF, CHAINS);
    SameNodes(w, v, PATH_OFF, HEIGHT);
  }

  lemma SamePart(w: Witness, v: Witness, i: nat, j: nat)
    requires v[..SCHEDULE_OFF] == w[..SCHEDULE_OFF] && i <= j <= SCHEDULE_OFF
    ensures v[i..j] == w[i..j]
  {
    assert v[i..j] == v[..SCHEDULE_OFF][i..j] && w[i..j] == w[..SCHEDULE_OFF][i..j];
  }

  lemma SameNodes(w: Witness, v: Witness, off: nat, n: nat)
    requires v[..SCHEDULE_OFF] == w[..SCHEDULE_OFF] && off + NODE_BYTES * n <= SCHEDULE_OFF
    ensures NodesIn(w, off, n) == NodesIn(v, off, n)
  {
    hide NodeOf;
    forall i | 0 <= i < n
      ensures w[off + NODE_BYTES * i..off + NODE_BYTES * i + NODE_BYTES] == v[off + NODE_BYTES * i..off + NODE_BYTES * i + NODE_BYTES]
    {
      SamePart(w, v, off + NODE_BYTES * i, off + NODE_BYTES * i + NODE_BYTES);
    }
  }
}
