/** What a signature is bound to when none of the hash inputs at hand collide: two signatures that one leaf verifies
    under one root share their path and lie on the same 42 chains. So a leaf has one signature for each digest,
    and a signature for another digest must walk some chain backwards. */
module XmssBinding {
  import opened Words
  import opened Sharing
  import opened Blake3
  import opened Gf128
  import opened Wots
  import opened Codeword
  import opened Xmss
  import opened Statement
  import opened KkwCodec
  import opened HashInputs

  /** No two different members of X have the same n-byte hash. */
  ghost predicate CollisionFree(X: set<seq<Byte>>, n: nat)
    requires n <= OUT_LEN
  {
    forall f, g :: f in X && g in X && Hashed(f, n) == Hashed(g, n) ==> f == g
  }

  lemma SameNodeBytes(a: seq<Byte>, b: seq<Byte>)
    requires |a| == |b| == NODE_BYTES && NodeOf(a) == NodeOf(b)
    ensures a == b
  {
    NodeRoundTrip(a);
    NodeRoundTrip(b);
  }

  /** Equal nodes come from equal calls. */
  lemma CallBinds(X: set<seq<Byte>>, c: Call, d: Call)
    requires CollisionFree(X, NODE_BYTES) && c.Sized() && d.Sized() && c.Input() in X && d.Input() in X
    requires NodeOf(Hashed(c.Input(), NODE_BYTES)) == NodeOf(Hashed(d.Input(), NODE_BYTES))
    ensures c == d
  {
    hide Hashed, Call.Input, Call.Sized, NodeOf;
    SameNodeBytes(Hashed(c.Input(), NODE_BYTES), Hashed(d.Input(), NODE_BYTES));
    InputInjective(c, d);
  }

  // ---- chains --------------------------------------------------------------

  /** The call that makes step i of a walk from position `from`. */
  function StepOf(seed: Seed, epoch: seq<Byte>, x: Node, chain: nat, from: nat, i: nat): Call
  {
    StepCall(Chain(ChainKey(seed, epoch), x, chain, from, i), seed, epoch, Byte8(chain), Byte8(from + (i + 1)))
  }

  ghost predicate CoversChain(X: set<seq<Byte>>, seed: Seed, epoch: seq<Byte>, x: Node, chain: nat, from: nat, n: nat)
  {
    forall i :: 0 <= i < n ==> StepOf(seed, epoch, x, chain, from, i).Input() in X
  }

  lemma ChainNext(seed: Seed, epoch: seq<Byte>, x: Node, chain: nat, from: nat, i: nat)
    ensures Chain(ChainKey(seed, epoch), x, chain, from, i + 1) == NodeOf(Hashed(StepOf(seed, epoch, x, chain, from, i).Input(), NODE_BYTES))
  {
    hide ChainStep, Hashed, Call.Input, Byte8, NodeOf;
    StepIsCall(ChainKey(seed, epoch), seed, Chain(ChainKey(seed, epoch), x, chain, from, i), Byte8(chain), Byte8(from + (i + 1)));
  }

  /** Walks of the same length from the same position that end together started together. */
  lemma {:induction false} ChainBinds(X: set<seq<Byte>>, seed: Seed, epoch: seq<Byte>, x: Node, y: Node, chain: nat, from: nat, n: nat)
    requires CollisionFree(X, NODE_BYTES) && |epoch| == 4
    requires CoversChain(X, seed, epoch, x, chain, from, n) && CoversChain(X, seed, epoch, y, chain, from, n)
    requires Chain(ChainKey(seed, epoch), x, chain, from, n) == Chain(ChainKey(seed, epoch), y, chain, from, n)
    ensures x == y
    decreases n
  {
    hide ChainStep, Hashed, Call.Input, Byte8, NodeOf, CollisionFree;
    if n > 0 {
      ChainNext(seed, epoch, x, chain, from, n - 1);
      ChainNext(seed, epoch, y, chain, from, n - 1);
      CallBinds(X, StepOf(seed, epoch, x, chain, from, n - 1), StepOf(seed, epoch, y, chain, from, n - 1));
      ChainBinds(X, seed, epoch, x, y, chain, from, n - 1);
    }
  }

  lemma CoversRest(X: set<seq<Byte>>, seed: Seed, epoch: seq<Byte>, x: Node, chain: nat, from: nat, m: nat, n: nat)
    requires CoversChain(X, seed, epoch, x, chain, from, m + n)
    ensures CoversChain(X, seed, epoch, Chain(ChainKey(seed, epoch), x, chain, from, m), chain, from + m, n)
  {
    hide Chain, Call.Input, Byte8;
    var y, start := Chain(ChainKey(seed, epoch), x, chain, from, m), from + m;
    forall i | 0 <= i < n
      ensures StepOf(seed, epoch, y, chain, start, i).Input() in X
    {
      ChainSplits(ChainKey(seed, epoch), x, chain, from, m, i);
      assert from + m + (i + 1) == from + (m + i + 1);
      assert StepOf(seed, epoch, y, chain, start, i) == StepOf(seed, epoch, x, chain, from, m + i);
    }
  }

  /** Two walks that end together at the top: the one that starts lower passes through the start of the other. */
  lemma LowerMeetsHigher(X: set<seq<Byte>>, seed: Seed, epoch: seq<Byte>, x: Node, y: Node, chain: nat, a: nat, b: nat)
    requires CollisionFree(X, NODE_BYTES) && |epoch| == 4 && a <= b <= MAX_STEPS
    requires CoversChain(X, seed, epoch, x, chain, a, MAX_STEPS - a) && CoversChain(X, seed, epoch, y, chain, b, MAX_STEPS - b)
    requires Chain(ChainKey(seed, epoch), x, chain, a, MAX_STEPS - a) == Chain(ChainKey(seed, epoch), y, chain, b, MAX_STEPS - b)
    ensures Chain(ChainKey(seed, epoch), x, chain, a, b - a) == y
  {
    hide Chain, CoversChain, CollisionFree;
    ChainSplits(ChainKey(seed, epoch), x, chain, a, b - a, MAX_STEPS - b);
    assert (b - a) + (MAX_STEPS - b) == MAX_STEPS - a && a + (b - a) == b;
    CoversRest(X, seed, epoch, x, chain, a, b - a, MAX_STEPS - b);
    ChainBinds(X, seed, epoch, Chain(ChainKey(seed, epoch), x, chain, a, b - a), y, chain, b, MAX_STEPS - b);
  }

  // ---- the climb -----------------------------------------------------------

  /** The call that climbs from level h to the next. */
  function ClimbCall(seed: Seed, leaf: Node, idx: Word, path: seq<Node>, h: nat): Call
    requires h < |path| <= 32
  {
    var node := Climb(seed, leaf, idx, path[..h]);
    if idx[h] then TreeCall(seed, Byte8(h), Shr(idx, h + 1), path[h], node)
    else TreeCall(seed, Byte8(h), Shr(idx, h + 1), node, path[h])
  }

  ghost predicate CoversClimb(X: set<seq<Byte>>, seed: Seed, leaf: Node, idx: Word, path: seq<Node>)
    requires |path| <= 32
  {
    forall h :: 0 <= h < |path| ==> ClimbCall(seed, leaf, idx, path, h).Input() in X
  }

  lemma ClimbNext(seed: Seed, leaf: Node, idx: Word, path: seq<Node>)
    requires 0 < |path| <= 32
    ensures Climb(seed, leaf, idx, path) == NodeOf(Hashed(ClimbCall(seed, leaf, idx, path, |path| - 1).Input(), NODE_BYTES))
  {
    hide HashTreeNode, Hashed, Call.Input, Byte8, NodeOf;
    var h := |path| - 1;
    var node := Climb(seed, leaf, idx, path[..h]);
    TreeIsCall(seed, path[h], node, h, Shr(idx, h + 1));
    TreeIsCall(seed, node, path[h], h, Shr(idx, h + 1));
  }

  lemma CoversPrefix(X: set<seq<Byte>>, seed: Seed, leaf: Node, idx: Word, path: seq<Node>)
    requires 0 < |path| <= 32 && CoversClimb(X, seed, leaf, idx, path)
    ensures CoversClimb(X, seed, leaf, idx, path[..|path| - 1])
  {
    hide Climb, Call.Input, Byte8;
    var p := path[..|path| - 1];
    forall h | 0 <= h < |p|
      ensures ClimbCall(seed, leaf, idx, p, h).Input() in X
    {
      assert p[..h] == path[..h];
      assert ClimbCall(seed, leaf, idx, p, h) == ClimbCall(seed, leaf, idx, path, h);
    }
  }

  /** One index, one root: the leaf and all siblings are determined. */
  lemma {:induction false} ClimbBinds(X: set<seq<Byte>>, seed: Seed, idx: Word, a: Node, p: seq<Node>, b: Node, q: seq<Node>)
    requires CollisionFree(X, NODE_BYTES) && |p| == |q| <= 32
    requires CoversClimb(X, seed, a, idx, p) && CoversClimb(X, seed, b, idx, q)
    requires Climb(seed, a, idx, p) == Climb(seed, b, idx, q)
    ensures a == b && p == q
    decreases |p|
  {
    hide Hashed, Call.Input, Byte8, NodeOf, CollisionFree, HashTreeNode;
    if p != [] {
      var h := |p| - 1;
      ClimbNext(seed, a, idx, p);
      ClimbNext(seed, b, idx, q);
      CallBinds(X, ClimbCall(seed, a, idx, p, h), ClimbCall(seed, b, idx, q, h));
      CoversPrefix(X, seed, a, idx, p);
      CoversPrefix(X, seed, b, idx, q);
      ClimbBinds(X, seed, idx, a, p[..h], b, q[..h]);
      assert p == p[..h] + [p[h]] && q == q[..h] + [q[h]];
    }
  }

  // ---- signatures ----------------------------------------------------------

  function EpochOf(sig: Signature): (e: seq<Byte>)
    ensures |e| == 4
  {
    BigEndian(sig.leafIndex)
  }

  function CoordsOf(seed: Seed, message: seq<Byte>, sig: Signature): (cs: seq<nat>)
    ensures |cs| == CHAINS && forall c :: 0 <= c < CHAINS ==> cs[c] <= MAX_STEPS
  {
    Coords(HashMessage(seed, EpochOf(sig), sig.nonce, message))
  }

  function LeafCallOf(seed: Seed, message: seq<Byte>, sig: Signature): Call
    requires sig.WellFormed()
  {
    LeafCall(seed, EpochOf(sig), EndpointsFrom(ChainKey(seed, EpochOf(sig)), sig.tips, CoordsOf(seed, message, sig)))
  }

  /** What verifying a signature hashes after the message. */
  ghost predicate Covers(X: set<seq<Byte>>, seed: Seed, message: seq<Byte>, sig: Signature)
    requires sig.WellFormed()
  {
    var cs := CoordsOf(seed, message, sig);
    && (forall c :: 0 <= c < CHAINS ==> CoversChain(X, seed, EpochOf(sig), sig.tips[c], c, cs[c], MAX_STEPS - cs[c]))
    && LeafCallOf(seed, message, sig).Input() in X
    && CoversClimb(X, seed, LeafOf(seed, sig, cs), sig.leafIndex, sig.path)
  }

  lemma LeafOfIsCall(seed: Seed, message: seq<Byte>, sig: Signature)
    requires sig.WellFormed()
    ensures LeafOf(seed, sig, CoordsOf(seed, message, sig)) == NodeOf(Hashed(LeafCallOf(seed, message, sig).Input(), NODE_BYTES))
  {
    hide HashPublicKey, EndpointsFrom, CoordsOf, Hashed, Call.Input, NodeOf;
    LeafIsCall(seed, EpochOf(sig), EndpointsFrom(ChainKey(seed, EpochOf(sig)), sig.tips, CoordsOf(seed, message, sig)));
  }

  lemma SameLeafSamePath(X: set<seq<Byte>>, seed: Seed, root: Node, m: seq<Byte>, a: Signature, m': seq<Byte>, b: Signature)
    requires CollisionFree(X, NODE_BYTES) && a.WellFormed() && b.WellFormed() && a.leafIndex == b.leafIndex
    requires Verifies(seed, root, m, a) && Verifies(seed, root, m', b) && Covers(X, seed, m, a) && Covers(X, seed, m', b)
    ensures a.path == b.path
    ensures EndpointsFrom(ChainKey(seed, EpochOf(a)), a.tips, CoordsOf(seed, m, a)) == EndpointsFrom(ChainKey(seed, EpochOf(b)), b.tips, CoordsOf(seed, m', b))
  {
    hide CollisionFree, CoversChain, CoversClimb, Climb, LeafOf, HashMessage, Coords, Accepted, Hashed, Call.Input, EndpointsFrom, NodeOf;
    ClimbBinds(X, seed, a.leafIndex, LeafOf(seed, a, CoordsOf(seed, m, a)), a.path, LeafOf(seed, b, CoordsOf(seed, m', b)), b.path);
    LeafOfIsCall(seed, m, a);
    LeafOfIsCall(seed, m', b);
    CallBinds(X, LeafCallOf(seed, m, a), LeafCallOf(seed, m', b));
  }

  /** Signatures of one leaf, for any messages and nonces, share their path and their chains: on each chain, the tip
      with the lower coordinate walks up to the other. */
  lemma TipsOnOneChain(X: set<seq<Byte>>, seed: Seed, root: Node, m: seq<Byte>, a: Signature, m': seq<Byte>, b: Signature, c: nat)
    requires CollisionFree(X, NODE_BYTES) && a.WellFormed() && b.WellFormed() && a.leafIndex == b.leafIndex && c < CHAINS
    requires Verifies(seed, root, m, a) && Verifies(seed, root, m', b) && Covers(X, seed, m, a) && Covers(X, seed, m', b)
    requires CoordsOf(seed, m, a)[c] <= CoordsOf(seed, m', b)[c]
    ensures a.path == b.path
    ensures Chain(ChainKey(seed, EpochOf(a)), a.tips[c], c, CoordsOf(seed, m, a)[c], CoordsOf(seed, m', b)[c] - CoordsOf(seed, m, a)[c]) == b.tips[c]
  {
    hide CollisionFree, CoversChain, CoversClimb, Climb, LeafOf, HashMessage, Coords, Accepted, Hashed, Call.Input, NodeOf, Verifies, Chain, CoordsOf;
    SameLeafSamePath(X, seed, root, m, a, m', b);
    var key := ChainKey(seed, EpochOf(a));
    var cs, ds := CoordsOf(seed, m, a), CoordsOf(seed, m', b);
    assert EndpointsFrom(key, a.tips, cs)[c] == Chain(key, a.tips[c], c, cs[c], MAX_STEPS - cs[c]);
    assert EndpointsFrom(key, b.tips, ds)[c] == Chain(key, b.tips[c], c, ds[c], MAX_STEPS - ds[c]);
    LowerMeetsHigher(X, seed, EpochOf(a), a.tips[c], b.tips[c], c, cs[c], ds[c]);
  }

  lemma NoSteps(key: ChainKey, x: Node, chain: nat, from: nat)
    ensures Chain(key, x, chain, from, 0) == x
  {
  }

  /** One signature for each leaf, nonce and message. */
  lemma SignatureUnique(X: set<seq<Byte>>, seed: Seed, root: Node, m: seq<Byte>, a: Signature, b: Signature)
    requires CollisionFree(X, NODE_BYTES) && a.WellFormed() && b.WellFormed() && a.leafIndex == b.leafIndex && a.nonce == b.nonce
    requires Verifies(seed, root, m, a) && Verifies(seed, root, m, b) && Covers(X, seed, m, a) && Covers(X, seed, m, b)
    ensures a == b
  {
    hide CollisionFree, Covers, Verifies, Chain, HashMessage, Coords;
    assert CoordsOf(seed, m, a) == CoordsOf(seed, m, b);
    TipsOnOneChain(X, seed, root, m, a, m, b, 0);
    forall c | 0 <= c < CHAINS
      ensures a.tips[c] == b.tips[c]
    {
      TipsOnOneChain(X, seed, root, m, a, m, b, c);
      NoSteps(ChainKey(seed, EpochOf(a)), a.tips[c], c, CoordsOf(seed, m, a)[c]);
    }
    assert a.tips == b.tips;
  }

  /** A second digest at a leaf inverts a chain: the new signature shows, on some chain, a node strictly below the
      one the known signature shows, and that node walks up to it. */
  lemma SecondDigestInverts(X: set<seq<Byte>>, seed: Seed, root: Node, m: seq<Byte>, known: Signature, m': seq<Byte>, newer: Signature) returns (c: nat)
    requires CollisionFree(X, NODE_BYTES) && known.WellFormed() && newer.WellFormed() && known.leafIndex == newer.leafIndex
    requires Verifies(seed, root, m, known) && Verifies(seed, root, m', newer) && Covers(X, seed, m, known) && Covers(X, seed, m', newer)
    requires HashMessage(seed, EpochOf(known), known.nonce, m)[..16] != HashMessage(seed, EpochOf(newer), newer.nonce, m')[..16]
    ensures c < CHAINS && CoordsOf(seed, m', newer)[c] < CoordsOf(seed, m, known)[c]
    ensures Chain(ChainKey(seed, EpochOf(newer)), newer.tips[c], c, CoordsOf(seed, m', newer)[c],
                  CoordsOf(seed, m, known)[c] - CoordsOf(seed, m', newer)[c]) == known.tips[c]
  {
    hide CollisionFree, Covers, Chain, HashMessage, Coords, Accepted, Climb, LeafOf;
    var d, e := HashMessage(seed, EpochOf(known), known.nonce, m), HashMessage(seed, EpochOf(newer), newer.nonce, m');
    CodewordsIncomparable(e, d);
    c :| 0 <= c < CHAINS && Coords(e)[c] < Coords(d)[c];
    TipsOnOneChain(X, seed, root, m', newer, m, known, c);
  }

  // ---- the commitment ------------------------------------------------------

  lemma ElementApart(b: seq<Byte>, b': seq<Byte>, k: nat)
    requires 16 * k + 16 <= |b| == |b'| && Element(b, k) == Element(b', k)
    ensures b[16 * k..16 * k + 16] == b'[16 * k..16 * k + 16]
  {
    hide Flat, Limbs, NodeOf;
    LimbsFlat(NodeOf(b[16 * k..16 * k + 16]));
    LimbsFlat(NodeOf(b'[16 * k..16 * k + 16]));
    SameNodeBytes(b[16 * k..16 * k + 16], b'[16 * k..16 * k + 16]);
  }

  lemma PolyXorCancels(a: Poly, b: Poly, c: Poly)
    requires PolyXor(a, c) == PolyXor(b, c)
    ensures a == b
  {
    forall i | 0 <= i < 128
      ensures a[i] == b[i]
    {
      assert PolyXor(a, c)[i] == PolyXor(b, c)[i];
    }
  }

  lemma ElementBytesApart(p: Poly, q: Poly)
    requires ElementBytes(p) == ElementBytes(q)
    ensures p == q
  {
    hide Limbs, NodeBytes;
    NodesApart(Limbs(p), Limbs(q));
    PolyOfLimbs(p);
    PolyOfLimbs(q);
  }

  lemma PolyOfLimbs(p: Poly)
    ensures Flat(Limbs(p)) == p
  {
    var f := Flat(Limbs(p));
    forall i | 0 <= i < 128
      ensures f[i] == p[i]
    {
      assert 32 * (i / 32) + i % 32 == i;
    }
  }

  /** Under the same a and r, the lines determine the message. */
  lemma LinesBind(m: seq<Byte>, m': seq<Byte>, a: seq<Byte>, r: seq<Byte>)
    requires |m| == |m'| == 32 && |a| == 192 && |r| == 96 && Lines(m, a, r) == Lines(m', a, r)
    ensures m == m'
  {
    hide LineTo, ElementBytes, Element, InnerTo, PolyXor;
    Unjoin(ElementBytes(LineTo(m, a, r, 0, NONCES)), ElementBytes(LineTo(m, a, r, 1, NONCES)),
           ElementBytes(LineTo(m', a, r, 0, NONCES)), ElementBytes(LineTo(m', a, r, 1, NONCES)));
    forall line | 0 <= line < 2
      ensures m[16 * line..16 * line + 16] == m'[16 * line..16 * line + 16]
    {
      ElementBytesApart(LineTo(m, a, r, line, NONCES), LineTo(m', a, r, line, NONCES));
      LineIsInner(m, a, r, line, NONCES);
      LineIsInner(m', a, r, line, NONCES);
      PolyXorCancels(Element(m, line), Element(m', line), InnerTo(a, r, line, NONCES));
      ElementApart(m, m', line);
    }
    assert m[16 * 0..16 * 0 + 16] == m'[16 * 0..16 * 0 + 16] && m[16 * 1..16 * 1 + 16] == m'[16 * 1..16 * 1 + 16];
    assert m == m[0..16] + m[16..32] && m' == m'[0..16] + m'[16..32];
  }

  /** The commitment is binding: openings with one digest are one opening, of one message. */
  lemma CommitmentBinds(X: set<seq<Byte>>, m: seq<Byte>, r: seq<Byte>, a: seq<Byte>, m': seq<Byte>, r': seq<Byte>, a': seq<Byte>)
    requires |m| == |m'| == 32 && |a| == |a'| == 192 && |r| == |r'| == 96 && CollisionFree(X, 32)
    requires OpeningCall(r).Input() in X && CommitInput(m, r, a).Input() in X
    requires OpeningCall(r').Input() in X && CommitInput(m', r', a').Input() in X
    requires CommitDigest(m, r, a) == CommitDigest(m', r', a')
    ensures m == m' && r == r' && a == a'
  {
    hide Hashed, Call.Input, CommitDigest, Lines;
    CommitIsCall(m, r, a);
    CommitIsCall(m', r', a');
    InputInjective(CommitInput(m, r, a), CommitInput(m', r', a'));
    InputInjective(OpeningCall(r), OpeningCall(r'));
    LinesBind(m, m', a, r);
  }
}
