/** The witness as bytes: randomness r, matrix a, signature and schedule fill it without gap or overlap. */
module WitnessCodec {
  import opened Words
  import opened Blake3
  import opened Wots
  import opened Xmss
  import opened Statement
  import opened KkwCodec
  import opened SignatureCodec

  /** The i-th sixteen bytes from an offset. */
  function Piece(b: seq<Byte>, off: nat, i: nat): (p: seq<Byte>)
    requires off + NODE_BYTES * i + NODE_BYTES <= |b|
    ensures |p| == NODE_BYTES
  {
    b[off + NODE_BYTES * i..off + NODE_BYTES * i + NODE_BYTES]
  }

  lemma {:induction false} NodeBytesAt(ns: seq<Node>, i: nat)
    requires i < |ns|
    ensures Piece(EndpointBytes(ns), 0, i) == NodeBytes(ns[i])
    decreases |ns|
  {
    hide NodeBytes;
    var k := |ns| - 1;
    if i < k {
      NodeBytesAt(ns[..k], i);
      assert Piece(EndpointBytes(ns), 0, i) == Piece(EndpointBytes(ns[..k]), 0, i);
    }
  }

  lemma PieceOfSlice(b: seq<Byte>, off: nat, n: nat, i: nat)
    requires i < n && off + NODE_BYTES * n <= |b|
    ensures Piece(b[off..off + NODE_BYTES * n], 0, i) == Piece(b, off, i)
  {
    var c := b[off..off + NODE_BYTES * n];
    var x, y := Piece(c, 0, i), Piece(b, off, i);
    forall k | 0 <= k < NODE_BYTES
      ensures x[k] == y[k]
    {
      assert x[k] == c[NODE_BYTES * i + k] && y[k] == b[off + NODE_BYTES * i + k];
    }
  }

  lemma NodeAt(b: seq<Byte>, off: nat, n: nat, i: nat)
    requires i < n && off + NODE_BYTES * n <= |b|
    ensures NodesIn(b, off, n)[i] == NodeOf(Piece(b, off, i))
  {
    hide NodeOf;
  }

  lemma SamePieces(a: seq<Byte>, b: seq<Byte>, n: nat)
    requires |a| == |b| == NODE_BYTES * n && forall i :: 0 <= i < n ==> Piece(a, 0, i) == Piece(b, 0, i)
    ensures a == b
  {
    forall k | 0 <= k < |a|
      ensures a[k] == b[k]
    {
      var i := k / NODE_BYTES;
      assert Piece(a, 0, i)[k % NODE_BYTES] == Piece(b, 0, i)[k % NODE_BYTES];
    }
  }

  lemma NodesRead(b: seq<Byte>, off: nat, ns: seq<Node>)
    requires off + NODE_BYTES * |ns| <= |b| && b[off..off + NODE_BYTES * |ns|] == EndpointBytes(ns)
    ensures NodesIn(b, off, |ns|) == ns
  {
    hide NodeOf, NodeBytes, EndpointBytes, Piece, NodesIn;
    forall i | 0 <= i < |ns|
      ensures NodesIn(b, off, |ns|)[i] == ns[i]
    {
      NodeBytesAt(ns, i);
      NodeWords(ns[i]);
      NodeAt(b, off, |ns|, i);
      PieceOfSlice(b, off, |ns|, i);
    }
  }

  lemma NodesWritten(b: seq<Byte>, off: nat, ns: seq<Node>)
    requires off + NODE_BYTES * |ns| <= |b| && NodesIn(b, off, |ns|) == ns
    ensures b[off..off + NODE_BYTES * |ns|] == EndpointBytes(ns)
  {
    hide NodeOf, NodeBytes, EndpointBytes, Piece, NodesIn;
    var c := b[off..off + NODE_BYTES * |ns|];
    forall i | 0 <= i < |ns|
      ensures Piece(c, 0, i) == Piece(EndpointBytes(ns), 0, i)
    {
      NodeBytesAt(ns, i);
      NodeAt(b, off, |ns|, i);
      PieceOfSlice(b, off, |ns|, i);
      NodeRoundTrip(Piece(b, off, i));
    }
    SamePieces(c, EndpointBytes(ns), |ns|);
  }

  /** The nodes read from a stretch are those whose bytes lie there. */
  lemma NodesInIff(b: seq<Byte>, off: nat, ns: seq<Node>)
    requires off + NODE_BYTES * |ns| <= |b|
    ensures NodesIn(b, off, |ns|) == ns <==> b[off..off + NODE_BYTES * |ns|] == EndpointBytes(ns)
  {
    hide NodesIn, EndpointBytes;
    if NodesIn(b, off, |ns|) == ns { NodesWritten(b, off, ns); }
    if b[off..off + NODE_BYTES * |ns|] == EndpointBytes(ns) { NodesRead(b, off, ns); }
  }

  predicate HasParts(w: Witness, r: seq<Byte>, a: seq<Byte>, sig: Signature, sched: seq<Byte>)
  {
    w[..R_LEN] == r && w[A_OFF..LEAF_OFF] == a && SignatureIn(w) == sig && w[SCHEDULE_OFF..] == sched
  }

  function Assembled(r: seq<Byte>, a: seq<Byte>, sig: Signature, sched: seq<Byte>): (w: seq<Byte>)
  {
    r + a + BigEndian(sig.leafIndex) + sig.nonce + EndpointBytes(sig.tips) + EndpointBytes(sig.path) + sched
  }

  lemma BigEndianLeaf(w: Word)
    ensures LeafWord(BigEndian(w)) == w
  {
    var b := BigEndian(w);
    assert [b[3], b[2], b[1], b[0]] == LittleEndian(w);
    WordRoundTrip(w);
  }

  /** Every combination of parts makes a witness, and only one. */
  lemma PartsMakeWitness(w: Witness, r: seq<Byte>, a: seq<Byte>, sig: Signature, sched: seq<Byte>)
    requires |r| == 96 && |a| == 192 && sig.WellFormed() && |sched| == 99
    ensures HasParts(w, r, a, sig, sched) <==> w == Assembled(r, a, sig, sched)
  {
    hide NodesIn, EndpointBytes, BigEndian, LeafWord;
    BigEndianLeaf(sig.leafIndex);
    LeafRoundTrip(w[LEAF_OFF..NONCE_OFF]);
    NodesInIff(w, SIG_OFF, sig.tips);
    NodesInIff(w, PATH_OFF, sig.path);
    assert w == w[..R_LEN] + w[A_OFF..LEAF_OFF] + w[LEAF_OFF..NONCE_OFF] + w[NONCE_OFF..SIG_OFF] + w[SIG_OFF..PATH_OFF] + w[PATH_OFF..SCHEDULE_OFF] + w[SCHEDULE_OFF..];
    if w == Assembled(r, a, sig, sched) {
      assert w[..R_LEN] == r && w[A_OFF..LEAF_OFF] == a && w[LEAF_OFF..NONCE_OFF] == BigEndian(sig.leafIndex) && w[NONCE_OFF..SIG_OFF] == sig.nonce;
      assert w[SIG_OFF..PATH_OFF] == EndpointBytes(sig.tips) && w[PATH_OFF..SCHEDULE_OFF] == EndpointBytes(sig.path) && w[SCHEDULE_OFF..] == sched;
    }
  }
}
