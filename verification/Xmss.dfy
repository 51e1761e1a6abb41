/** The XMSS hashes and signature verification, and the Halevi-Micali commitment the signature is on. */
module Xmss {
  import opened Words
  import opened Blake3
  import opened Gf128
  import opened Wots
  import opened Codeword

  const HEIGHT: nat := 32
  const NONCE_LEN: nat := 24

  type Seed = s: seq<Byte> | |s| == 16 witness seq(16, _ => Zeros(8))

  function HashMessage(seed: Seed, epoch: seq<Byte>, nonce: seq<Byte>, message: seq<Byte>): (d: Digest)
  {
    Th(seed + [Byte8(TWEAK_MESSAGE)] + epoch, nonce + message, 32)
  }

  function EndpointBytes(pk: seq<Node>): (b: seq<Byte>)
    ensures |b| == NODE_BYTES * |pk|
  {
    if pk == [] then [] else EndpointBytes(pk[..|pk| - 1]) + NodeBytes(pk[|pk| - 1])
  }

  /** The leaf: a hash of all 42 chain endpoints. */
  function HashPublicKey(seed: Seed, epoch: seq<Byte>, pk: seq<Node>): Node
  {
    NodeOf(Th(seed + [Byte8(TWEAK_LEAF)] + epoch, EndpointBytes(pk), NODE_BYTES))
  }

  function HashTreeNode(seed: Seed, left: Node, right: Node, level: nat, index: Word): Node
  {
    NodeOf(Th(seed + [Byte8(TWEAK_TREE)] + [Byte8(level)] + LittleEndian(index), NodeBytes(left) + NodeBytes(right), NODE_BYTES))
  }

  datatype Signature = Signature(leafIndex: Word, nonce: seq<Byte>, tips: seq<Node>, path: seq<Node>)
  {
    predicate WellFormed()
    {
      |nonce| == NONCE_LEN && |tips| == CHAINS && |path| == HEIGHT
    }
  }

  /** The node |path| levels above a leaf, climbing with the given siblings. */
  function Climb(seed: Seed, leaf: Node, idx: Word, path: seq<Node>): Node
    requires |path| <= 32
  {
    if path == [] then leaf
    else
      var h := |path| - 1;
      var node := Climb(seed, leaf, idx, path[..h]);
      if idx[h] then HashTreeNode(seed, path[h], node, h, Shr(idx, h + 1))
      else HashTreeNode(seed, node, path[h], h, Shr(idx, h + 1))
  }

  function EndpointsFrom(key: ChainKey, tips: seq<Node>, coords: seq<nat>): (pk: seq<Node>)
    requires |tips| == CHAINS && |coords| == CHAINS && forall c :: 0 <= c < CHAINS ==> coords[c] <= MAX_STEPS
    ensures |pk| == CHAINS
  {
    seq(CHAINS, c requires 0 <= c < CHAINS => Chain(key, tips[c], c, coords[c], MAX_STEPS - coords[c]))
  }

  function LeafOf(seed: Seed, sig: Signature, coords: seq<nat>): Node
    requires sig.WellFormed() && |coords| == CHAINS && forall c :: 0 <= c < CHAINS ==> coords[c] <= MAX_STEPS
  {
    var epoch := BigEndian(sig.leafIndex);
    HashPublicKey(seed, epoch, EndpointsFrom(ChainKey(seed, epoch), sig.tips, coords))
  }

  /** A signature is accepted when the digest is a target-sum codeword, and the chains completed from
      their coordinates hash to a leaf whose path climbs to the root. */
  predicate Verifies(seed: Seed, root: Node, message: seq<Byte>, sig: Signature)
    requires sig.WellFormed()
  {
    var d := HashMessage(seed, BigEndian(sig.leafIndex), sig.nonce, message);
    Accepted(d) && Climb(seed, LeafOf(seed, sig, Coords(d)), sig.leafIndex, sig.path) == root
  }

  lemma ShrTwice(w: Word, k: nat)
    ensures Shr(Shr(w, k), 1) == Shr(w, k + 1)
  {
  }

  /** The path walk, shifting the index right once a level. */
  method WalkAuthPath(seed: Seed, leaf: Node, leafIndex: Word, path: seq<Node>) returns (root: Node)
    requires |path| == HEIGHT
    ensures root == Climb(seed, leaf, leafIndex, path)
  {
    hide HashTreeNode;
    root := leaf;
    var idx := leafIndex;
    assert Shr(leafIndex, 0) == leafIndex;
    for h := 0 to HEIGHT
      invariant idx == Shr(leafIndex, h) && root == Climb(seed, leaf, leafIndex, path[..h])
    {
      ShrTwice(leafIndex, h);
      assert path[..h + 1][..h] == path[..h];
      if !idx[0] {
        root := HashTreeNode(seed, root, path[h], h, Shr(idx, 1));
      } else {
        root := HashTreeNode(seed, path[h], root, h, Shr(idx, 1));
      }
      idx := Shr(idx, 1);
    }
    assert path[..HEIGHT] == path;
  }

  /** Chain iteration from a start position. */
  method HashChain(key: ChainKey, start: Node, chain: nat, from: nat, steps: nat) returns (cur: Node)
    ensures cur == Chain(key, start, chain, from, steps)
  {
    hide ChainStep;
    cur := start;
    for i := 0 to steps
      invariant cur == Chain(key, start, chain, from, i)
    {
      cur := ChainStep(key, cur, Byte8(chain), Byte8(from + i + 1));
    }
  }

  method CompleteChains(key: ChainKey, tips: seq<Node>, coords: seq<nat>) returns (pk: seq<Node>)
    requires |tips| == CHAINS && |coords| == CHAINS && forall c :: 0 <= c < CHAINS ==> coords[c] <= MAX_STEPS
    ensures pk == EndpointsFrom(key, tips, coords)
  {
    hide Chain;
    pk := [];
    for i := 0 to CHAINS
      invariant pk == EndpointsFrom(key, tips, coords)[..i]
    {
      var end := HashChain(key, tips[i], i, coords[i], MAX_STEPS - coords[i]);
      pk := pk + [end];
    }
  }

  method Verify(seed: Seed, root: Node, message: seq<Byte>, sig: Signature) returns (ok: bool)
    requires sig.WellFormed()
    ensures ok == Verifies(seed, root, message, sig)
  {
    hide HashMessage, Chain, Climb, HashPublicKey, EndpointsFrom, Sum;
    var epoch := BigEndian(sig.leafIndex);
    var d := HashMessage(seed, epoch, sig.nonce, message);
    var clear, coords := ExtractCoords(d);
    if !clear { return false; }
    var total := SumOf(coords);
    if total != TARGET_SUM { return false; }
    var pk := CompleteChains(ChainKey(seed, epoch), sig.tips, coords);
    var computed := WalkAuthPath(seed, HashPublicKey(seed, epoch, pk), sig.leafIndex, sig.path);
    return computed == root;
  }

  // ---- the commitment ------------------------------------------------------

  const LINES: nat := 2
  const NONCES: nat := 6

  /** 16 bytes as a field element, little-endian limbs. */
  function Element(b: seq<Byte>, k: nat): Poly
    requires 16 * k + 16 <= |b|
  {
    Flat(NodeOf(b[16 * k..16 * k + 16]))
  }

  function ElementBytes(p: Poly): (b: seq<Byte>)
    ensures |b| == 16
  {
    NodeBytes(Limbs(p))
  }

  /** Message element plus the inner product of line `line` of a with r, over the first n terms. */
  function LineTo(message: seq<Byte>, a: seq<Byte>, r: seq<Byte>, line: nat, n: nat): Poly
    requires |message| == 32 && |a| == 192 && |r| == 96 && line < LINES && n <= NONCES
  {
    if n == 0 then Element(message, line)
    else PolyXor(LineTo(message, a, r, line, n - 1), Mul(Element(a, line * NONCES + n - 1), Element(r, n - 1)))
  }

  function Lines(message: seq<Byte>, a: seq<Byte>, r: seq<Byte>): (b: seq<Byte>)
    requires |message| == 32 && |a| == 192 && |r| == 96
    ensures |b| == 32
  {
    ElementBytes(LineTo(message, a, r, 0, NONCES)) + ElementBytes(LineTo(message, a, r, 1, NONCES))
  }

  function Domain(s: string): seq<Byte>
  {
    seq(|s|, i requires 0 <= i < |s| => Byte8(s[i] as int))
  }

  /** The digest of the commitment a || b || y that opening r and a make to the message. */
  function CommitDigest(message: seq<Byte>, r: seq<Byte>, a: seq<Byte>): (d: seq<Byte>)
    requires |message| == 32 && |a| == 192 && |r| == 96
    ensures |d| == 32
  {
    Th(Domain("HMd"), a + Lines(message, a, r) + Th(Domain("HMy"), r, 32), 32)
  }
}
