/** The one full tree that a key stands for: all leaves, all inner nodes, and above the key's height the
    fixed siblings up to the published root. */
module Tree {
  import opened Words
  import opened Blake3
  import opened Wots
  import opened Codeword
  import opened Xmss

  /** A key: its public seed, its chain starts by leaf and chain, and its siblings above the tree. */
  datatype Key = Key(seed: Seed, secret: (nat, nat) -> Node, upper: nat -> Node)

  function ChainKeyAt(k: Key, leaf: nat): ChainKey
  {
    ChainKey(k.seed, BigEndian(Word32(leaf)))
  }

  /** Chain c of a leaf, walked to its end. */
  function Endpoint(k: Key, leaf: nat, c: nat): Node
  {
    Chain(ChainKeyAt(k, leaf), k.secret(leaf, c), c, 0, MAX_STEPS)
  }

  function Endpoints(k: Key, leaf: nat): (pk: seq<Node>)
    ensures |pk| == CHAINS && forall c :: 0 <= c < CHAINS ==> pk[c] == Endpoint(k, leaf, c)
  {
    hide Endpoint;
    var r: seq<seq<Word>> := seq(CHAINS, c requires 0 <= c < CHAINS => Endpoint(k, leaf, c));
    assert forall c :: 0 <= c < CHAINS ==> r[c] == Endpoint(k, leaf, c);
    r
  }

  function LeafNode(k: Key, leaf: nat): Node
  {
    HashPublicKey(k.seed, BigEndian(Word32(leaf)), Endpoints(k, leaf))
  }

  function TreeNode(k: Key, level: nat, index: nat): Node
    decreases level
  {
    if level == 0 then LeafNode(k, index)
    else HashTreeNode(k.seed, TreeNode(k, level - 1, 2 * index), TreeNode(k, level - 1, 2 * index + 1), level - 1, Word32(index))
  }

  /** The node n levels above the top of the tree, climbed with the fixed siblings. */
  function UpperNode(k: Key, height: nat, n: nat): Node
    decreases n
  {
    if n == 0 then TreeNode(k, height, 0)
    else HashTreeNode(k.seed, UpperNode(k, height, n - 1), k.upper(n - 1), height + n - 1, ZERO)
  }

  function Root(k: Key, height: nat): Node
    requires height <= HEIGHT
  {
    UpperNode(k, height, HEIGHT - height)
  }

  /** The neighbour under the same parent: the lowest bit flipped. */
  function Flip(v: nat): nat
  {
    if v % 2 == 0 then v + 1 else v - 1
  }

  function Sibling(k: Key, height: nat, leaf: nat, h: nat): Node
  {
    if h < height then TreeNode(k, h, Flip(Up(leaf, h))) else k.upper(h - height)
  }

  function AuthPath(k: Key, height: nat, leaf: nat): (p: seq<Node>)
    ensures |p| == HEIGHT && forall h :: 0 <= h < HEIGHT ==> p[h] == Sibling(k, height, leaf, h)
  {
    seq(HEIGHT, h requires 0 <= h < HEIGHT => Sibling(k, height, leaf, h))
  }

  // ---- indices -------------------------------------------------------------

  lemma {:induction false} UpSum(v: nat, a: nat, b: nat)
    ensures Up(v, a + b) == Up(Up(v, a), b)
    decreases b
  {
    if b > 0 { UpSum(v, a, b - 1); }
  }

  lemma {:induction false} UpBound(v: nat, n: nat, h: nat)
    requires v < Pow2(n) && h <= n
    ensures Up(v, h) < Pow2(n - h)
    decreases h
  {
    if h > 0 {
      UpBound(v, n, h - 1);
      assert Pow2(n - (h - 1)) == 2 * Pow2(n - h);
    }
  }

  lemma {:induction false} UpZero(v: nat, n: nat, h: nat)
    requires v < Pow2(n) && n <= h
    ensures Up(v, h) == 0
    decreases h
  {
    if h == n {
      UpBound(v, n, n);
      assert Pow2(0) == 1;
    } else {
      UpZero(v, n, h - 1);
    }
  }

  lemma LowBit(v: nat, h: nat)
    requires h < 32
    ensures Word32(v)[h] == (Up(v, h) % 2 == 1)
  {
    FromNatBit(v, 32, h);
  }

  /** Shifting a leaf index right is going up. */
  lemma ShiftIsUp(v: nat, h: nat)
    requires v < Pow2(32)
    ensures Shr(Word32(v), h) == Word32(Up(v, h))
  {
    hide Up, Word32, Pow2;
    var a, b := Shr(Word32(v), h), Word32(Up(v, h));
    forall i | 0 <= i < 32
      ensures a[i] == b[i]
    {
      LowBit(Up(v, h), i);
      UpSum(v, h, i);
      if i + h < 32 {
        LowBit(v, i + h);
        assert h + i == i + h;
      } else {
        UpZero(v, 32, h + i);
      }
    }
  }

  // ---- paths ---------------------------------------------------------------

  lemma ClimbStep(seed: Seed, leaf: Node, idx: Word, path: seq<Node>)
    requires |path| <= 32
    ensures path == [] ==> Climb(seed, leaf, idx, path) == leaf
    ensures path != [] ==>
              var h := |path| - 1;
              var node := Climb(seed, leaf, idx, path[..h]);
              Climb(seed, leaf, idx, path)
              == if idx[h] then HashTreeNode(seed, path[h], node, h, Shr(idx, h + 1)) else HashTreeNode(seed, node, path[h], h, Shr(idx, h + 1))
  {
    hide HashTreeNode;
  }

  lemma TreeStep(k: Key, h: nat, i: nat)
    ensures h == 0 ==> TreeNode(k, h, i) == LeafNode(k, i)
    ensures h > 0 ==> TreeNode(k, h, i) == HashTreeNode(k.seed, TreeNode(k, h - 1, 2 * i), TreeNode(k, h - 1, 2 * i + 1), h - 1, Word32(i))
  {
    hide HashTreeNode, LeafNode;
  }

  lemma UpStep(v: nat, h: nat)
    ensures Up(v, 0) == v && (h > 0 ==> Up(v, h) == Up(v, h - 1) / 2)
  {
  }

  /** Climbing h levels of the path from a leaf gives its ancestor h levels up. */
  lemma {:induction false} ClimbsTree(k: Key, height: nat, leaf: nat, path: seq<Node>, h: nat)
    requires height <= HEIGHT && leaf < Pow2(32) && h <= height && |path| == h
    requires forall i :: 0 <= i < h ==> path[i] == Sibling(k, height, leaf, i)
    ensures Climb(k.seed, LeafNode(k, leaf), Word32(leaf), path) == TreeNode(k, h, Up(leaf, h))
    decreases h
  {
    hide HashTreeNode, LeafNode, Climb, TreeNode, Up, Word32;
    TreeStep(k, h, Up(leaf, h));
    UpStep(leaf, h);
    ClimbStep(k.seed, LeafNode(k, leaf), Word32(leaf), path);
    if h > 0 {
      ClimbsTree(k, height, leaf, path[..h - 1], h - 1);
      LowBit(leaf, h - 1);
      ShiftIsUp(leaf, h);
      var u := Up(leaf, h - 1);
      assert Up(leaf, h) == u / 2;
      assert path[h - 1] == TreeNode(k, h - 1, Flip(u));
      if u % 2 == 0 { assert u == 2 * (u / 2); } else { assert u == 2 * (u / 2) + 1; }
    }
  }

  lemma {:induction false} ClimbsUpper(k: Key, height: nat, leaf: nat, path: seq<Node>, n: nat)
    requires height + n <= HEIGHT && leaf < Pow2(height) && |path| == height + n
    requires forall i :: 0 <= i < |path| ==> path[i] == Sibling(k, height, leaf, i)
    ensures Climb(k.seed, LeafNode(k, leaf), Word32(leaf), path) == UpperNode(k, height, n)
    decreases n
  {
    hide HashTreeNode, LeafNode, Climb, Up, Pow2, TreeNode, Word32;
    Pow2Grows(height, 32);
    if n == 0 {
      ClimbsTree(k, height, leaf, path, height);
      UpZero(leaf, height, height);
    } else {
      var h := height + n - 1;
      ClimbsUpper(k, height, leaf, path[..h], n - 1);
      ClimbStep(k.seed, LeafNode(k, leaf), Word32(leaf), path);
      LowBit(leaf, h);
      UpZero(leaf, height, h);
      ShiftIsUp(leaf, h + 1);
      UpZero(leaf, height, h + 1);
      ZeroIndex();
    }
  }

  lemma ZeroIndex()
    ensures Word32(0) == ZERO
  {
    forall i | 0 <= i < 32
      ensures !Word32(0)[i]
    {
      FromZero(32, i);
    }
  }

  lemma {:induction false} Pow2Grows(a: nat, b: nat)
    requires a <= b
    ensures Pow2(a) <= Pow2(b)
    decreases b
  {
    if a < b { Pow2Grows(a, b - 1); }
  }

  /** Every leaf's path climbs to the published root. */
  lemma PathClimbs(k: Key, height: nat, leaf: nat)
    requires height <= HEIGHT && leaf < Pow2(height)
    ensures Climb(k.seed, LeafNode(k, leaf), Word32(leaf), AuthPath(k, height, leaf)) == Root(k, height)
  {
    hide AuthPath, Climb, LeafNode, UpperNode;
    ClimbsUpper(k, height, leaf, AuthPath(k, height, leaf), HEIGHT - height);
  }

  // ---- signatures ----------------------------------------------------------

  function DigestFor(k: Key, leaf: nat, nonce: seq<Byte>, message: seq<Byte>): Digest
  {
    HashMessage(k.seed, BigEndian(Word32(leaf)), nonce, message)
  }

  function TipsFor(k: Key, leaf: nat, coords: seq<nat>): (t: seq<Node>)
    requires |coords| == CHAINS
    ensures |t| == CHAINS && forall c :: 0 <= c < CHAINS ==> t[c] == Chain(ChainKeyAt(k, leaf), k.secret(leaf, c), c, 0, coords[c])
  {
    hide Chain, Word32;
    var r: seq<seq<Word>> := seq(CHAINS, c requires 0 <= c < CHAINS => Chain(ChainKeyAt(k, leaf), k.secret(leaf, c), c, 0, coords[c]));
    assert forall c :: 0 <= c < CHAINS ==> r[c] == Chain(ChainKeyAt(k, leaf), k.secret(leaf, c), c, 0, coords[c]);
    r
  }

  /** The signature a leaf makes with a given nonce, read off the full tree. */
  function SignatureFor(k: Key, height: nat, leaf: nat, nonce: seq<Byte>, message: seq<Byte>): Signature
  {
    Signature(Word32(leaf), nonce, TipsFor(k, leaf, Coords(DigestFor(k, leaf, nonce, message))), AuthPath(k, height, leaf))
  }

  /** Completing the signed chains gives the leaf's endpoints, whatever the coordinates. */
  lemma TipsComplete(k: Key, leaf: nat, coords: seq<nat>)
    requires |coords| == CHAINS && forall c :: 0 <= c < CHAINS ==> coords[c] <= MAX_STEPS
    ensures EndpointsFrom(ChainKeyAt(k, leaf), TipsFor(k, leaf, coords), coords) == Endpoints(k, leaf)
  {
    hide Chain;
    var pk, tips, key := Endpoints(k, leaf), TipsFor(k, leaf, coords), ChainKeyAt(k, leaf);
    forall c | 0 <= c < CHAINS
      ensures EndpointsFrom(key, tips, coords)[c] == pk[c]
    {
      ChainSplits(key, k.secret(leaf, c), c, 0, coords[c], MAX_STEPS - coords[c]);
      assert coords[c] + (MAX_STEPS - coords[c]) == MAX_STEPS;
      assert tips[c] == Chain(key, k.secret(leaf, c), c, 0, coords[c]);
    }
  }

  /** Sign then verify: the verifier accepts a leaf's signature exactly when the nonce gives a target-sum
      codeword. */
  lemma SignedVerifies(k: Key, height: nat, leaf: nat, nonce: seq<Byte>, message: seq<Byte>)
    requires height <= HEIGHT && leaf < Pow2(height) && |nonce| == NONCE_LEN
    ensures Verifies(k.seed, Root(k, height), message, SignatureFor(k, height, leaf, nonce, message))
       <==> Accepted(DigestFor(k, leaf, nonce, message))
  {
    hide Climb, Root, Endpoints, HashPublicKey, Coords, HashMessage, AuthPath, TipsFor, EndpointsFrom, Accepted;
    TipsComplete(k, leaf, Coords(DigestFor(k, leaf, nonce, message)));
    PathClimbs(k, height, leaf);
  }
}
