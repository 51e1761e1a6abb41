/** The two-level cached traversal: a materialised top tree over subtree roots, and one bottom subtree
    kept in memory and rebuilt whenever a leaf of another subtree signs. */
module Keypair {
  import opened Wrappers
  import opened Words
  import opened Blake3
  import opened Wots
  import opened Codeword
  import opened Xmss
  import opened Tree

  function Stretch(f: nat -> Node, base: nat, n: nat): (r: seq<Node>)
    ensures |r| == n && forall j :: 0 <= j < n ==> r[j] == f(base + j)
  {
    if n == 0 then [] else Stretch(f, base, n - 1) + [f(base + n - 1)]
  }

  function Level(k: Key, level: nat): nat -> Node
  {
    i => TreeNode(k, level, i)
  }

  /** Nodes base .. base + n - 1 of a level. */
  function LevelNodes(k: Key, level: nat, base: nat, n: nat): seq<Node>
  {
    Stretch(Level(k, level), base, n)
  }

  /** sub[h] is level h of subtree s of the given height. */
  predicate IsSubtree(k: Key, s: nat, split: nat, sub: seq<seq<Node>>)
  {
    |sub| == split + 1 && forall h :: 0 <= h <= split ==> sub[h] == LevelNodes(k, h, s * Pow2(split - h), Pow2(split - h))
  }

  /** top[r] is the whole level split + r. */
  predicate IsTop(k: Key, split: nat, topHeight: nat, top: seq<seq<Node>>)
  {
    |top| == topHeight + 1 && forall r :: 0 <= r <= topHeight ==> top[r] == LevelNodes(k, split + r, 0, Pow2(topHeight - r))
  }

  /** The node two children hash to. */
  function Parent(k: Key, level: nat, left: Node, right: Node, index: nat): Node
  {
    HashTreeNode(k.seed, left, right, level, Word32(index))
  }

  lemma ParentIs(k: Key, level: nat, index: nat)
    ensures TreeNode(k, level + 1, index) == Parent(k, level, TreeNode(k, level, 2 * index), TreeNode(k, level, 2 * index + 1), index)
  {
    hide HashTreeNode;
    TreeStep(k, level + 1, index);
  }

  /** One level up: pairs of neighbours hashed. */
  method NextLevel(k: Key, level: nat, below: seq<Node>, base: nat, n: nat) returns (nodes: seq<Node>)
    requires below == LevelNodes(k, level, 2 * base, 2 * n)
    ensures nodes == LevelNodes(k, level + 1, base, n)
  {
    hide TreeNode, Parent;
    nodes := [];
    for j := 0 to n
      invariant nodes == LevelNodes(k, level + 1, base, n)[..j]
    {
      ParentIs(k, level, base + j);
      assert below[2 * j] == TreeNode(k, level, 2 * base + 2 * j) && below[2 * j + 1] == TreeNode(k, level, 2 * base + (2 * j + 1));
      assert 2 * (base + j) == 2 * base + 2 * j && 2 * (base + j) + 1 == 2 * base + (2 * j + 1);
      nodes := nodes + [Parent(k, level, below[2 * j], below[2 * j + 1], base + j)];
    }
  }

  method HashLeaf(k: Key, leaf: nat) returns (node: Node)
    ensures node == LeafNode(k, leaf)
  {
    hide Chain, HashPublicKey;
    var epoch := BigEndian(Word32(leaf));
    var key := ChainKey(k.seed, epoch);
    var pk: seq<Node> := [];
    for c := 0 to CHAINS
      invariant pk == Endpoints(k, leaf)[..c]
    {
      var end := HashChain(key, k.secret(leaf, c), c, 0, MAX_STEPS);
      pk := pk + [end];
    }
    assert pk == Endpoints(k, leaf);
    node := HashPublicKey(k.seed, epoch, pk);
  }

  lemma LeafIs(k: Key, leaf: nat)
    ensures TreeNode(k, 0, leaf) == LeafNode(k, leaf)
  {
    hide LeafNode;
  }

  lemma Doubles(s: nat, e: nat)
    requires e > 0
    ensures Pow2(e) == 2 * Pow2(e - 1) && s * Pow2(e) == 2 * (s * Pow2(e - 1))
  {
  }

  /** Every level of subtree s. */
  method BuildSubtree(k: Key, s: nat, split: nat) returns (sub: seq<seq<Node>>)
    ensures IsSubtree(k, s, split, sub)
  {
    hide TreeNode, LeafNode, Pow2;
    var width, base := Pow2(split), s * Pow2(split);
    var leaves: seq<Node> := [];
    for j := 0 to width
      invariant leaves == LevelNodes(k, 0, base, width)[..j]
    {
      var node := HashLeaf(k, base + j);
      LeafIs(k, base + j);
      leaves := leaves + [node];
    }
    sub := [leaves];
    for h := 1 to split + 1
      invariant |sub| == h
      invariant forall i :: 0 <= i < h ==> sub[i] == LevelNodes(k, i, s * Pow2(split - i), Pow2(split - i))
    {
      Doubles(s, split - (h - 1));
      assert split - (h - 1) - 1 == split - h;
      var nodes := NextLevel(k, h - 1, sub[h - 1], s * Pow2(split - h), Pow2(split - h));
      sub := sub + [nodes];
    }
  }

  method BuildTop(k: Key, split: nat, topHeight: nat, roots: seq<Node>) returns (top: seq<seq<Node>>)
    requires roots == LevelNodes(k, split, 0, Pow2(topHeight))
    ensures IsTop(k, split, topHeight, top)
  {
    hide TreeNode, Pow2;
    top := [roots];
    for r := 1 to topHeight + 1
      invariant |top| == r
      invariant forall i :: 0 <= i < r ==> top[i] == LevelNodes(k, split + i, 0, Pow2(topHeight - i))
    {
      Doubles(0, topHeight - (r - 1));
      assert topHeight - (r - 1) - 1 == topHeight - r;
      var nodes := NextLevel(k, split + r - 1, top[r - 1], 0, Pow2(topHeight - r));
      top := top + [nodes];
    }
  }

  method ClimbUpper(k: Key, inner: Node, height: nat) returns (root: Node)
    requires height <= HEIGHT && inner == TreeNode(k, height, 0)
    ensures root == Root(k, height)
  {
    hide TreeNode, HashTreeNode;
    root := inner;
    for i := 0 to HEIGHT - height
      invariant root == UpperNode(k, height, i)
    {
      root := HashTreeNode(k.seed, root, k.upper(i), height + i, ZERO);
    }
  }

  // ---- what the cache holds of a path --------------------------------------

  /** A leaf's ancestor at level h lies in its own subtree's stretch of that level, and so does its
      neighbour. */
  lemma {:induction false} InSubtree(leaf: nat, split: nat, h: nat)
    requires h <= split
    ensures var s, u := Up(leaf, split), Up(leaf, h);
            s * Pow2(split - h) <= u < s * Pow2(split - h) + Pow2(split - h)
    decreases split - h
  {
    if h < split {
      InSubtree(leaf, split, h + 1);
      Doubles(Up(leaf, split), split - h);
      UpStep(leaf, h + 1);
    } else {
      assert Pow2(0) == 1;
    }
  }

  lemma FlipInside(base: nat, n: nat, u: nat)
    requires base % 2 == 0 && n % 2 == 0 && base <= u < base + n
    ensures base <= Flip(u) < base + n
  {
  }

  lemma CachedSibling(k: Key, leaf: nat, split: nat, sub: seq<seq<Node>>, h: nat)
    requires h < split && IsSubtree(k, Up(leaf, split), split, sub)
    ensures var base, at := Up(leaf, split) * Pow2(split - h), Flip(Up(leaf, h));
            base <= at < base + |sub[h]| && sub[h][at - base] == TreeNode(k, h, at)
  {
    hide TreeNode, Up, Pow2;
    var s := Up(leaf, split);
    Doubles(s, split - h);
    InSubtree(leaf, split, h);
    FlipInside(s * Pow2(split - h), Pow2(split - h), Up(leaf, h));
    assert sub[h] == LevelNodes(k, h, s * Pow2(split - h), Pow2(split - h));
  }

  lemma TopSibling(k: Key, leaf: nat, split: nat, height: nat, top: seq<seq<Node>>, r: nat)
    requires split + r < height && leaf < Pow2(height) && IsTop(k, split, height - split, top)
    ensures var at := Flip(Up(leaf, split + r)); at < |top[r]| && top[r][at] == TreeNode(k, split + r, at)
  {
    hide TreeNode, Up, Pow2;
    UpBound(leaf, height, split + r);
    Doubles(0, height - split - r);
    assert height - (split + r) == height - split - r;
    FlipInside(0, Pow2(height - split - r), Up(leaf, split + r));
    assert top[r] == LevelNodes(k, split + r, 0, Pow2(height - split - r));
  }

  lemma JoinPath(p: seq<Node>, i: nat, j: nat)
    requires i <= j <= |p|
    ensures p[..i] + p[i..j] + p[j..] == p
  {
  }

  /** The subtree roots, built left to right; the last subtree is left in hand. */
  method BuildRoots(key: Key, split: nat, topHeight: nat) returns (roots: seq<Node>, sub: seq<seq<Node>>)
    ensures roots == LevelNodes(key, split, 0, Pow2(topHeight)) && IsSubtree(key, Pow2(topHeight) - 1, split, sub)
  {
    hide TreeNode, Pow2;
    sub, roots := [], [];
    for s := 0 to Pow2(topHeight)
      invariant roots == LevelNodes(key, split, 0, Pow2(topHeight))[..s]
      invariant s > 0 ==> IsSubtree(key, s - 1, split, sub)
    {
      sub := BuildSubtree(key, s, split);
      RootOfSubtree(key, s, split, sub);
      roots := roots + [sub[split][0]];
    }
  }

  // ---- the key pair --------------------------------------------------------

  /** nonces[i] is the first candidate that gives an accepted digest. */
  predicate FirstAccepted(k: Key, leaf: nat, message: seq<Byte>, nonces: seq<seq<Byte>>, i: nat)
  {
    && i < |nonces| && Accepted(DigestFor(k, leaf, nonces[i], message))
    && forall j :: 0 <= j < i ==> !Accepted(DigestFor(k, leaf, nonces[j], message))
  }

  /** sig is what the full tree gives for the first accepted candidate, nonces[i]. */
  predicate MadeWith(k: Key, height: nat, leaf: nat, message: seq<Byte>, nonces: seq<seq<Byte>>, i: nat, sig: Signature)
  {
    hide TipsFor, AuthPath, DigestFor, Accepted;
    FirstAccepted(k, leaf, message, nonces, i) && sig == SignatureFor(k, height, leaf, nonces[i], message)
  }

  predicate VerifiesUnder(seed: Seed, root: Node, message: seq<Byte>, sig: Signature)
  {
    sig.WellFormed() && Verifies(seed, root, message, sig)
  }

  lemma Signed(k: Key, height: nat, leaf: nat, message: seq<Byte>, nonces: seq<seq<Byte>>, i: nat, sig: Signature)
    requires height <= HEIGHT && leaf < Pow2(height) && i < |nonces| && FirstAccepted(k, leaf, message, nonces, i) && |nonces[i]| == NONCE_LEN
    requires sig == Signature(Word32(leaf), nonces[i], TipsFor(k, leaf, Coords(DigestFor(k, leaf, nonces[i], message))), AuthPath(k, height, leaf))
    ensures exists j :: 0 <= j < |nonces| && Accepted(DigestFor(k, leaf, nonces[j], message))
    ensures MadeWith(k, height, leaf, message, nonces, i, sig)
    ensures VerifiesUnder(k.seed, Root(k, height), message, sig)
  {
    hide TipsFor, AuthPath, DigestFor, Accepted, Verifies, Root;
    SignedVerifies(k, height, leaf, nonces[i], message);
  }

  class KeyPair {
    const key: Key
    const height: nat
    const split: nat
    var top: seq<seq<Node>>
    var bottom: seq<seq<Node>>
    var cachedSubtree: Option<nat>
    var root: Node

    /** The cache holds the subtree it says it holds, the top tree is complete, and the root is the full
        tree's. */
    ghost predicate Valid()
      reads this
    {
      && 1 <= split <= height <= HEIGHT
      && IsTop(key, split, height - split, top)
      && (cachedSubtree.Some? ==> IsSubtree(key, cachedSubtree.value, split, bottom))
      && root == Root(key, height)
    }

    constructor (key: Key, height: nat, split: nat)
      requires 1 <= split <= height <= HEIGHT
      ensures Valid() && this.key == key && this.height == height && this.split == split
    {
      hide TreeNode, Pow2, Root, UpperNode, IsSubtree, LevelNodes;
      this.key, this.height, this.split := key, height, split;
      var topHeight := height - split;
      var roots, sub := BuildRoots(key, split, topHeight);
      this.bottom := sub;
      PowZero();
      this.cachedSubtree := Some(if topHeight == 0 then 0 else Pow2(topHeight) - 1);
      var levels := BuildTop(key, split, topHeight, roots);
      this.top := levels;
      TopIsRoot(key, split, height, levels);
      var r := ClimbUpper(key, levels[topHeight][0], height);
      this.root := r;
    }

    /** grind_nonce over the nonces the random source yields; it gives up when the source does. */
    method GrindNonce(leaf: nat, message: seq<Byte>, nonces: seq<seq<Byte>>) returns (found: Option<seq<Byte>>, coords: seq<nat>)
      ensures found.None? ==> forall i :: 0 <= i < |nonces| ==> !Accepted(DigestFor(key, leaf, nonces[i], message))
      ensures found.Some? ==> exists i: nat :: i < |nonces| && FirstAccepted(key, leaf, message, nonces, i) && found.value == nonces[i]
      ensures found.Some? ==> coords == Coords(DigestFor(key, leaf, found.value, message))
    {
      hide Coords, Accepted, HashMessage;
      coords := [];
      for i := 0 to |nonces|
        invariant forall j :: 0 <= j < i ==> !Accepted(DigestFor(key, leaf, nonces[j], message))
      {
        var d := HashMessage(key.seed, BigEndian(Word32(leaf)), nonces[i], message);
        var clear, cs := ExtractCoords(d);
        var sum := SumOf(cs);
        AcceptedWhen(d);
        if clear && sum == TARGET_SUM {
          assert FirstAccepted(key, leaf, message, nonces, i);
          return Some(nonces[i]), cs;
        }
      }
      found := None;
    }

    /** Makes the cache hold the leaf's subtree. */
    method Refresh(leaf: nat)
      requires Valid() && leaf < Pow2(height)
      modifies this`bottom, this`cachedSubtree
      ensures Valid() && cachedSubtree == Some(Up(leaf, split))
    {
      hide TreeNode, Pow2, Root, Up;
      var s := Shifted(leaf, split);
      if cachedSubtree != Some(s) {
        bottom := BuildSubtree(key, s, split);
        cachedSubtree := Some(s);
      }
    }

    method ReadBottom(leaf: nat) returns (path: seq<Node>)
      requires Valid() && leaf < Pow2(height) && cachedSubtree == Some(Up(leaf, split))
      ensures path == AuthPath(key, height, leaf)[..split]
    {
      hide TreeNode, Pow2, Root, Up, IsTop;
      var s := cachedSubtree.value;
      path := [];
      var idx := leaf;
      UpStep(leaf, 0);
      for h := 0 to split
        invariant idx == Up(leaf, h) && path == AuthPath(key, height, leaf)[..h]
      {
        CachedSibling(key, leaf, split, bottom, h);
        var base := s * Pow2(split - h);
        path := path + [bottom[h][Flip(idx) - base]];
        UpStep(leaf, h + 1);
        idx := idx / 2;
      }
    }

    method ReadTop(leaf: nat) returns (path: seq<Node>)
      requires Valid() && leaf < Pow2(height)
      ensures path == AuthPath(key, height, leaf)[split..height]
    {
      hide TreeNode, Pow2, Root, Up, IsSubtree;
      path := [];
      var idx := Shifted(leaf, split);
      for r := 0 to height - split
        invariant idx == Up(leaf, split + r) && path == AuthPath(key, height, leaf)[split..split + r]
      {
        TopSibling(key, leaf, split, height, top, r);
        path := path + [top[r][Flip(idx)]];
        UpStep(leaf, split + r + 1);
        idx := idx / 2;
      }
    }

    method ReadUpper(leaf: nat) returns (path: seq<Node>)
      requires Valid()
      ensures path == AuthPath(key, height, leaf)[height..]
    {
      hide TreeNode, Root, Up, IsTop, IsSubtree;
      path := [];
      for h := height to HEIGHT
        invariant path == AuthPath(key, height, leaf)[height..h]
      {
        path := path + [key.upper(h - height)];
      }
    }

    /** The authentication path: its lower part off the cache, which is rebuilt if it holds another subtree,
        then the top tree, then the fixed siblings. */
    method ReadPath(leaf: nat) returns (path: seq<Node>)
      requires Valid() && leaf < Pow2(height)
      modifies this`bottom, this`cachedSubtree
      ensures Valid() && cachedSubtree == Some(Up(leaf, split))
      ensures path == AuthPath(key, height, leaf)
    {
      hide *;
      Refresh(leaf);
      Bounds();
      var a := ReadBottom(leaf);
      var b := ReadTop(leaf);
      var c := ReadUpper(leaf);
      JoinPath(AuthPath(key, height, leaf), split, height);
      path := a + b + c;
    }

    lemma Bounds()
      requires Valid()
      ensures 1 <= split <= height <= HEIGHT && root == Root(key, height)
    {
    }

    /** Signs iff the leaf exists and some listed nonce gives an accepted digest, and with the first that does.
        The signature does not depend on what was signed before, verifies under the key pair's root, and
        leaves the root alone. */
    method Sign(leaf: nat, message: seq<Byte>, nonces: seq<seq<Byte>>) returns (sig: Option<Signature>)
      requires Valid() && forall i :: 0 <= i < |nonces| ==> |nonces[i]| == NONCE_LEN
      modifies this`bottom, this`cachedSubtree
      ensures Valid()
      ensures sig.Some? <==> leaf < Pow2(height) && exists i :: 0 <= i < |nonces| && Accepted(DigestFor(key, leaf, nonces[i], message))
      ensures sig.Some? ==> VerifiesUnder(key.seed, root, message, sig.value)
      ensures sig.Some? ==> exists i: nat :: MadeWith(key, height, leaf, message, nonces, i, sig.value)
    {
      hide *;
      if leaf >= Pow2(height) { return None; }
      var nonce, coords := GrindNonce(leaf, message, nonces);
      if nonce.None? { return None; }
      ghost var i: nat :| i < |nonces| && FirstAccepted(key, leaf, message, nonces, i) && nonce.value == nonces[i];
      var tips := SignChains(leaf, coords);
      var path := ReadPath(leaf);
      sig := Some(Signature(Word32(leaf), nonce.value, tips, path));
      Bounds();
      Signed(key, height, leaf, message, nonces, i, sig.value);
    }

    method SignChains(leaf: nat, coords: seq<nat>) returns (tips: seq<Node>)
      requires |coords| == CHAINS
      ensures tips == TipsFor(key, leaf, coords)
    {
      hide Chain;
      tips := [];
      for c := 0 to CHAINS
        invariant tips == TipsFor(key, leaf, coords)[..c]
      {
        var tip := HashChain(ChainKeyAt(key, leaf), key.secret(leaf, c), c, 0, coords[c]);
        tips := tips + [tip];
      }
    }
  }

  const SUBTREE_HEIGHT: nat := 16

  /** xmss_keypair_new_split: refuses heights outside 1..32 and splits outside 1..height. */
  method NewSplit(key: Key, height: int, split: int) returns (kp: KeyPair?)
    ensures kp != null <==> 1 <= height <= HEIGHT && 1 <= split <= height
    ensures kp != null ==> fresh(kp) && kp.Valid() && kp.key == key && kp.height == height && kp.split == split
  {
    if height < 1 || height > HEIGHT || split < 1 || split > height { return null; }
    kp := new KeyPair(key, height, split);
  }

  /** xmss_keypair_new: subtrees of height 16, or the whole tree if it is lower. */
  method NewKeyPair(key: Key, height: int) returns (kp: KeyPair?)
    ensures kp != null <==> 1 <= height <= HEIGHT
    ensures kp != null ==> fresh(kp) && kp.Valid() && kp.key == key && kp.height == height
    ensures kp != null ==> kp.split == if height < SUBTREE_HEIGHT then height else SUBTREE_HEIGHT
  {
    kp := NewSplit(key, height, if height < SUBTREE_HEIGHT then height else SUBTREE_HEIGHT);
  }

  /** Two key pairs over one key sign alike, however they split the tree and whatever they signed before,
      and each verifies under the other's root. */
  method SignTwice(a: KeyPair, b: KeyPair, leaf: nat, message: seq<Byte>, nonces: seq<seq<Byte>>) returns (x: Option<Signature>, y: Option<Signature>)
    requires a != b && a.Valid() && b.Valid() && a.key == b.key && a.height == b.height
    requires forall i :: 0 <= i < |nonces| ==> |nonces[i]| == NONCE_LEN
    modifies a`bottom, a`cachedSubtree, b`bottom, b`cachedSubtree
    ensures x == y && a.root == b.root
  {
    hide Accepted, DigestFor, SignatureFor, Verifies, Pow2;
    x := a.Sign(leaf, message, nonces);
    y := b.Sign(leaf, message, nonces);
  }

  method Shifted(v: nat, h: nat) returns (u: nat)
    ensures u == Up(v, h)
  {
    u := v;
    for i := 0 to h
      invariant u == Up(v, i)
    {
      u := u / 2;
    }
  }

  lemma AcceptedWhen(d: Digest)
    ensures Accepted(d) <==> LeftoverClear(d) && Sum(Coords(d)) == TARGET_SUM
  {
  }

  lemma PowZero()
    ensures Pow2(0) == 1
  {
  }

  lemma RootOfSubtree(k: Key, s: nat, split: nat, sub: seq<seq<Node>>)
    requires IsSubtree(k, s, split, sub)
    ensures |sub[split]| == 1 && sub[split][0] == TreeNode(k, split, s)
  {
    hide TreeNode;
    PowZero();
    assert sub[split] == LevelNodes(k, split, s * Pow2(split - split), Pow2(split - split));
  }

  lemma TopIsRoot(k: Key, split: nat, height: nat, top: seq<seq<Node>>)
    requires split <= height && IsTop(k, split, height - split, top)
    ensures |top[height - split]| == 1 && top[height - split][0] == TreeNode(k, height, 0)
  {
    hide TreeNode;
    PowZero();
    assert top[height - split] == LevelNodes(k, split + (height - split), 0, Pow2(0));
  }
}
