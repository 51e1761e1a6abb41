/** Every call the signature scheme makes to the tweakable hash, as the bytes it feeds in. No two calls of any kinds
    or arguments feed in the same bytes: the tweaks and the length prefix keep them apart. */
module HashInputs {
  import opened Words
  import opened Blake3
  import opened Gf128
  import opened Wots
  import opened Codeword
  import opened Xmss
  import opened KkwCodec
  import opened SignatureCodec

  datatype Call =
    | StepCall(node: Node, seed: Seed, epoch: seq<Byte>, chain: Byte, pos: Byte)
    | TreeCall(seed: Seed, level: Byte, index: Word, left: Node, right: Node)
    | MessageCall(seed: Seed, epoch: seq<Byte>, nonce: seq<Byte>, message: seq<Byte>)
    | LeafCall(seed: Seed, epoch: seq<Byte>, pk: seq<Node>)
    | OpeningCall(r: seq<Byte>)
    | CommitCall(a: seq<Byte>, lines: seq<Byte>, y: seq<Byte>)
  {
    predicate Sized()
    {
      match this
      case StepCall(_, _, epoch, _, _) => |epoch| == 4
      case TreeCall(_, _, _, _, _) => true
      case MessageCall(_, epoch, nonce, _) => |epoch| == 4 && |nonce| == NONCE_LEN
      case LeafCall(_, epoch, _) => |epoch| == 4
      case OpeningCall(_) => true
      case CommitCall(a, lines, y) => |a| == 192 && |lines| == 32 && |y| == 32
    }

    function Dom(): seq<Byte>
    {
      match this
      case StepCall(node, _, _, _, _) => NodeBytes(node) + [Byte8(TWEAK_CHAIN)]
      case TreeCall(seed, level, index, _, _) => seed + [Byte8(TWEAK_TREE)] + [level] + LittleEndian(index)
      case MessageCall(seed, epoch, _, _) => seed + [Byte8(TWEAK_MESSAGE)] + epoch
      case LeafCall(seed, epoch, _) => seed + [Byte8(TWEAK_LEAF)] + epoch
      case OpeningCall(_) => Domain("HMy")
      case CommitCall(_, _, _) => Domain("HMd")
    }

    function Data(): seq<Byte>
    {
      match this
      case StepCall(_, seed, epoch, chain, pos) => seed + epoch + [chain, pos]
      case TreeCall(_, _, _, left, right) => NodeBytes(left) + NodeBytes(right)
      case MessageCall(_, _, nonce, message) => nonce + message
      case LeafCall(_, _, pk) => EndpointBytes(pk)
      case OpeningCall(r) => r
      case CommitCall(a, lines, y) => a + lines + y
    }

    /** The bytes hashed. */
    function Input(): seq<Byte> { Framed(Dom(), Data()) }
  }

  /** The hash of framed bytes. */
  function Hashed(f: seq<Byte>, n: nat): (r: seq<Byte>)
    requires n <= OUT_LEN
    ensures |r| == n
  {
    Bytes(ChainingValue(f, BlockCount(|f|)), n)
  }

  // ---- the scheme's hashes are these calls ---------------------------------

  lemma StepIsCall(key: ChainKey, seed: Seed, x: Node, chain: Byte, pos: Byte)
    requires key.seed == seed
    ensures ChainStep(key, x, chain, pos) == NodeOf(Hashed(StepCall(x, seed, key.epoch, chain, pos).Input(), NODE_BYTES))
  {
    hide ChainingValue, Bytes, NodeOf, Framed, NodeBytes, Byte8;
  }

  lemma TreeIsCall(seed: Seed, left: Node, right: Node, level: nat, index: Word)
    ensures HashTreeNode(seed, left, right, level, index) == NodeOf(Hashed(TreeCall(seed, Byte8(level), index, left, right).Input(), NODE_BYTES))
  {
    hide ChainingValue, Bytes, NodeOf, Framed, NodeBytes, Byte8, LittleEndian;
  }

  lemma MessageIsCall(seed: Seed, epoch: seq<Byte>, nonce: seq<Byte>, message: seq<Byte>)
    ensures HashMessage(seed, epoch, nonce, message) == Hashed(MessageCall(seed, epoch, nonce, message).Input(), 32)
  {
    hide ChainingValue, Bytes, Framed, Byte8;
  }

  lemma LeafIsCall(seed: Seed, epoch: seq<Byte>, pk: seq<Node>)
    ensures HashPublicKey(seed, epoch, pk) == NodeOf(Hashed(LeafCall(seed, epoch, pk).Input(), NODE_BYTES))
  {
    hide ChainingValue, Bytes, NodeOf, Framed, Byte8, EndpointBytes;
  }

  /** What opening a commitment hashes: first r, then a, the lines and the hash of r. */
  function CommitInput(message: seq<Byte>, r: seq<Byte>, a: seq<Byte>): Call
    requires |message| == 32 && |a| == 192 && |r| == 96
  {
    CommitCall(a, Lines(message, a, r), Hashed(OpeningCall(r).Input(), 32))
  }

  lemma CommitIsCall(message: seq<Byte>, r: seq<Byte>, a: seq<Byte>)
    requires |message| == 32 && |a| == 192 && |r| == 96
    ensures CommitDigest(message, r, a) == Hashed(CommitInput(message, r, a).Input(), 32)
  {
    hide ChainingValue, Bytes, Framed, Lines, Domain;
  }

  // ---- no two calls feed in the same bytes ---------------------------------

  lemma WordsApart(v: nat, w: nat)
    requires v < 0x1_0000_0000 && w < 0x1_0000_0000 && Word32(v) == Word32(w)
    ensures v == w
  {
    hide Word32;
    WordValue(v);
    WordValue(w);
  }

  lemma BytesApart(v: nat, w: nat)
    requires v < 256 && w < 256 && Byte8(v) == Byte8(w)
    ensures v == w
  {
    hide FromNat;
    ByteRead(v);
    ByteRead(w);
  }

  lemma FrameIs(dom: seq<Byte>, data: seq<Byte>)
    ensures Framed(dom, data) == LittleEndian(Word32(|dom|)) + dom + data
  {
    hide Word32;
    var p: seq<Byte> := seq(FRAME_LEN, k requires 0 <= k < FRAME_LEN => ByteOf(Word32(|dom|), k));
    assert p == LittleEndian(Word32(|dom|));
  }

  /** The frame gives back domain and data. */
  lemma FramedInjective(dom: seq<Byte>, data: seq<Byte>, dom': seq<Byte>, data': seq<Byte>)
    requires |dom| < 0x1_0000_0000 && |dom'| < 0x1_0000_0000 && Framed(dom, data) == Framed(dom', data')
    ensures dom == dom' && data == data'
  {
    hide Framed, Word32, LittleEndian;
    var l, l' := LittleEndian(Word32(|dom|)), LittleEndian(Word32(|dom'|));
    FrameIs(dom, data);
    FrameIs(dom', data');
    assert l + dom + data == l + (dom + data) && l' + dom' + data' == l' + (dom' + data');
    Unjoin(l, dom + data, l', dom' + data');
    WordRoundTrip(Word32(|dom|));
    WordRoundTrip(Word32(|dom'|));
    WordsApart(|dom|, |dom'|);
    Unjoin(dom, data, dom', data');
  }

  lemma NodesApart(a: Node, b: Node)
    requires NodeBytes(a) == NodeBytes(b)
    ensures a == b
  {
    NodeWords(a);
    NodeWords(b);
  }

  lemma EndpointsApart(a: seq<Node>, b: seq<Node>)
    requires EndpointBytes(a) == EndpointBytes(b)
    ensures a == b
  {
    ReadWritten(a);
    ReadWritten(b);
  }

  lemma SameStep(c: Call, d: Call)
    requires c.StepCall? && d.StepCall? && c.Sized() && d.Sized() && c.Dom() == d.Dom() && c.Data() == d.Data()
    ensures c == d
  {
    hide NodeBytes, Byte8;
    Unjoin(NodeBytes(c.node), [Byte8(TWEAK_CHAIN)], NodeBytes(d.node), [Byte8(TWEAK_CHAIN)]);
    NodesApart(c.node, d.node);
    Unjoin(c.seed + c.epoch, [c.chain, c.pos], d.seed + d.epoch, [d.chain, d.pos]);
    Unjoin(c.seed, c.epoch, d.seed, d.epoch);
    assert [c.chain, c.pos][0] == [d.chain, d.pos][0] && [c.chain, c.pos][1] == [d.chain, d.pos][1];
  }

  lemma SameTree(c: Call, d: Call)
    requires c.TreeCall? && d.TreeCall? && c.Dom() == d.Dom() && c.Data() == d.Data()
    ensures c == d
  {
    hide NodeBytes, Byte8, LittleEndian;
    var t := [Byte8(TWEAK_TREE)];
    Unjoin(c.seed + t + [c.level], LittleEndian(c.index), d.seed + t + [d.level], LittleEndian(d.index));
    Unjoin(c.seed + t, [c.level], d.seed + t, [d.level]);
    Unjoin(c.seed, t, d.seed, t);
    assert [c.level][0] == [d.level][0];
    WordRoundTrip(c.index);
    WordRoundTrip(d.index);
    Unjoin(NodeBytes(c.left), NodeBytes(c.right), NodeBytes(d.left), NodeBytes(d.right));
    NodesApart(c.left, d.left);
    NodesApart(c.right, d.right);
  }

  lemma SeedTagEpoch(s: Seed, v: nat, e: seq<Byte>, s': Seed, v': nat, e': seq<Byte>)
    requires v < 256 && v' < 256 && |e| == |e'| && s + [Byte8(v)] + e == s' + [Byte8(v')] + e'
    ensures s == s' && v == v' && e == e'
  {
    hide Byte8;
    Unjoin(s + [Byte8(v)], e, s' + [Byte8(v')], e');
    Unjoin(s, [Byte8(v)], s', [Byte8(v')]);
    assert [Byte8(v)][0] == [Byte8(v')][0];
    BytesApart(v, v');
  }

  lemma SameMessage(c: Call, d: Call)
    requires c.MessageCall? && d.MessageCall? && c.Sized() && d.Sized() && c.Dom() == d.Dom() && c.Data() == d.Data()
    ensures c == d
  {
    hide Byte8;
    SeedTagEpoch(c.seed, TWEAK_MESSAGE, c.epoch, d.seed, TWEAK_MESSAGE, d.epoch);
    Unjoin(c.nonce, c.message, d.nonce, d.message);
  }

  lemma SameLeaf(c: Call, d: Call)
    requires c.LeafCall? && d.LeafCall? && c.Sized() && d.Sized() && c.Dom() == d.Dom() && c.Data() == d.Data()
    ensures c == d
  {
    hide Byte8, EndpointBytes;
    SeedTagEpoch(c.seed, TWEAK_LEAF, c.epoch, d.seed, TWEAK_LEAF, d.epoch);
    EndpointsApart(c.pk, d.pk);
  }

  lemma SameCommit(c: Call, d: Call)
    requires c.CommitCall? && d.CommitCall? && c.Sized() && d.Sized() && c.Data() == d.Data()
    ensures c == d
  {
    Unjoin(c.a + c.lines, c.y, d.a + d.lines, d.y);
    Unjoin(c.a, c.lines, d.a, d.lines);
  }

  /** The kind of a call shows in its domain: in the length, or else in the tweak. */
  lemma SameKind(c: Call, d: Call)
    requires c.Sized() && d.Sized() && c.Dom() == d.Dom()
    ensures c.StepCall? == d.StepCall? && c.TreeCall? == d.TreeCall? && c.MessageCall? == d.MessageCall? && c.LeafCall? == d.LeafCall?
    ensures c.OpeningCall? == d.OpeningCall? && c.CommitCall? == d.CommitCall?
  {
    hide Byte8, NodeBytes, LittleEndian, Domain;
    DomLength(c);
    DomLength(d);
    TagsDiffer();
    if c.MessageCall? && d.LeafCall? { SeedTagEpoch(c.seed, TWEAK_MESSAGE, c.epoch, d.seed, TWEAK_LEAF, d.epoch); }
    if c.LeafCall? && d.MessageCall? { SeedTagEpoch(c.seed, TWEAK_LEAF, c.epoch, d.seed, TWEAK_MESSAGE, d.epoch); }
  }

  lemma DomLength(c: Call)
    requires c.Sized()
    ensures |c.Dom()| == match c case StepCall(_, _, _, _, _) => 17 case TreeCall(_, _, _, _, _) => 22 case MessageCall(_, _, _, _) => 21
                                 case LeafCall(_, _, _) => 21 case OpeningCall(_) => 3 case CommitCall(_, _, _) => 3
  {
    hide Byte8;
  }

  lemma TagsDiffer()
    ensures Domain("HMy") != Domain("HMd")
  {
    hide Byte8;
    var x, y := "HMy", "HMd";
    assert x[2] == 'y' && y[2] == 'd';
    if Domain(x) == Domain(y) {
      assert Domain(x)[2] == Byte8(x[2] as int) && Domain(y)[2] == Byte8(y[2] as int);
      BytesApart('y' as int, 'd' as int);
    }
  }

  /** Domain separation: calls that hash the same bytes are the same call, argument by argument. So the hash of a
      chain step is bound to key seed, leaf, chain and position, that of an inner node to its level and index,
      and none can stand for a hash of another kind. */
  lemma InputInjective(c: Call, d: Call)
    requires c.Sized() && d.Sized() && c.Input() == d.Input()
    ensures c == d
  {
    hide Call.Dom, Call.Data, Call.Sized, Framed;
    DomLength(c);
    DomLength(d);
    FramedInjective(c.Dom(), c.Data(), d.Dom(), d.Data());
    SameKind(c, d);
    match c
    case StepCall(_, _, _, _, _) => SameStep(c, d);
    case TreeCall(_, _, _, _, _) => SameTree(c, d);
    case MessageCall(_, _, _, _) => SameMessage(c, d);
    case LeafCall(_, _, _) => SameLeaf(c, d);
    case OpeningCall(_) => SameOpening(c, d);
    case CommitCall(_, _, _) => SameCommit(c, d);
  }

  lemma SameOpening(c: Call, d: Call)
    requires c.OpeningCall? && d.OpeningCall? && c.Data() == d.Data()
    ensures c == d
  {
  }
}
