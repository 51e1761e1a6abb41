/** Signatures as bytes: leaf index, nonce, chain values, path. */
module SignatureCodec {
  import opened Wrappers
  import opened Words
  import opened Blake3
  import opened Wots
  import opened Xmss
  import opened KkwCodec

  const SIG_BYTES: nat := 1212

  function WriteSig(sig: Signature): (b: seq<Byte>)
    requires sig.WellFormed()
    ensures |b| == SIG_BYTES
  {
    LittleEndian(sig.leafIndex) + sig.nonce + EndpointBytes(sig.tips) + EndpointBytes(sig.path)
  }

  function ReadNodes(b: seq<Byte>): (ns: seq<Node>)
    requires |b| % NODE_BYTES == 0
    ensures |ns| == |b| / NODE_BYTES
  {
    if b == [] then [] else ReadNodes(b[..|b| - NODE_BYTES]) + [NodeOf(b[|b| - NODE_BYTES..])]
  }

  /** Any other length is refused. */
  function ReadSig(b: seq<Byte>): (r: Option<Signature>)
    ensures r.Some? <==> |b| == SIG_BYTES
    ensures r.Some? ==> r.value.WellFormed()
  {
    if |b| != SIG_BYTES then None
    else Some(Signature(LoadWord(b[..4], 0), b[4..28], ReadNodes(b[28..700]), ReadNodes(b[700..])))
  }

  lemma NodeWords(n: Node)
    ensures NodeOf(NodeBytes(n)) == n
  {
    var m := NodeOf(NodeBytes(n));
    forall k | 0 <= k < 4
      ensures m[k] == n[k]
    {
      var b := NodeBytes(n);
      assert m[k] == LoadWord(b, k);
      assert b[4 * k] == ByteOf(n[k], 0) && b[4 * k + 1] == ByteOf(n[k], 1) && b[4 * k + 2] == ByteOf(n[k], 2) && b[4 * k + 3] == ByteOf(n[k], 3);
      assert n[k] == n[k][0..8] + n[k][8..16] + n[k][16..24] + n[k][24..32];
    }
  }

  lemma {:induction false} ReadWritten(ns: seq<Node>)
    ensures ReadNodes(EndpointBytes(ns)) == ns
  {
    hide NodeBytes, NodeOf;
    if ns != [] {
      var k := |ns| - 1;
      ReadWritten(ns[..k]);
      NodeWords(ns[k]);
      var b := EndpointBytes(ns);
      assert b[..|b| - NODE_BYTES] == EndpointBytes(ns[..k]) && b[|b| - NODE_BYTES..] == NodeBytes(ns[k]);
      assert ns == ns[..k] + [ns[k]];
    }
  }

  lemma {:induction false} WriteRead(b: seq<Byte>)
    requires |b| % NODE_BYTES == 0
    ensures EndpointBytes(ReadNodes(b)) == b
  {
    hide NodeBytes, NodeOf;
    if b != [] {
      var c := b[..|b| - NODE_BYTES];
      WriteRead(c);
      NodeRoundTrip(b[|b| - NODE_BYTES..]);
      var ns := ReadNodes(b);
      assert ns[..|ns| - 1] == ReadNodes(c);
      assert b == c + b[|b| - NODE_BYTES..];
    }
  }

  /** Reading undoes writing, and every 1212 bytes are the writing of what they read as. */
  lemma SignatureRoundTrip(sig: Signature, b: seq<Byte>)
    requires sig.WellFormed()
    ensures ReadSig(WriteSig(sig)) == Some(sig)
    ensures ReadSig(b).Some? ==> WriteSig(ReadSig(b).value) == b
  {
    hide LittleEndian, LoadWord, EndpointBytes, ReadNodes;
    var w := WriteSig(sig);
    WordRoundTrip(sig.leafIndex);
    ReadWritten(sig.tips);
    ReadWritten(sig.path);
    assert w[..4] == LittleEndian(sig.leafIndex) && w[4..28] == sig.nonce;
    assert w[28..700] == EndpointBytes(sig.tips) && w[700..] == EndpointBytes(sig.path);
    if |b| == SIG_BYTES {
      ByteRoundTrip(b[..4]);
      WriteRead(b[28..700]);
      WriteRead(b[700..]);
      assert b == b[..4] + b[4..28] + b[28..700] + b[700..];
    }
  }
}
