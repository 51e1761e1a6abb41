/** The chunk hash is as collision free as its compression function, and two of its tables are what they should be:
    the initial words are square roots, and the flags tell first and last blocks from the others. */
module ChunkBinding {
  import opened Words
  import opened Blake3
  import opened KkwCodec
  import opened HashInputs

  // ---- constants -----------------------------------------------------------

  /** w is the whole part of the square root of p, and v its first 32 binary digits after the point. */
  predicate RootDigits(p: nat, w: nat, v: nat)
  {
    && w * w <= p < (w + 1) * (w + 1) && v < 0x1_0000_0000
    && Square(w * 0x1_0000_0000 + v) <= p * 0x1_0000_0000_0000_0000 < Square(w * 0x1_0000_0000 + v + 1)
  }

  function Square(n: nat): nat { n * n }

  /** The initial words are the square roots of the first eight primes, cut off after 32 digits. */
  lemma IvAreRoots()
    ensures RootDigits(2, 1, ToNat(IV(0))) && RootDigits(3, 1, ToNat(IV(1))) && RootDigits(5, 2, ToNat(IV(2))) && RootDigits(7, 2, ToNat(IV(3)))
    ensures RootDigits(11, 3, ToNat(IV(4))) && RootDigits(13, 3, ToNat(IV(5))) && RootDigits(17, 4, ToNat(IV(6))) && RootDigits(19, 4, ToNat(IV(7)))
  {
    hide ToNat, Word32;
    WordValue(0x6A09E667);
    WordValue(0xBB67AE85);
    WordValue(0x3C6EF372);
    WordValue(0xA54FF53A);
    WordValue(0x510E527F);
    WordValue(0x9B05688C);
    WordValue(0x1F83D9AB);
    WordValue(0x5BE0CD19);
  }

  lemma WordsDiffer(v: nat, w: nat)
    requires v < 256 && w < 256
    ensures Word32(v) == Word32(w) <==> v == w
  {
    hide Word32;
    WordValue(v);
    WordValue(w);
  }

  /** Two blocks carry the same flags exactly if both or neither start their chunk, and both or neither end it. */
  lemma FlagsTell(b: nat, n: nat, c: nat, m: nat)
    requires b < n && c < m
    ensures Word32(Flags(b, n)) == Word32(Flags(c, m)) <==> ((b == 0) == (c == 0) && (b + 1 == n) == (c + 1 == m))
  {
    hide Word32;
    WordsDiffer(Flags(b, n), Flags(c, m));
  }

  // ---- chaining ------------------------------------------------------------

  datatype Block = Block(cv: seq<Word>, m: seq<Word>, len: Word, flags: Word)

  predicate Shaped(b: Block) { |b.cv| == 8 && |b.m| == 16 }

  function Compressed(b: Block): seq<Word>
    requires Shaped(b)
  {
    Compress(b.cv, b.m, b.len, b.flags)
  }

  /** What compressing block b of a frame takes in. */
  function BlockOf(f: seq<Byte>, b: nat): (r: Block)
    requires b < BlockCount(|f|)
    ensures Shaped(r)
  {
    Block(ChainingValue(f, b), BlockWords(f, b), Word32(BlockLength(|f|, b)), Word32(Flags(b, BlockCount(|f|))))
  }

  ghost predicate CollisionFree(X: set<Block>)
  {
    forall a, b :: a in X && b in X && Shaped(a) && Shaped(b) && Compressed(a) == Compressed(b) ==> a == b
  }

  ghost predicate CoversFrame(X: set<Block>, f: seq<Byte>)
  {
    forall b :: 0 <= b < BlockCount(|f|) ==> BlockOf(f, b) in X
  }

  lemma NextChaining(f: seq<Byte>, b: nat)
    requires b < BlockCount(|f|)
    ensures ChainingValue(f, b + 1) == Compressed(BlockOf(f, b))
  {
    hide Compress, BlockWords;
  }

  lemma LengthBound(len: nat, b: nat)
    requires b < BlockCount(len)
    ensures b * BLOCK_LEN <= len && BlockLength(len, b) <= 64
  {
  }

  /** Equal chaining values after i and after j blocks: as many blocks, and the same ones. */
  lemma {:induction false} ChainsAgree(X: set<Block>, f: seq<Byte>, g: seq<Byte>, i: nat, j: nat)
    requires CollisionFree(X) && CoversFrame(X, f) && CoversFrame(X, g) && 0 < i <= BlockCount(|f|) && 0 < j <= BlockCount(|g|)
    requires ChainingValue(f, i) == ChainingValue(g, j)
    ensures i == j && forall b :: 0 <= b < i ==> BlockOf(f, b) == BlockOf(g, b)
    decreases i
  {
    hide ChainingValue, Compress, BlockWords, BlockCount, Word32, Flags, BlockLength;
    NextChaining(f, i - 1);
    NextChaining(g, j - 1);
    var a, b := BlockOf(f, i - 1), BlockOf(g, j - 1);
    assert a == b;
    FlagsTell(i - 1, BlockCount(|f|), j - 1, BlockCount(|g|));
    if i > 1 { ChainsAgree(X, f, g, i - 1, j - 1); }
  }

  lemma LastBlock(len: nat)
    requires len > 0
    ensures BlockCount(len) > 0 && len == (BlockCount(len) - 1) * BLOCK_LEN + BlockLength(len, BlockCount(len) - 1)
  {
    LengthBound(len, BlockCount(len) - 1);
  }

  lemma SameLength(f: seq<Byte>, g: seq<Byte>)
    requires |f| > 0 && |g| > 0 && BlockCount(|f|) == BlockCount(|g|)
    requires Word32(BlockLength(|f|, BlockCount(|f|) - 1)) == Word32(BlockLength(|g|, BlockCount(|g|) - 1))
    ensures |f| == |g|
  {
    hide Word32, BlockCount, BlockLength;
    LastBlock(|f|);
    LastBlock(|g|);
    LengthBound(|f|, BlockCount(|f|) - 1);
    LengthBound(|g|, BlockCount(|g|) - 1);
    WordsDiffer(BlockLength(|f|, BlockCount(|f|) - 1), BlockLength(|g|, BlockCount(|g|) - 1));
  }

  /** Byte k of a frame, in the words of its block. */
  lemma ByteInBlock(f: seq<Byte>, k: nat)
    requires k < |f|
    ensures k / 64 < BlockCount(|f|)
    ensures BlockWords(f, k / 64)[k % 64 / 4][8 * (k % 4)..8 * (k % 4) + 8] == f[k]
  {
    var b, w, t := k / 64, k % 64 / 4, k % 4;
    assert k == 64 * b + 4 * w + t;
    var word := WordAt(f, b * BLOCK_LEN + 4 * w);
    assert BlockWords(f, b)[w] == word;
    assert word[8 * t..8 * t + 8] == Padded(f, b * BLOCK_LEN + 4 * w + t);
  }

  lemma SameBlocks(f: seq<Byte>, g: seq<Byte>)
    requires |f| == |g| && forall b :: 0 <= b < BlockCount(|f|) ==> BlockWords(f, b) == BlockWords(g, b)
    ensures f == g
  {
    hide BlockWords, BlockCount;
    forall k | 0 <= k < |f|
      ensures f[k] == g[k]
    {
      ByteInBlock(f, k);
      ByteInBlock(g, k);
    }
  }

  lemma SameFrame(X: set<Block>, f: seq<Byte>, g: seq<Byte>)
    requires CollisionFree(X) && CoversFrame(X, f) && CoversFrame(X, g) && |f| > 0 && |g| > 0
    requires ChainingValue(f, BlockCount(|f|)) == ChainingValue(g, BlockCount(|g|))
    ensures f == g
  {
    hide ChainingValue, BlockWords, BlockCount, BlockLength, Word32, Flags, CollisionFree, CoversFrame;
    LastBlock(|f|);
    LastBlock(|g|);
    var n := BlockCount(|f|);
    ChainsAgree(X, f, g, n, BlockCount(|g|));
    assert BlockOf(f, n - 1) == BlockOf(g, n - 1);
    SameLength(f, g);
    forall b | 0 <= b < n
      ensures BlockWords(f, b) == BlockWords(g, b)
    {
      assert BlockOf(f, b) == BlockOf(g, b);
    }
    SameBlocks(f, g);
  }

  lemma BytesInjective(a: seq<Word>, b: seq<Word>)
    requires |a| == |b| == 8 && Bytes(a, 32) == Bytes(b, 32)
    ensures a == b
  {
    forall w | 0 <= w < 8
      ensures a[w] == b[w]
    {
      var x, y := Bytes(a, 32), Bytes(b, 32);
      assert x[4 * w] == ByteOf(a[w], 0) && x[4 * w + 1] == ByteOf(a[w], 1) && x[4 * w + 2] == ByteOf(a[w], 2) && x[4 * w + 3] == ByteOf(a[w], 3);
      assert y[4 * w] == ByteOf(b[w], 0) && y[4 * w + 1] == ByteOf(b[w], 1) && y[4 * w + 2] == ByteOf(b[w], 2) && y[4 * w + 3] == ByteOf(b[w], 3);
      assert a[w] == a[w][0..8] + a[w][8..16] + a[w][16..24] + a[w][24..32];
      assert b[w] == b[w][0..8] + b[w][8..16] + b[w][16..24] + b[w][24..32];
    }
  }

  /** A collision of the whole hash is a collision of the compression function: if no two of the blocks that
      two evaluations compress collide, equal 32-byte hashes mean equal domains and equal data. */
  lemma HashBinds(X: set<Block>, dom: seq<Byte>, data: seq<Byte>, dom': seq<Byte>, data': seq<Byte>)
    requires |dom| < 0x1_0000_0000 && |dom'| < 0x1_0000_0000 && CollisionFree(X)
    requires CoversFrame(X, Framed(dom, data)) && CoversFrame(X, Framed(dom', data'))
    requires Th(dom, data, 32) == Th(dom', data', 32)
    ensures dom == dom' && data == data'
  {
    hide ChainingValue, Bytes, BlockCount, CollisionFree, CoversFrame;
    var f, g := Framed(dom, data), Framed(dom', data');
    BytesInjective(ChainingValue(f, BlockCount(|f|)), ChainingValue(g, BlockCount(|g|)));
    SameFrame(X, f, g);
    FramedInjective(dom, data, dom', data');
  }
}
