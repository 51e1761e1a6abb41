/** What the challenge is bound to. Unless two of the hashed inputs at hand collide, one challenge belongs to one
    statement, one nonce, one first message and one counter; and the counter meets the grinding target. */
module KkwBinding {
  import opened Wrappers
  import opened Words
  import opened Blake3
  import opened KkwCodec
  import opened Kkw
  import opened KkwTheorems

  // ---- the bytes that are hashed -------------------------------------------

  lemma BigEndianInjective(a: Word, b: Word)
    requires BigEndian(a) == BigEndian(b)
    ensures a == b
  {
    var x, y := BigEndian(a), BigEndian(b);
    assert ByteOf(a, 3) == x[0] == y[0] == ByteOf(b, 3) && ByteOf(a, 2) == x[1] == y[1] == ByteOf(b, 2);
    assert ByteOf(a, 1) == x[2] == y[2] == ByteOf(b, 1) && ByteOf(a, 0) == x[3] == y[3] == ByteOf(b, 0);
    assert a == a[0..8] + a[8..16] + a[16..24] + a[24..32] && b == b[0..8] + b[8..16] + b[16..24] + b[24..32];
  }

  lemma {:induction false} BigEndianAllInjective(a: seq<Word>, b: seq<Word>)
    requires |a| == |b| && BigEndianAll(a) == BigEndianAll(b)
    ensures a == b
  {
    hide BigEndian;
    if a != [] {
      var k := |a| - 1;
      Unjoin(BigEndianAll(a[..k]), BigEndian(a[k]), BigEndianAll(b[..k]), BigEndian(b[k]));
      BigEndianAllInjective(a[..k], b[..k]);
      BigEndianInjective(a[k], b[k]);
      assert a == a[..k] + [a[k]] && b == b[..k] + [b[k]];
    }
  }

  lemma FsPreimageInjective(m: D32, s: D16, pub: seq<Word>, nonce: D32, hStar: D32, m': D32, s': D16, pub': seq<Word>, nonce': D32, hStar': D32)
    requires |pub| == |pub'| && FsPreimage(m, s, pub, nonce, hStar) == FsPreimage(m', s', pub', nonce', hStar')
    ensures m == m' && s == s' && pub == pub' && nonce == nonce' && hStar == hStar'
  {
    hide BigEndianAll;
    var b, b' := BigEndianAll(pub), BigEndianAll(pub');
    Unjoin(m + b + s + nonce, hStar, m' + b' + s' + nonce', hStar');
    Unjoin(m + b + s, nonce, m' + b' + s', nonce');
    Unjoin(m + b, s, m' + b', s');
    Unjoin(m, b, m', b');
    BigEndianAllInjective(pub, pub');
  }

  /** Where each field of the statement lies. */
  lemma FsLayout(m: D32, s: D16, pub: seq<Word>, nonce: D32, hStar: D32)
    requires |pub| == 8
    ensures var b := FsPreimage(m, s, pub, nonce, hStar);
            && |b| == 144 && b[..32] == m && b[64..80] == s && b[80..112] == nonce && b[112..] == hStar
            && forall i :: 0 <= i < 8 ==> b[32..64][4 * i..4 * i + 4] == BigEndian(pub[i])
  {
    hide BigEndianAll, BigEndian;
    var b := FsPreimage(m, s, pub, nonce, hStar);
    assert b[32..64] == BigEndianAll(pub);
    forall i | 0 <= i < 8
      ensures b[32..64][4 * i..4 * i + 4] == BigEndian(pub[i])
    {
      BigEndianAllAt(pub, i);
    }
  }

  lemma {:induction false} BigEndianAllAt(ws: seq<Word>, i: nat)
    requires i < |ws|
    ensures BigEndianAll(ws)[4 * i..4 * i + 4] == BigEndian(ws[i])
    decreases |ws|
  {
    hide BigEndian;
    var k := |ws| - 1;
    if i < k {
      BigEndianAllAt(ws[..k], i);
      assert BigEndianAll(ws)[4 * i..4 * i + 4] == BigEndianAll(ws[..k])[4 * i..4 * i + 4];
    }
  }

  // ---- binding -------------------------------------------------------------

  /** What deriving a challenge hashes. */
  ghost predicate CoversSeed(X: set<seq<Byte>>, sys: System, m: D32, s: D16, pub: seq<Word>, nonce: D32, hStar: D32, ctr: Word)
  {
    FsPreimage(m, s, pub, nonce, hStar) in X && GrindPreimage(sys, m, s, pub, nonce, hStar, ctr) in X
  }

  /** Equal challenge seeds, and no collision among what the two derivations hash: everything is equal. */
  lemma SeedBinds(X: set<seq<Byte>>, sys: System, m: D32, s: D16, pub: seq<Word>, nonce: D32, hStar: D32, ctr: Word,
                  m': D32, s': D16, pub': seq<Word>, nonce': D32, hStar': D32, ctr': Word)
    requires CollisionFree(sys, X) && |pub| == |pub'|
    requires CoversSeed(X, sys, m, s, pub, nonce, hStar, ctr) && CoversSeed(X, sys, m', s', pub', nonce', hStar', ctr')
    requires FsSeed(sys, m, s, pub, nonce, hStar, ctr) == FsSeed(sys, m', s', pub', nonce', hStar', ctr')
    ensures m == m' && s == s' && pub == pub' && nonce == nonce' && hStar == hStar' && ctr == ctr'
  {
    hide FsPreimage, BigEndian;
    var x, x' := FsPreimage(m, s, pub, nonce, hStar), FsPreimage(m', s', pub', nonce', hStar');
    assert GrindPreimage(sys, m, s, pub, nonce, hStar, ctr) == GrindPreimage(sys, m', s', pub', nonce', hStar', ctr');
    Unjoin(sys.th(Fs, x), BigEndian(ctr), sys.th(Fs, x'), BigEndian(ctr'));
    FsPreimageInjective(m, s, pub, nonce, hStar, m', s', pub', nonce', hStar');
    BigEndianInjective(ctr, ctr');
  }

  /** One challenge, one statement: if moreover the expansion takes the two seeds at hand to one challenge only
      when they are equal, a challenge fixes message, key seed, public output, nonce, first message and counter.
      So no prover knows what will be opened before committing to it. */
  lemma ChallengeBinds(X: set<seq<Byte>>, sys: System, m: D32, s: D16, pub: seq<Word>, nonce: D32, hStar: D32, ctr: Word,
                       m': D32, s': D16, pub': seq<Word>, nonce': D32, hStar': D32, ctr': Word)
    requires sys.Good() && CollisionFree(sys, X) && |pub| == |pub'|
    requires CoversSeed(X, sys, m, s, pub, nonce, hStar, ctr) && CoversSeed(X, sys, m', s', pub', nonce', hStar', ctr')
    requires var d, d' := FsSeed(sys, m, s, pub, nonce, hStar, ctr), FsSeed(sys, m', s', pub', nonce', hStar', ctr');
             sys.expand(d) == sys.expand(d') ==> d == d'
    requires ChallengeOf(sys, m, s, pub, nonce, hStar, ctr).Some?
    requires ChallengeOf(sys, m, s, pub, nonce, hStar, ctr) == ChallengeOf(sys, m', s', pub', nonce', hStar', ctr')
    ensures m == m' && s == s' && pub == pub' && nonce == nonce' && hStar == hStar' && ctr == ctr'
  {
    hide FsSeed, Ground, CoversSeed, CollisionFree;
    SeedBinds(X, sys, m, s, pub, nonce, hStar, ctr, m', s', pub', nonce', hStar', ctr');
  }

  /** Two accepted proofs drawn to one challenge are of one statement and start with one first message. */
  lemma AcceptedBinds(X: set<seq<Byte>>, sys: System, m: D32, s: D16, pub: seq<Word>, pf: Proof, m': D32, s': D16, pub': seq<Word>, pf': Proof, c: Challenge)
    requires sys.Good() && CollisionFree(sys, X) && |pub| == |pub'|
    requires Accepts(sys, m, s, pub, pf, c) && Accepts(sys, m', s', pub', pf', c)
    requires CoversSeed(X, sys, m, s, pub, pf.nonce, pf.hStar, pf.ctr) && CoversSeed(X, sys, m', s', pub', pf'.nonce, pf'.hStar, pf'.ctr)
    requires var d, d' := FsSeed(sys, m, s, pub, pf.nonce, pf.hStar, pf.ctr), FsSeed(sys, m', s', pub', pf'.nonce, pf'.hStar, pf'.ctr);
             sys.expand(d) == sys.expand(d') ==> d == d'
    ensures m == m' && s == s' && pub == pub' && pf.nonce == pf'.nonce && pf.hStar == pf'.hStar && pf.ctr == pf'.ctr
  {
    hide FsSeed, CoversSeed, CollisionFree, ChallengeOf, RoundsAccepted, Shaped, AllDigests, StarOf;
    ChallengeBinds(X, sys, m, s, pub, pf.nonce, pf.hStar, pf.ctr, m', s', pub', pf'.nonce, pf'.hStar, pf'.ctr);
  }

  /** The header names the parameters, modulo 2^32: a proof made for others is not taken for one of these. */
  lemma HeaderBinds(p: Params, nonce: D32, hStar: D32, ctr: Word, p': Params, nonce': D32, hStar': D32, ctr': Word)
    requires Preamble(p, nonce, hStar, ctr) == Preamble(p', nonce', hStar', ctr')
    ensures Word32(p.n) == Word32(p'.n) && Word32(p.m) == Word32(p'.m) && Word32(p.tau) == Word32(p'.tau)
    ensures Word32(p.ySize) == Word32(p'.ySize) && Word32(p.grind) == Word32(p'.grind)
  {
    hide *;
    var h, h' := Header(p), Header(p');
    HeaderFirst(p, nonce, hStar, ctr);
    HeaderFirst(p', nonce', hStar', ctr');
    HeaderFields(p);
    HeaderFields(p');
    LittleEndianInjective(Word32(p.n), Word32(p'.n));
    LittleEndianInjective(Word32(p.m), Word32(p'.m));
    LittleEndianInjective(Word32(p.tau), Word32(p'.tau));
    LittleEndianInjective(Word32(p.ySize), Word32(p'.ySize));
    LittleEndianInjective(Word32(p.grind), Word32(p'.grind));
  }

  lemma HeaderFirst(p: Params, nonce: D32, hStar: D32, ctr: Word)
    ensures Preamble(p, nonce, hStar, ctr)[..24] == Header(p)
  {
    hide Header, LittleEndian;
  }

  lemma HeaderFields(p: Params)
    ensures Header(p)[4..8] == LittleEndian(Word32(p.n)) && Header(p)[8..12] == LittleEndian(Word32(p.m))
    ensures Header(p)[12..16] == LittleEndian(Word32(p.tau)) && Header(p)[16..20] == LittleEndian(Word32(p.ySize))
    ensures Header(p)[20..24] == LittleEndian(Word32(p.grind))
  {
    hide LittleEndian, Word32;
  }

  lemma LittleEndianInjective(a: Word, b: Word)
    requires LittleEndian(a) == LittleEndian(b)
    ensures a == b
  {
    hide LittleEndian, LoadWord;
    WordRoundTrip(a);
    WordRoundTrip(b);
  }

  /** Every digest has a tag of its own: whatever value each tag is to give, some hash gives each digest of the
      protocol exactly its tag's value, whatever is hashed. */
  lemma TagsApart(sys: System, digestOf: Tag -> D32) returns (th: (Tag, seq<Byte>) -> D32)
    ensures var sys' := sys.(th := th);
            && (forall i, seed, aux :: PartyCom(sys', i, seed, aux) == digestOf(PpCom))
            && (forall coms :: HjOf(sys', coms) == digestOf(Hj))
            && (forall d, rows, r :: HPrimeOf(sys', d, rows, r) == digestOf(HPrime))
            && (forall yp :: HOutOf(sys', yp) == digestOf(HOut))
            && (forall ds :: Top(sys', ds) == digestOf(HStar1) + digestOf(HStar2) + digestOf(HStar3) && StarOf(sys', ds) == digestOf(HStar))
            && (forall m, s, pub, nonce, hStar, ctr :: GrindPreimage(sys', m, s, pub, nonce, hStar, ctr) == digestOf(Fs) + BigEndian(ctr)
                                                       && FsSeed(sys', m, s, pub, nonce, hStar, ctr) == digestOf(Grind))
  {
    hide EncodeSeeds, EncodeRows, PartyPreimage, FsPreimage, BigEndian;
    th := (t: Tag, b: seq<Byte>) => digestOf(t);
  }

  // ---- grinding ------------------------------------------------------------

  /** The number a digest is, most significant byte first. */
  function Number(d: seq<Byte>): nat
  {
    if d == [] then 0 else 256 * Number(d[..|d| - 1]) + ToNat(d[|d| - 1])
  }

  /** Its bits, lowest first. */
  function NumberBits(d: seq<Byte>): (b: Bits)
    ensures |b| == 8 * |d|
  {
    if d == [] then [] else d[|d| - 1] + NumberBits(d[..|d| - 1])
  }

  lemma {:induction false} NumberOfBits(d: seq<Byte>)
    ensures ToNat(NumberBits(d)) == Number(d)
  {
    hide ToNat, Pow2;
    if d == [] {
      assert NumberBits(d) == Zeros(0);
      ToNatZeros(0);
    } else {
      NumberOfBits(d[..|d| - 1]);
      ToNatAppend(d[|d| - 1], NumberBits(d[..|d| - 1]));
      Pow8();
    }
  }

  lemma {:induction false} NumberBitAt(d: seq<Byte>, b: nat)
    requires b < 8 * |d|
    ensures NumberBits(d)[b] == d[|d| - 1 - b / 8][b % 8]
    decreases |d|
  {
    if b >= 8 {
      NumberBitAt(d[..|d| - 1], b - 8);
      assert (b - 8) / 8 == b / 8 - 1 && (b - 8) % 8 == b % 8;
    }
  }

  predicate Clear(a: Bits, g: nat)
    requires g <= |a|
  {
    forall b :: 0 <= b < g ==> !a[b]
  }

  /** A number is zero exactly if its bits are. */
  lemma ZeroBits(a: Bits)
    ensures ToNat(a) == 0 <==> Clear(a, |a|)
  {
    hide ToNat;
    ToNatZeros(|a|);
    if ToNat(a) == 0 { ToNatInjective(a, Zeros(|a|)); }
    if Clear(a, |a|) { assert a == Zeros(|a|); }
  }

  /** The low g bits of a number are clear exactly if 2^g divides it. */
  lemma LowBitsClear(a: Bits, g: nat)
    requires g <= |a|
    ensures ToNat(a) % Pow2(g) == 0 <==> Clear(a, g)
  {
    hide ToNat, Pow2;
    var low := a[..g];
    assert a == low + a[g..];
    ToNatAppend(low, a[g..]);
    LowRemainder(low, ToNat(a[g..]));
    ZeroBits(low);
    assert Clear(low, g) <==> Clear(a, g);
  }

  lemma LowRemainder(low: Bits, q: nat)
    ensures (ToNat(low) + Pow2(|low|) * q) % Pow2(|low|) == ToNat(low)
  {
    hide ToNat, Pow2;
    ToNatBound(low);
    ModOf(ToNat(low), q, Pow2(|low|));
  }

  /** The grinding target: the digest, as a number, is a multiple of 2^g. */
  lemma GroundIsMultiple(d: D32, g: nat)
    requires g <= 256
    ensures Ground(d, g) <==> Number(d) % Pow2(g) == 0
  {
    hide ToNat, Pow2, Number, NumberBits;
    var a := NumberBits(d);
    NumberOfBits(d);
    LowBitsClear(a, g);
    if Ground(d, g) {
      forall b | 0 <= b < g
        ensures !a[b]
      {
        NumberBitAt(d, b);
      }
    }
    if Clear(a, g) {
      forall b | 0 <= b < g
        ensures !d[31 - b / 8][b % 8]
      {
        NumberBitAt(d, b);
        assert !a[b];
      }
    }
  }

  /** No proof is accepted whose challenge seed misses the grinding target. */
  lemma AcceptedIsGround(sys: System, m: D32, s: D16, pub: seq<Word>, pf: Proof, c: Challenge)
    requires sys.Good() && Accepts(sys, m, s, pub, pf, c)
    ensures Number(FsSeed(sys, m, s, pub, pf.nonce, pf.hStar, pf.ctr)) % Pow2(sys.p.grind) == 0
  {
    hide FsSeed, Number, Pow2, Ground, RoundsAccepted, Shaped, AllDigests, StarOf;
    GroundIsMultiple(FsSeed(sys, m, s, pub, pf.nonce, pf.hStar, pf.ctr), sys.p.grind);
  }
}
