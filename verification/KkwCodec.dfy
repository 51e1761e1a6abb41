/** The proof stream: fixed-width fields written one after the other, with the corrections of an opened
    instance left out when party 0 is hidden. */
module KkwCodec {
  import opened Words
  import opened Sharing
  import opened Blake3

  type D16 = b: seq<Byte> | |b| == 16 witness seq(16, _ => Zeros(8))
  type D32 = b: seq<Byte> | |b| == 32 witness seq(32, _ => Zeros(8))

  /** The numbers both sides are built with. */
  datatype Params = Params(n: nat, m: nat, tau: nat, ySize: nat, grind: nat, inputLen: nat)
  {
    predicate Ok() { 2 <= n && tau <= m }
  }

  datatype Closed = Closed(seedStar: D32, hPrime: D32)
  datatype Opened = Opened(com: D32, yp: seq<seq<Word>>, ke: seq<D32>, x: seq<Byte>, aux: seq<Word>, msgs: seq<Word>, r: D32)
  datatype Proof = Proof(nonce: D32, hStar: D32, ctr: Word, closed: seq<Closed>, openings: seq<Opened>)

  const BLANK: Closed := Closed(Blank(32), Blank(32))

  function Blank(n: nat): (b: seq<Byte>)
    ensures |b| == n
  {
    var r: seq<Bits> := seq(n, _ => Zeros(8));
    assert forall i :: 0 <= i < n ==> r[i] == Zeros(8);
    r
  }

  predicate OpenedShape(p: Params, o: Opened, e: nat)
  {
    && |o.yp| == p.n && (forall i :: 0 <= i < p.n ==> |o.yp[i]| == 8)
    && |o.ke| == p.n - 1 && |o.x| == p.inputLen && |o.aux| == p.ySize && |o.msgs| == p.ySize
    && (e == 0 ==> o.aux == ZeroWords(p.ySize))
  }

  /** inC marks the opened instances; ps is the hidden party of each. */
  predicate ProofShape(p: Params, pf: Proof, inC: seq<bool>, ps: seq<nat>)
  {
    && |inC| == |pf.closed| == p.m && |ps| == |pf.openings| == p.tau
    && (forall j :: 0 <= j < p.m && inC[j] ==> pf.closed[j] == BLANK)
    && (forall k :: 0 <= k < p.tau ==> OpenedShape(p, pf.openings[k], ps[k]))
  }

  // ---- words and rows ------------------------------------------------------

  lemma WordRoundTrip(w: Word)
    ensures LoadWord(LittleEndian(w), 0) == w
  {
    var b := LittleEndian(w);
    var lo: Bits := b[0];
    assert w == w[0..8] + w[8..16] + w[16..24] + w[24..32];
  }

  lemma ByteRoundTrip(b: seq<Byte>)
    requires |b| == 4
    ensures LittleEndian(LoadWord(b, 0)) == b
  {
    var w := LoadWord(b, 0);
    assert ByteOf(w, 0) == b[0] && ByteOf(w, 1) == b[1] && ByteOf(w, 2) == b[2] && ByteOf(w, 3) == b[3];
  }

  function EncodeWords(ws: seq<Word>): (b: seq<Byte>)
    ensures |b| == 4 * |ws|
  {
    if ws == [] then [] else EncodeWords(ws[..|ws| - 1]) + LittleEndian(ws[|ws| - 1])
  }

  lemma {:induction false} EncodeWordsInjective(a: seq<Word>, b: seq<Word>)
    requires |a| == |b| && EncodeWords(a) == EncodeWords(b)
    ensures a == b
  {
    if a != [] {
      var k := |a| - 1;
      Unjoin(EncodeWords(a[..k]), LittleEndian(a[k]), EncodeWords(b[..k]), LittleEndian(b[k]));
      EncodeWordsInjective(a[..k], b[..k]);
      WordRoundTrip(a[k]);
      WordRoundTrip(b[k]);
      assert a == a[..k] + [a[k]] && b == b[..k] + [b[k]];
    }
  }

  lemma Unjoin<T>(a: seq<T>, b: seq<T>, c: seq<T>, d: seq<T>)
    requires |a| == |c| && a + b == c + d
    ensures a == c && b == d
  {
    assert a == (a + b)[..|a|] && c == (c + d)[..|c|];
    assert b == (a + b)[|a|..] && d == (c + d)[|c|..];
  }

  function EncodeRows(rows: seq<seq<Word>>): seq<Byte>
  {
    if rows == [] then [] else EncodeRows(rows[..|rows| - 1]) + EncodeWords(rows[|rows| - 1])
  }

  lemma {:induction false} RowsLength(rows: seq<seq<Word>>, w: nat)
    requires forall i :: 0 <= i < |rows| ==> |rows[i]| == w
    ensures |EncodeRows(rows)| == 4 * w * |rows|
  {
    if rows != [] {
      var k := |rows| - 1;
      RowsLength(rows[..k], w);
      OneMoreRow(w, k);
    }
  }

  lemma OneMoreRow(w: nat, k: nat)
    ensures 4 * w * (k + 1) == 4 * w * k + 4 * w
  {
  }

  lemma RowsUnfold(rows: seq<seq<Word>>)
    requires rows != []
    ensures EncodeRows(rows) == EncodeRows(rows[..|rows| - 1]) + EncodeWords(rows[|rows| - 1])
  {
  }

  lemma {:induction false} EncodeRowsInjective(a: seq<seq<Word>>, b: seq<seq<Word>>, w: nat)
    requires |a| == |b| && (forall i :: 0 <= i < |a| ==> |a[i]| == |b[i]| == w) && EncodeRows(a) == EncodeRows(b)
    ensures a == b
  {
    hide EncodeWords, EncodeRows;
    if a != [] {
      var k := |a| - 1;
      RowsUnfold(a);
      RowsUnfold(b);
      RowsLength(a[..k], w);
      RowsLength(b[..k], w);
      Unjoin(EncodeRows(a[..k]), EncodeWords(a[k]), EncodeRows(b[..k]), EncodeWords(b[k]));
      EncodeRowsInjective(a[..k], b[..k], w);
      EncodeWordsInjective(a[k], b[k]);
      assert a == a[..k] + [a[k]] && b == b[..k] + [b[k]];
    }
  }

  function EncodeSeeds(ke: seq<D32>): (b: seq<Byte>)
    ensures |b| == 32 * |ke|
  {
    if ke == [] then [] else EncodeSeeds(ke[..|ke| - 1]) + ke[|ke| - 1]
  }

  lemma {:induction false} EncodeSeedsInjective(a: seq<D32>, b: seq<D32>)
    requires |a| == |b| && EncodeSeeds(a) == EncodeSeeds(b)
    ensures a == b
  {
    if a != [] {
      var k := |a| - 1;
      Unjoin(EncodeSeeds(a[..k]), a[k], EncodeSeeds(b[..k]), b[k]);
      EncodeSeedsInjective(a[..k], b[..k]);
      assert a == a[..k] + [a[k]] && b == b[..k] + [b[k]];
    }
  }

  // ---- an opened instance --------------------------------------------------

  function EncodeAux(aux: seq<Word>, e: nat): seq<Byte>
  {
    if e != 0 then EncodeWords(aux) else []
  }

  function EncodeOpened(o: Opened, e: nat): seq<Byte>
  {
    o.com + EncodeRows(o.yp) + EncodeSeeds(o.ke) + o.x + EncodeAux(o.aux, e) + EncodeWords(o.msgs) + o.r
  }

  function OpenedLength(p: Params, e: nat): nat
    requires p.Ok()
  {
    32 + 32 * p.n + 32 * (p.n - 1) + p.inputLen + (if e != 0 then 4 * p.ySize else 0) + 4 * p.ySize + 32
  }

  lemma OpenedHasLength(p: Params, o: Opened, e: nat)
    requires p.Ok() && OpenedShape(p, o, e)
    ensures |EncodeOpened(o, e)| == OpenedLength(p, e)
  {
    RowsLength(o.yp, 8);
  }

  lemma OpenedInjective(p: Params, a: Opened, b: Opened, e: nat)
    requires p.Ok() && OpenedShape(p, a, e) && OpenedShape(p, b, e) && EncodeOpened(a, e) == EncodeOpened(b, e)
    ensures a == b
  {
    RowsLength(a.yp, 8);
    RowsLength(b.yp, 8);
    var a6, b6 := a.com + EncodeRows(a.yp) + EncodeSeeds(a.ke) + a.x + EncodeAux(a.aux, e) + EncodeWords(a.msgs),
                  b.com + EncodeRows(b.yp) + EncodeSeeds(b.ke) + b.x + EncodeAux(b.aux, e) + EncodeWords(b.msgs);
    var a5, b5 := a.com + EncodeRows(a.yp) + EncodeSeeds(a.ke) + a.x + EncodeAux(a.aux, e),
                  b.com + EncodeRows(b.yp) + EncodeSeeds(b.ke) + b.x + EncodeAux(b.aux, e);
    var a4, b4 := a.com + EncodeRows(a.yp) + EncodeSeeds(a.ke) + a.x, b.com + EncodeRows(b.yp) + EncodeSeeds(b.ke) + b.x;
    var a3, b3 := a.com + EncodeRows(a.yp) + EncodeSeeds(a.ke), b.com + EncodeRows(b.yp) + EncodeSeeds(b.ke);
    var a2, b2 := a.com + EncodeRows(a.yp), b.com + EncodeRows(b.yp);
    Unjoin(a6, a.r, b6, b.r);
    Unjoin(a5, EncodeWords(a.msgs), b5, EncodeWords(b.msgs));
    Unjoin(a4, EncodeAux(a.aux, e), b4, EncodeAux(b.aux, e));
    Unjoin(a3, a.x, b3, b.x);
    Unjoin(a2, EncodeSeeds(a.ke), b2, EncodeSeeds(b.ke));
    Unjoin(a.com, EncodeRows(a.yp), b.com, EncodeRows(b.yp));
    EncodeWordsInjective(a.msgs, b.msgs);
    EncodeRowsInjective(a.yp, b.yp, 8);
    EncodeSeedsInjective(a.ke, b.ke);
    if e != 0 { EncodeWordsInjective(a.aux, b.aux); }
  }

  // ---- the whole stream ----------------------------------------------------

  function EncodeClosed(closed: seq<Closed>, inC: seq<bool>, j: nat): seq<Byte>
    requires |closed| == |inC| && j <= |inC|
  {
    if j == 0 then []
    else EncodeClosed(closed, inC, j - 1) + if inC[j - 1] then [] else closed[j - 1].seedStar + closed[j - 1].hPrime
  }

  function EncodeOpenings(openings: seq<Opened>, ps: seq<nat>, k: nat): seq<Byte>
    requires |openings| == |ps| && k <= |ps|
  {
    if k == 0 then [] else EncodeOpenings(openings, ps, k - 1) + EncodeOpened(openings[k - 1], ps[k - 1])
  }

  /** "KKW2" and the parameters, so that a proof for other parameters is refused. */
  function Header(p: Params): (b: seq<Byte>)
    ensures |b| == 24
  {
    [FromNat(75, 8), FromNat(75, 8), FromNat(87, 8), FromNat(50, 8)]
    + LittleEndian(Word32(p.n)) + LittleEndian(Word32(p.m)) + LittleEndian(Word32(p.tau)) + LittleEndian(Word32(p.ySize)) + LittleEndian(Word32(p.grind))
  }

  function Preamble(p: Params, nonce: D32, hStar: D32, ctr: Word): (b: seq<Byte>)
    ensures |b| == 92
  {
    Header(p) + nonce + hStar + LittleEndian(ctr)
  }

  function Encode(p: Params, pf: Proof, inC: seq<bool>, ps: seq<nat>): seq<Byte>
    requires ProofShape(p, pf, inC, ps)
  {
    Preamble(p, pf.nonce, pf.hStar, pf.ctr) + EncodeClosed(pf.closed, inC, |inC|) + EncodeOpenings(pf.openings, ps, |ps|)
  }

  function ClosedLength(inC: seq<bool>, j: nat): nat
    requires j <= |inC|
  {
    if j == 0 then 0 else ClosedLength(inC, j - 1) + if inC[j - 1] then 0 else 64
  }

  function OpeningsLength(p: Params, ps: seq<nat>, k: nat): nat
    requires p.Ok() && k <= |ps|
  {
    if k == 0 then 0 else OpeningsLength(p, ps, k - 1) + OpenedLength(p, ps[k - 1])
  }

  lemma {:induction false} ClosedHasLength(closed: seq<Closed>, inC: seq<bool>, j: nat)
    requires |closed| == |inC| && j <= |inC|
    ensures |EncodeClosed(closed, inC, j)| == ClosedLength(inC, j)
  {
    if j > 0 { ClosedHasLength(closed, inC, j - 1); }
  }

  lemma {:induction false} OpeningsHaveLength(p: Params, openings: seq<Opened>, ps: seq<nat>, k: nat)
    requires p.Ok() && |openings| == |ps| && k <= |ps| && forall i :: 0 <= i < |ps| ==> OpenedShape(p, openings[i], ps[i])
    ensures |EncodeOpenings(openings, ps, k)| == OpeningsLength(p, ps, k)
  {
    hide EncodeOpened, OpenedLength, OpenedShape;
    if k > 0 {
      OpeningsHaveLength(p, openings, ps, k - 1);
      OpenedHasLength(p, openings[k - 1], ps[k - 1]);
    }
  }

  lemma {:induction false} ClosedInjective(a: seq<Closed>, b: seq<Closed>, inC: seq<bool>, j: nat)
    requires |a| == |b| == |inC| && j <= |inC| && EncodeClosed(a, inC, j) == EncodeClosed(b, inC, j)
    ensures forall i :: 0 <= i < j && !inC[i] ==> a[i] == b[i]
  {
    hide EncodeClosed;
    if j > 0 {
      ClosedUnfold(a, inC, j);
      ClosedUnfold(b, inC, j);
      if !inC[j - 1] {
        ClosedHasLength(a, inC, j - 1);
        ClosedHasLength(b, inC, j - 1);
        Unjoin(EncodeClosed(a, inC, j - 1), a[j - 1].seedStar + a[j - 1].hPrime, EncodeClosed(b, inC, j - 1), b[j - 1].seedStar + b[j - 1].hPrime);
        Unjoin(a[j - 1].seedStar, a[j - 1].hPrime, b[j - 1].seedStar, b[j - 1].hPrime);
      }
      ClosedInjective(a, b, inC, j - 1);
    }
  }

  lemma ClosedUnfold(a: seq<Closed>, inC: seq<bool>, j: nat)
    requires |a| == |inC| && 0 < j <= |inC|
    ensures EncodeClosed(a, inC, j) == if inC[j - 1] then EncodeClosed(a, inC, j - 1) else EncodeClosed(a, inC, j - 1) + (a[j - 1].seedStar + a[j - 1].hPrime)
  {
  }

  lemma {:induction false} OpeningsInjective(p: Params, a: seq<Opened>, b: seq<Opened>, ps: seq<nat>, k: nat)
    requires p.Ok() && |a| == |b| == |ps| && k <= |ps| && EncodeOpenings(a, ps, k) == EncodeOpenings(b, ps, k)
    requires forall i :: 0 <= i < |ps| ==> OpenedShape(p, a[i], ps[i]) && OpenedShape(p, b[i], ps[i])
    ensures forall i :: 0 <= i < k ==> a[i] == b[i]
  {
    hide EncodeOpened, OpenedLength;
    if k > 0 {
      OpeningsHaveLength(p, a, ps, k - 1);
      OpeningsHaveLength(p, b, ps, k - 1);
      Unjoin(EncodeOpenings(a, ps, k - 1), EncodeOpened(a[k - 1], ps[k - 1]), EncodeOpenings(b, ps, k - 1), EncodeOpened(b[k - 1], ps[k - 1]));
      OpeningsInjective(p, a, b, ps, k - 1);
      OpenedInjective(p, a[k - 1], b[k - 1], ps[k - 1]);
    }
  }

  lemma PreambleInjective(p: Params, nonce: D32, hStar: D32, ctr: Word, nonce': D32, hStar': D32, ctr': Word)
    requires Preamble(p, nonce, hStar, ctr) == Preamble(p, nonce', hStar', ctr')
    ensures nonce == nonce' && hStar == hStar' && ctr == ctr'
  {
    hide Header, LittleEndian;
    Unjoin(Header(p) + nonce + hStar, LittleEndian(ctr), Header(p) + nonce' + hStar', LittleEndian(ctr'));
    Unjoin(Header(p) + nonce, hStar, Header(p) + nonce', hStar');
    Unjoin(Header(p), nonce, Header(p), nonce');
    WordRoundTrip(ctr);
    WordRoundTrip(ctr');
  }

  function EncodedLength(p: Params, inC: seq<bool>, ps: seq<nat>): nat
    requires p.Ok()
  {
    92 + ClosedLength(inC, |inC|) + OpeningsLength(p, ps, |ps|)
  }

  /** The three parts of an encoding, by position. */
  lemma EncodeParts(p: Params, a: Proof, inC: seq<bool>, ps: seq<nat>)
    requires p.Ok() && ProofShape(p, a, inC, ps)
    ensures var s, k := Encode(p, a, inC, ps), 92 + ClosedLength(inC, |inC|);
            && |s| == EncodedLength(p, inC, ps)
            && s[..92] == Preamble(p, a.nonce, a.hStar, a.ctr)
            && s[92..k] == EncodeClosed(a.closed, inC, |inC|)
            && s[k..] == EncodeOpenings(a.openings, ps, |ps|)
  {
    hide Preamble, OpenedLength, EncodeOpened;
    ClosedHasLength(a.closed, inC, |inC|);
    OpeningsHaveLength(p, a.openings, ps, |ps|);
  }

  /** The stream determines the proof: no two proofs of the same shape share an encoding. */
  lemma EncodeInjective(p: Params, a: Proof, b: Proof, inC: seq<bool>, ps: seq<nat>)
    requires p.Ok() && ProofShape(p, a, inC, ps) && ProofShape(p, b, inC, ps)
    requires Encode(p, a, inC, ps) == Encode(p, b, inC, ps)
    ensures a == b
  {
    hide Preamble, EncodeClosed, EncodeOpenings, ClosedLength, OpeningsLength, Encode;
    EncodeParts(p, a, inC, ps);
    EncodeParts(p, b, inC, ps);
    PreambleInjective(p, a.nonce, a.hStar, a.ctr, b.nonce, b.hStar, b.ctr);
    ClosedInjective(a.closed, b.closed, inC, |inC|);
    OpeningsInjective(p, a.openings, b.openings, ps, |ps|);
    assert a.closed == b.closed && a.openings == b.openings;
  }
}
