/** Reading a proof stream with a cursor, as the verifier does: every read either takes its bytes or
    fails, and a failed read means that no proof of the expected shape is that short. */
module KkwReader {
  import opened Wrappers
  import opened Words
  import opened Sharing
  import opened Blake3
  import opened KkwCodec
  import opened Kkw

  class Reader {
    const data: seq<Byte>
    var pos: nat

    constructor (data: seq<Byte>)
      ensures this.data == data && pos == 0
    {
      this.data := data;
      pos := 0;
    }

    predicate Valid()
      reads this
    {
      pos <= |data|
    }

    method Take(n: nat) returns (b: Option<seq<Byte>>)
      requires Valid()
      modifies this
      ensures Valid() && old(pos) <= pos
      ensures b.Some? <==> old(pos) + n <= |data|
      ensures b.Some? ==> pos == old(pos) + n && b.value == data[old(pos)..pos] && |b.value| == n
    {
      if pos + n <= |data| {
        b := Some(data[pos..pos + n]);
        pos := pos + n;
      } else {
        b := None;
      }
    }
  }

  function DecodeWords(b: seq<Byte>): (ws: seq<Word>)
    requires |b| % 4 == 0
    ensures |ws| == |b| / 4
  {
    if b == [] then [] else DecodeWords(b[..|b| - 4]) + [LoadWord(b[|b| - 4..], 0)]
  }

  lemma DecodeWordsStep(b: seq<Byte>)
    requires |b| % 4 == 0
    ensures b == [] ==> EncodeWords(DecodeWords(b)) == []
    ensures b != [] ==> DecodeWords(b) == DecodeWords(b[..|b| - 4]) + [LoadWord(b[|b| - 4..], 0)]
  {
    hide LoadWord;
  }

  lemma WordsSnoc(ws: seq<Word>, w: Word)
    ensures EncodeWords(ws + [w]) == EncodeWords(ws) + LittleEndian(w)
  {
    hide LittleEndian;
    assert (ws + [w])[..|ws|] == ws;
  }

  lemma {:induction false} WordsRoundTrip(b: seq<Byte>)
    requires |b| % 4 == 0
    ensures EncodeWords(DecodeWords(b)) == b
  {
    hide DecodeWords, EncodeWords, LoadWord, LittleEndian;
    DecodeWordsStep(b);
    if b != [] {
      var c, w := b[..|b| - 4], b[|b| - 4..];
      WordsRoundTrip(c);
      ByteRoundTrip(w);
      WordsSnoc(DecodeWords(c), LoadWord(w, 0));
      assert b == c + w;
    }
  }

  function DecodeSeeds(b: seq<Byte>): (ke: seq<D32>)
    requires |b| % 32 == 0
    ensures |ke| == |b| / 32
  {
    if b == [] then [] else DecodeSeeds(b[..|b| - 32]) + [b[|b| - 32..]]
  }

  lemma DecodeSeedsStep(b: seq<Byte>)
    requires |b| % 32 == 0
    ensures b == [] ==> EncodeSeeds(DecodeSeeds(b)) == []
    ensures b != [] ==> DecodeSeeds(b) == DecodeSeeds(b[..|b| - 32]) + [b[|b| - 32..]]
  {
  }

  lemma SeedsSnoc(ke: seq<D32>, k: D32)
    ensures EncodeSeeds(ke + [k]) == EncodeSeeds(ke) + k
  {
    assert (ke + [k])[..|ke|] == ke;
  }

  lemma {:induction false} SeedsRoundTrip(b: seq<Byte>)
    requires |b| % 32 == 0
    ensures EncodeSeeds(DecodeSeeds(b)) == b
  {
    hide DecodeSeeds, EncodeSeeds;
    DecodeSeedsStep(b);
    if b != [] {
      var c, w := b[..|b| - 32], b[|b| - 32..];
      SeedsRoundTrip(c);
      SeedsSnoc(DecodeSeeds(c), w);
      assert b == c + w;
    }
  }

  function DecodeRows(b: seq<Byte>): (rows: seq<seq<Word>>)
    requires |b| % 32 == 0
    ensures |rows| == |b| / 32 && forall i :: 0 <= i < |rows| ==> |rows[i]| == 8
  {
    if b == [] then [] else DecodeRows(b[..|b| - 32]) + [DecodeWords(b[|b| - 32..])]
  }

  lemma {:induction false} RowsRoundTrip(b: seq<Byte>)
    requires |b| % 32 == 0
    ensures EncodeRows(DecodeRows(b)) == b
  {
    hide DecodeWords, EncodeWords, DecodeRows, EncodeRows;
    DecodeRowsStep(b);
    if b != [] {
      var c, w := b[..|b| - 32], b[|b| - 32..];
      RowsRoundTrip(c);
      WordsRoundTrip(w);
      RowsSnoc(DecodeRows(c), DecodeWords(w));
      assert b == c + w;
    }
  }

  lemma DecodeRowsStep(b: seq<Byte>)
    requires |b| % 32 == 0
    ensures b == [] ==> EncodeRows(DecodeRows(b)) == []
    ensures b != [] ==> DecodeRows(b) == DecodeRows(b[..|b| - 32]) + [DecodeWords(b[|b| - 32..])]
  {
    hide DecodeWords;
  }

  lemma RowsSnoc(rows: seq<seq<Word>>, row: seq<Word>)
    ensures EncodeRows(rows + [row]) == EncodeRows(rows) + EncodeWords(row)
  {
    hide EncodeWords;
    assert (rows + [row])[..|rows|] == rows;
  }

  // ---- the fields ----------------------------------------------------------

  lemma Joined(s: seq<Byte>, i: nat, j: nat, k: nat)
    requires i <= j <= k <= |s|
    ensures s[i..j] + s[j..k] == s[i..k]
  {
  }

  datatype FirstPart = FirstPart(nonce: D32, hStar: D32, ctr: Word)

  method ReadPreamble(r: Reader, p: Params) returns (o: Option<FirstPart>)
    requires r.pos == 0
    modifies r
    ensures r.Valid()
    ensures o.Some? ==> r.pos == 92 && r.data[..92] == Preamble(p, o.value.nonce, o.value.hStar, o.value.ctr)
    ensures o.None? ==> |r.data| < 92 || forall a: D32, b: D32, c: Word :: r.data[..92] != Preamble(p, a, b, c)
  {
    hide Header, LittleEndian;
    o := None;
    var h := r.Take(24);
    if h.None? { return; }
    var header := h.value;
    if header != Header(p) {
      forall a: D32, b: D32, c: Word | |r.data| >= 92
        ensures r.data[..92] != Preamble(p, a, b, c)
      {
        assert Preamble(p, a, b, c)[..24] == Header(p);
        assert r.data[..92][..24] == header;
      }
      return;
    }
    var nonce := r.Take(32);
    if nonce.None? { return; }
    var hStar := r.Take(32);
    if hStar.None? { return; }
    var ctr := r.Take(4);
    if ctr.None? { return; }
    ByteRoundTrip(ctr.value);
    Joined(r.data, 0, 24, 56);
    Joined(r.data, 0, 56, 88);
    Joined(r.data, 0, 88, 92);
    o := Some(FirstPart(nonce.value, hStar.value, LoadWord(ctr.value, 0)));
  }

  lemma {:induction false} ClosedLengthGrows(inC: seq<bool>, i: nat, j: nat)
    requires i <= j <= |inC|
    ensures ClosedLength(inC, i) <= ClosedLength(inC, j)
  {
    if i < j { ClosedLengthGrows(inC, i, j - 1); }
  }

  lemma {:induction false} EncodeClosedLocal(a: seq<Closed>, b: seq<Closed>, inC: seq<bool>, j: nat, inC': seq<bool>)
    requires |a| == |inC| && |b| == |inC'| && j <= |inC| && j <= |inC'| && a[..j] == b[..j] && inC[..j] == inC'[..j]
    ensures EncodeClosed(a, inC, j) == EncodeClosed(b, inC', j)
  {
    if j > 0 {
      PrefixAgrees(a, b, j);
      PrefixAgrees(inC, inC', j);
      EncodeClosedLocal(a, b, inC, j - 1, inC');
    }
  }

  predicate BlankWhere(closed: seq<Closed>, inC: seq<bool>)
    requires |closed| <= |inC|
  {
    forall j :: 0 <= j < |closed| && inC[j] ==> closed[j] == BLANK
  }

  /** The published halves of the closed instances, in instance order. */
  method ReadClosed(r: Reader, inC: seq<bool>) returns (o: Option<seq<Closed>>)
    requires r.Valid()
    modifies r
    ensures r.Valid()
    ensures var end := old(r.pos) + ClosedLength(inC, |inC|);
            && (o.Some? <==> end <= |r.data|)
            && (o.Some? ==> r.pos == end && |o.value| == |inC| && BlankWhere(o.value, inC)
                            && r.data[old(r.pos)..end] == EncodeClosed(o.value, inC, |inC|))
  {
    ghost var from := r.pos;
    var closed: seq<Closed> := [];
    for j := 0 to |inC|
      invariant r.Valid() && |closed| == j && BlankWhere(closed, inC)
      invariant r.pos == from + ClosedLength(inC, j)
      invariant r.data[from..r.pos] == EncodeClosed(closed, inC[..j], j)
    {
      ghost var was, seen := r.pos, closed;
      if inC[j] {
        closed := closed + [BLANK];
      } else {
        ClosedLengthGrows(inC, j + 1, |inC|);
        var star := r.Take(32);
        if star.None? { o := None; return; }
        var h := r.Take(32);
        if h.None? { o := None; return; }
        closed := closed + [Closed(star.value, h.value)];
        Joined(r.data, was, was + 32, was + 64);
        Joined(r.data, from, was, was + 64);
      }
      EncodeClosedLocal(seen, closed[..j], inC[..j], j, inC[..j]);
      EncodeClosedLocal(closed[..j], closed, inC[..j], j, inC[..j + 1]);
    }
    assert inC[..|inC|] == inC;
    o := Some(closed);
  }

  /** The raw fields of an opened instance. */
  datatype Fields = Fields(com: seq<Byte>, yp: seq<Byte>, ke: seq<Byte>, x: seq<Byte>, aux: seq<Byte>, msgs: seq<Byte>, r: seq<Byte>)
  {
    predicate Sized(p: Params, e: nat)
      requires p.Ok()
    {
      && |com| == 32 && |yp| == 32 * p.n && |ke| == 32 * (p.n - 1) && |x| == p.inputLen
      && |aux| == (if e != 0 then 4 * p.ySize else 0) && |msgs| == 4 * p.ySize && |r| == 32
    }

    function Bytes(): seq<Byte> { com + yp + ke + x + aux + msgs + r }
  }

  method TakeThen(r: Reader, ghost from: nat, n: nat) returns (b: Option<seq<Byte>>)
    requires r.Valid() && from <= r.pos
    modifies r
    ensures r.Valid() && (b.Some? <==> old(r.pos) + n <= |r.data|)
    ensures b.Some? ==> r.pos == old(r.pos) + n && |b.value| == n && r.data[from..r.pos] == r.data[from..old(r.pos)] + b.value
  {
    ghost var was := r.pos;
    b := r.Take(n);
    if b.Some? { Joined(r.data, from, was, r.pos); }
  }

  method TakeFront(r: Reader, n: nat, len: nat) returns (ok: bool, com: seq<Byte>, yp: seq<Byte>, ke: seq<Byte>, x: seq<Byte>)
    requires r.Valid() && n > 0
    modifies r
    ensures r.Valid()
    ensures var end := old(r.pos) + 32 + 32 * n + 32 * (n - 1) + len;
            && (ok <==> end <= |r.data|)
            && (ok ==> r.pos == end && |com| == 32 && |yp| == 32 * n && |ke| == 32 * (n - 1) && |x| == len
                       && r.data[old(r.pos)..end] == com + yp + ke + x)
  {
    ghost var from := r.pos;
    ok, com, yp, ke, x := false, [], [], [], [];
    var a := TakeThen(r, from, 32);
    if a.None? { return; }
    var b := TakeThen(r, from, 32 * n);
    if b.None? { return; }
    var c := TakeThen(r, from, 32 * (n - 1));
    if c.None? { return; }
    var d := TakeThen(r, from, len);
    if d.None? { return; }
    ok, com, yp, ke, x := true, a.value, b.value, c.value, d.value;
  }

  method TakeBack(r: Reader, auxLen: nat, msgsLen: nat) returns (ok: bool, aux: seq<Byte>, msgs: seq<Byte>, salt: seq<Byte>)
    requires r.Valid()
    modifies r
    ensures r.Valid()
    ensures var end := old(r.pos) + auxLen + msgsLen + 32;
            && (ok <==> end <= |r.data|)
            && (ok ==> r.pos == end && |aux| == auxLen && |msgs| == msgsLen && |salt| == 32
                       && r.data[old(r.pos)..end] == aux + msgs + salt)
  {
    ghost var from := r.pos;
    ok, aux, msgs, salt := false, [], [], [];
    var a := TakeThen(r, from, auxLen);
    if a.None? { return; }
    var b := TakeThen(r, from, msgsLen);
    if b.None? { return; }
    var c := TakeThen(r, from, 32);
    if c.None? { return; }
    ok, aux, msgs, salt := true, a.value, b.value, c.value;
  }

  method TakeFields(r: Reader, p: Params, e: nat) returns (o: Option<Fields>)
    requires r.Valid() && p.Ok()
    modifies r
    ensures r.Valid()
    ensures var end := old(r.pos) + OpenedLength(p, e);
            && (o.Some? <==> end <= |r.data|)
            && (o.Some? ==> r.pos == end && o.value.Sized(p, e) && r.data[old(r.pos)..end] == o.value.Bytes())
  {
    o := None;
    ghost var from := r.pos;
    var ok, com, yp, ke, x := TakeFront(r, p.n, p.inputLen);
    if !ok { return; }
    ghost var mid := r.pos;
    var ok', aux, msgs, salt := TakeBack(r, if e != 0 then 4 * p.ySize else 0, 4 * p.ySize);
    if !ok' { return; }
    Joined(r.data, from, mid, r.pos);
    Reassociate(com + yp + ke + x, aux, msgs, salt);
    o := Some(Fields(com, yp, ke, x, aux, msgs, salt));
  }

  lemma Reassociate(a: seq<Byte>, b: seq<Byte>, c: seq<Byte>, d: seq<Byte>)
    ensures a + (b + c + d) == a + b + c + d
  {
  }

  /** One opened instance; its corrections are read unless party 0 is hidden, else taken as zero. */
  method ReadOpened(r: Reader, p: Params, e: nat) returns (o: Option<Opened>)
    requires r.Valid() && p.Ok()
    modifies r
    ensures r.Valid()
    ensures var end := old(r.pos) + OpenedLength(p, e);
            && (o.Some? <==> end <= |r.data|)
            && (o.Some? ==> r.pos == end && OpenedShape(p, o.value, e) && r.data[old(r.pos)..end] == EncodeOpened(o.value, e))
  {
    hide OpenedLength, EncodeOpened, OpenedShape, Fields.Sized, Fields.Bytes;
    var raw := TakeFields(r, p, e);
    if raw.None? { o := None; return; }
    o := Some(Decoded(p, e, raw.value));
    DecodedEncodes(p, e, raw.value);
  }

  function Decoded(p: Params, e: nat, f: Fields): Opened
    requires p.Ok() && f.Sized(p, e)
  {
    Opened(f.com, DecodeRows(f.yp), DecodeSeeds(f.ke), f.x, if e != 0 then DecodeWords(f.aux) else ZeroWords(p.ySize), DecodeWords(f.msgs), f.r)
  }

  lemma DecodedEncodes(p: Params, e: nat, f: Fields)
    requires p.Ok() && f.Sized(p, e)
    ensures OpenedShape(p, Decoded(p, e, f), e) && EncodeOpened(Decoded(p, e, f), e) == f.Bytes()
  {
    hide DecodeWords, DecodeSeeds, DecodeRows, EncodeWords, EncodeSeeds, EncodeRows;
    RowsRoundTrip(f.yp);
    SeedsRoundTrip(f.ke);
    WordsRoundTrip(f.aux);
    WordsRoundTrip(f.msgs);
  }

  lemma {:induction false} OpeningsLengthGrows(p: Params, ps: seq<nat>, i: nat, j: nat)
    requires p.Ok() && i <= j <= |ps|
    ensures OpeningsLength(p, ps, i) <= OpeningsLength(p, ps, j)
  {
    if i < j { OpeningsLengthGrows(p, ps, i, j - 1); }
  }

  lemma PrefixAgrees<T>(a: seq<T>, b: seq<T>, k: nat)
    requires 0 < k <= |a| && k <= |b| && a[..k] == b[..k]
    ensures a[k - 1] == b[k - 1] && a[..k - 1] == b[..k - 1]
  {
    assert a[k - 1] == a[..k][k - 1] && b[k - 1] == b[..k][k - 1];
    assert a[..k - 1] == a[..k][..k - 1] && b[..k - 1] == b[..k][..k - 1];
  }

  lemma {:induction false} EncodeOpeningsLocal(a: seq<Opened>, b: seq<Opened>, ps: seq<nat>, k: nat, ps': seq<nat>)
    requires |a| == |ps| && |b| == |ps'| && k <= |ps| && k <= |ps'| && a[..k] == b[..k] && ps[..k] == ps'[..k]
    ensures EncodeOpenings(a, ps, k) == EncodeOpenings(b, ps', k)
  {
    hide EncodeOpened;
    if k > 0 {
      PrefixAgrees(a, b, k);
      PrefixAgrees(ps, ps', k);
      EncodeOpeningsLocal(a, b, ps, k - 1, ps');
    }
  }

  predicate Shapes(p: Params, os: seq<Opened>, ps: seq<nat>)
    requires |os| <= |ps|
  {
    forall k :: 0 <= k < |os| ==> OpenedShape(p, os[k], ps[k])
  }

  method ReadOpenings(r: Reader, p: Params, ps: seq<nat>) returns (o: Option<seq<Opened>>)
    requires r.Valid() && p.Ok()
    modifies r
    ensures r.Valid()
    ensures var end := old(r.pos) + OpeningsLength(p, ps, |ps|);
            && (o.Some? <==> end <= |r.data|)
            && (o.Some? ==> r.pos == end && |o.value| == |ps| && Shapes(p, o.value, ps)
                            && r.data[old(r.pos)..end] == EncodeOpenings(o.value, ps, |ps|))
  {
    hide EncodeOpened, OpenedLength, OpenedShape;
    ghost var from := r.pos;
    var os: seq<Opened> := [];
    for k := 0 to |ps|
      invariant r.Valid() && |os| == k && Shapes(p, os, ps)
      invariant r.pos == from + OpeningsLength(p, ps, k)
      invariant r.data[from..r.pos] == EncodeOpenings(os, ps[..k], k)
    {
      ghost var was, seen := r.pos, os;
      OpeningsLengthGrows(p, ps, k + 1, |ps|);
      var one := ReadOpened(r, p, ps[k]);
      if one.None? { o := None; return; }
      os := os + [one.value];
      Joined(r.data, from, was, r.pos);
      EncodeOpeningsLocal(seen, os[..k], ps[..k], k, ps[..k]);
      EncodeOpeningsLocal(os[..k], os, ps[..k], k, ps[..k + 1]);
    }
    assert ps[..|ps|] == ps;
    o := Some(os);
  }
}
