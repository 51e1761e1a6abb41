/** The keyed single-chunk BLAKE3 hash of a framed message, natively and as a gadget. */
module Blake3 {
  import opened Words
  import opened Sharing
  import opened Engine
  import opened Builder

  type Perm = p: seq<nat> | |p| == 16 && forall i :: 0 <= i < 16 ==> p[i] < 16 witness [0, 0, 0, 0, 0, 0, 0, 0, 0, 0, 0, 0, 0, 0, 0, 0]

  const ROUNDS: nat := 7
  const QUADS: nat := 8
  const IDENTITY: Perm := [0, 1, 2, 3, 4, 5, 6, 7, 8, 9, 10, 11, 12, 13, 14, 15]
  const PERMUTATION: Perm := [2, 6, 3, 10, 7, 0, 4, 13, 1, 11, 12, 5, 9, 14, 15, 8]

  function IV(i: nat): Word
  {
    Word32(if i == 0 then 0x6A09E667 else if i == 1 then 0xBB67AE85 else if i == 2 then 0x3C6EF372 else if i == 3 then 0xA54FF53A
           else if i == 4 then 0x510E527F else if i == 5 then 0x9B05688C else if i == 6 then 0x1F83D9AB else 0x5BE0CD19)
  }

  /** The derive-key context key of the tweakable hash. */
  function ContextKey(i: nat): Word
  {
    Word32(if i == 0 then 0x92BC442A else if i == 1 then 0x717EB9D9 else if i == 2 then 0xE6E35884
           else if i == 3 then 0x65D1A3F5 else if i == 4 then 0xBE746F4F else if i == 5 then 0x3B5F70D6
           else if i == 6 then 0xAF7DE478 else 0xECB68DB9)
  }

  function Key(n: nat): (r: seq<Word>)
    ensures |r| == n
  {
    seq(n, (i: nat) => ContextKey(i))
  }

  type Quad = q: (nat, nat, nat, nat) |
    q.0 < 16 && q.1 < 16 && q.2 < 16 && q.3 < 16 &&
    q.0 != q.1 && q.0 != q.2 && q.0 != q.3 && q.1 != q.2 && q.1 != q.3 && q.2 != q.3
    witness (0, 1, 2, 3)

  /** Half of the quarter round on state words a, b, c, d: one message word, two rotations. */
  function Half(v: seq<Word>, q: Quad, x: Word, r1: BitIndex, r2: BitIndex): (r: seq<Word>)
    requires |v| == 16
    ensures |r| == 16
  {
    var (a, b, c, d) := q;
    var a1 := Words.Add(Words.Add(v[a], v[b]), x);
    var d1 := Rotr(Words.Xor(v[d], a1), r1);
    var c1 := Words.Add(v[c], d1);
    var b1 := Rotr(Words.Xor(v[b], c1), r2);
    v[a := a1][b := b1][c := c1][d := d1]
  }

  function G(v: seq<Word>, q: Quad, x: Word, y: Word): (r: seq<Word>)
    requires |v| == 16
    ensures |r| == 16
  {
    Half(Half(v, q, x, 16, 12), q, y, 8, 7)
  }

  /** The eight quarter rounds of a round: four columns, then four diagonals. */
  function QuadAt(i: nat): Quad
    requires i < 8
  {
    if i == 0 then (0, 4, 8, 12) else if i == 1 then (1, 5, 9, 13)
    else if i == 2 then (2, 6, 10, 14) else if i == 3 then (3, 7, 11, 15)
    else if i == 4 then (0, 5, 10, 15) else if i == 5 then (1, 6, 11, 12)
    else if i == 6 then (2, 7, 8, 13) else (3, 4, 9, 14)
  }

  function Round(v: seq<Word>, m: seq<Word>, s: Perm, k: nat): (r: seq<Word>)
    requires |v| == 16 && |m| == 16 && k <= 8
    ensures |r| == 16
    decreases |m|, k
  {
    if k == 0 then v
    else G(Round(v, m, s, k - 1), QuadAt(k - 1), m[s[2 * k - 2]], m[s[2 * k - 1]])
  }

  function NextPerm(s: Perm): Perm
  {
    seq(16, i requires 0 <= i < 16 => s[PERMUTATION[i]])
  }

  function PermAt(r: nat): Perm
  {
    if r == 0 then IDENTITY else NextPerm(PermAt(r - 1))
  }

  function Rounds(v: seq<Word>, m: seq<Word>, r: nat): (u: seq<Word>)
    requires |v| == 16 && |m| == 16
    ensures |u| == 16
    decreases |m|, r
  {
    if r == 0 then v else Round(Rounds(v, m, r - 1), m, PermAt(r - 1), QUADS)
  }

  function InitialState(cv: seq<Word>, blockLen: Word, flags: Word): (v: seq<Word>)
    requires |cv| == 8
    ensures |v| == 16
  {
    seq(16, i requires 0 <= i < 16 =>
      if i < 8 then cv[i] else if i < 12 then IV(i - 8) else if i < 14 then ZERO else if i == 14 then blockLen else flags)
  }

  function Finish(v: seq<Word>): (r: seq<Word>)
    requires |v| == 16
    ensures |r| == 8
  {
    seq(8, i requires 0 <= i < 8 => Words.Xor(v[i], v[i + 8]))
  }

  /** The compression function at counter 0. */
  function Compress(cv: seq<Word>, m: seq<Word>, blockLen: Word, flags: Word): (r: seq<Word>)
    requires |cv| == 8 && |m| == 16
    ensures |r| == 8
  {
    Finish(Rounds(InitialState(cv, blockLen, flags), m, ROUNDS))
  }

  // ---- the compression gadget ----------------------------------------------

  function XorRotateNet(n: Net, x: nat, y: nat, r: BitIndex): Wired
  {
    var t := n.Xor(x, y);
    t.net.Map(RotateRight(r), t.id)
  }

  lemma XorRotateIs(n: Net, x: nat, y: nat, r: BitIndex, env: seq<Word>, a: Word, b: Word)
    requires Ready(n, env) && Is(On(n, env), x, a) && Is(On(n, env), y, b)
    ensures MakesWord(n, XorRotateNet(n, x, y, r), env, 0, Rotr(Words.Xor(a, b), r))
  {
    hide PlainRun, Legal, Cost, On, Ready, Rotr, Words.Xor;
    var t := n.Xor(x, y);
    XorIs(n, x, y, env, a, b);
    MapIs(t.net, RotateRight(r), t.id, env, Words.Xor(a, b));
  }

  function HalfNet(n: Net, v: seq<nat>, q: Quad, x: nat, r1: BitIndex, r2: BitIndex): (o: Bundle)
    requires |v| == 16
    ensures |o.ids| == 16
  {
    var (a, b, c, d) := q;
    var t := n.Add(v[a], v[b]);
    var a1 := t.net.Add(t.id, x);
    var d1 := XorRotateNet(a1.net, v[d], a1.id, r1);
    var c1 := d1.net.Add(v[c], d1.id);
    var b1 := XorRotateNet(c1.net, v[b], c1.id, r2);
    Bundle(b1.net, v[a := a1.id][b := b1.id][c := c1.id][d := d1.id])
  }

  lemma HalfIs(n: Net, v: seq<nat>, q: Quad, x: nat, r1: BitIndex, r2: BitIndex, env: seq<Word>, vw: seq<Word>, xw: Word)
    requires Ready(n, env) && |v| == 16 && AreWords(On(n, env), v, vw) && Is(On(n, env), x, xw)
    ensures MakesWords(n, HalfNet(n, v, q, x, r1, r2), env, 3, Half(vw, q, xw, r1, r2))
  {
    hide PlainRun, Legal, Cost, On, Ready, Rotr, Words.Add, Words.Xor, XorRotateNet;
    var (a, b, c, d) := q;
    var t := n.Add(v[a], v[b]);
    AddIs(n, v[a], v[b], env, vw[a], vw[b]);
    var a1, aw := t.net.Add(t.id, x), Words.Add(Words.Add(vw[a], vw[b]), xw);
    AddIs(t.net, t.id, x, env, Words.Add(vw[a], vw[b]), xw);
    var d1, dw := XorRotateNet(a1.net, v[d], a1.id, r1), Rotr(Words.Xor(vw[d], aw), r1);
    XorRotateIs(a1.net, v[d], a1.id, r1, env, vw[d], aw);
    var c1, cw := d1.net.Add(v[c], d1.id), Words.Add(vw[c], dw);
    AddIs(d1.net, v[c], d1.id, env, vw[c], dw);
    XorRotateIs(c1.net, v[b], c1.id, r2, env, vw[b], cw);
  }

  /** 6 additions per quarter round. */
  function GNet(n: Net, v: seq<nat>, q: Quad, x: nat, y: nat): (o: Bundle)
    requires |v| == 16
    ensures |o.ids| == 16
  {
    var h := HalfNet(n, v, q, x, 16, 12);
    HalfNet(h.net, h.ids, q, y, 8, 7)
  }

  lemma GIs(n: Net, v: seq<nat>, q: Quad, x: nat, y: nat, env: seq<Word>, vw: seq<Word>, xw: Word, yw: Word)
    requires Ready(n, env) && |v| == 16 && AreWords(On(n, env), v, vw) && Is(On(n, env), x, xw) && Is(On(n, env), y, yw)
    ensures MakesWords(n, GNet(n, v, q, x, y), env, 6, G(vw, q, xw, yw))
  {
    hide PlainRun, Legal, Cost, On, Ready, HalfNet, Half;
    var h := HalfNet(n, v, q, x, 16, 12);
    HalfIs(n, v, q, x, 16, 12, env, vw, xw);
    HalfIs(h.net, h.ids, q, y, 8, 7, env, Half(vw, q, xw, 16, 12), yw);
  }

  function RoundNet(n: Net, v: seq<nat>, m: seq<nat>, s: Perm, k: nat): (o: Bundle)
    requires |v| == 16 && |m| == 16 && k <= 8
    ensures |o.ids| == 16
    decreases |m|, k
  {
    if k == 0 then Bundle(n, v)
    else
      var o := RoundNet(n, v, m, s, k - 1);
      GNet(o.net, o.ids, QuadAt(k - 1), m[s[2 * k - 2]], m[s[2 * k - 1]])
  }

  lemma {:induction false} RoundIs(n: Net, v: seq<nat>, m: seq<nat>, s: Perm, k: nat, env: seq<Word>, vw: seq<Word>, mw: seq<Word>)
    requires Ready(n, env) && |v| == |m| == 16 && AreWords(On(n, env), v, vw) && AreWords(On(n, env), m, mw) && k <= 8
    ensures MakesWords(n, RoundNet(n, v, m, s, k), env, 6 * k, Round(vw, mw, s, k))
  {
    hide PlainRun, Legal, Cost, On, Ready, GNet, G;
    if k > 0 {
      RoundIs(n, v, m, s, k - 1, env, vw, mw);
      var o := RoundNet(n, v, m, s, k - 1);
      GIs(o.net, o.ids, QuadAt(k - 1), m[s[2 * k - 2]], m[s[2 * k - 1]], env, Round(vw, mw, s, k - 1), mw[s[2 * k - 2]], mw[s[2 * k - 1]]);
    }
  }

  method EmitRound(n: Net, v: seq<nat>, m: seq<nat>, s: Perm) returns (o: Bundle)
    requires |v| == 16 && |m| == 16
    ensures o == RoundNet(n, v, m, s, QUADS)
  {
    hide GNet;
    o := Bundle(n, v);
    for k := 0 to QUADS
      invariant o == RoundNet(n, v, m, s, k)
    {
      o := GNet(o.net, o.ids, QuadAt(k), m[s[2 * k]], m[s[2 * k + 1]]);
    }
  }

  function RoundsNet(n: Net, v: seq<nat>, m: seq<nat>, r: nat): (o: Bundle)
    requires |v| == 16 && |m| == 16
    ensures |o.ids| == 16
    decreases |m|, r
  {
    if r == 0 then Bundle(n, v)
    else
      var o := RoundsNet(n, v, m, r - 1);
      RoundNet(o.net, o.ids, m, PermAt(r - 1), QUADS)
  }

  lemma {:induction false} RoundsIs(n: Net, v: seq<nat>, m: seq<nat>, r: nat, env: seq<Word>, vw: seq<Word>, mw: seq<Word>)
    requires Ready(n, env) && |v| == |m| == 16 && AreWords(On(n, env), v, vw) && AreWords(On(n, env), m, mw)
    ensures MakesWords(n, RoundsNet(n, v, m, r), env, 48 * r, Rounds(vw, mw, r))
  {
    hide PlainRun, Legal, Cost, On, Ready, RoundNet, Round, PermAt;
    if r > 0 {
      RoundsIs(n, v, m, r - 1, env, vw, mw);
      var o := RoundsNet(n, v, m, r - 1);
      RoundIs(o.net, o.ids, m, PermAt(r - 1), QUADS, env, Rounds(vw, mw, r - 1), mw);
    }
  }

  /** State word 8 + j before the first round. */
  function Loaded(j: nat, blockLen: Word, flags: Word): Word
  {
    if j < 4 then IV(j) else if j < 6 then ZERO else if j == 6 then blockLen else flags
  }

  function StateNet(n: Net, cv: seq<nat>, blockLen: Word, flags: Word, k: nat): (o: Bundle)
    requires |cv| == 8
    ensures |o.ids| == 8 + k
    decreases |cv|, k
  {
    if k == 0 then Bundle(n, cv)
    else
      var o := StateNet(n, cv, blockLen, flags, k - 1);
      var z := o.net.Const(Loaded(k - 1, blockLen, flags));
      Bundle(z.net, o.ids + [z.id])
  }

  lemma {:induction false} StateIs(n: Net, cv: seq<nat>, blockLen: Word, flags: Word, k: nat, env: seq<Word>, cw: seq<Word>)
    requires Ready(n, env) && |cv| == 8 && AreWords(On(n, env), cv, cw) && k <= 8
    ensures MakesWords(n, StateNet(n, cv, blockLen, flags, k), env, 0, InitialState(cw, blockLen, flags)[..8 + k])
  {
    hide PlainRun, Legal, Cost, On, Ready, IV;
    if k > 0 {
      StateIs(n, cv, blockLen, flags, k - 1, env, cw);
      var o := StateNet(n, cv, blockLen, flags, k - 1);
      ConstIs(o.net, Loaded(k - 1, blockLen, flags), env);
    }
  }

  method EmitState(n: Net, cv: seq<nat>, blockLen: Word, flags: Word) returns (o: Bundle)
    requires |cv| == 8
    ensures o == StateNet(n, cv, blockLen, flags, 8)
  {
    hide Loaded;
    o := Bundle(n, cv);
    for k := 0 to 8
      invariant o == StateNet(n, cv, blockLen, flags, k)
    {
      var z := o.net.Const(Loaded(k, blockLen, flags));
      o := Bundle(z.net, o.ids + [z.id]);
    }
  }

  function FinishNet(n: Net, v: seq<nat>, k: nat): (o: Bundle)
    requires |v| == 16 && k <= 8
    ensures |o.ids| == k
    decreases |v|, k
  {
    if k == 0 then Bundle(n, [])
    else
      var o := FinishNet(n, v, k - 1);
      var z := o.net.Xor(v[k - 1], v[k + 7]);
      Bundle(z.net, o.ids + [z.id])
  }

  lemma {:induction false} FinishIs(n: Net, v: seq<nat>, k: nat, env: seq<Word>, vw: seq<Word>)
    requires Ready(n, env) && |v| == 16 && AreWords(On(n, env), v, vw) && k <= 8
    ensures MakesWords(n, FinishNet(n, v, k), env, 0, Finish(vw)[..k])
  {
    hide PlainRun, Legal, Cost, On, Ready, Words.Xor;
    if k > 0 {
      FinishIs(n, v, k - 1, env, vw);
      var o := FinishNet(n, v, k - 1);
      XorIs(o.net, v[k - 1], v[k + 7], env, vw[k - 1], vw[k + 7]);
    }
  }

  /** Seven rounds, the message schedule permuted between rounds. */
  function CompressNet(n: Net, cv: seq<nat>, m: seq<nat>, blockLen: Word, flags: Word): (o: Bundle)
    requires |cv| == 8 && |m| == 16
    ensures |o.ids| == 8
  {
    hide StateNet, RoundsNet, FinishNet;
    var st := StateNet(n, cv, blockLen, flags, 8);
    var w := RoundsNet(st.net, st.ids, m, ROUNDS);
    FinishNet(w.net, w.ids, 8)
  }

  /** The compression gadget has 336 non-linear gates and carries the native compression. */
  lemma CompressIs(n: Net, cv: seq<nat>, m: seq<nat>, blockLen: Word, flags: Word, env: seq<Word>, cw: seq<Word>, mw: seq<Word>)
    requires Ready(n, env) && |cv| == 8 && |m| == 16 && AreWords(On(n, env), cv, cw) && AreWords(On(n, env), m, mw)
    ensures MakesWords(n, CompressNet(n, cv, m, blockLen, flags), env, 336, Compress(cw, mw, blockLen, flags))
  {
    hide PlainRun, Legal, Cost, On, Ready, StateNet, RoundsNet, FinishNet, InitialState, Rounds, Finish;
    var st, v0 := StateNet(n, cv, blockLen, flags, 8), InitialState(cw, blockLen, flags);
    StateIs(n, cv, blockLen, flags, 8, env, cw);
    assert v0[..16] == v0;
    var w, v7 := RoundsNet(st.net, st.ids, m, ROUNDS), Rounds(v0, mw, ROUNDS);
    RoundsIs(st.net, st.ids, m, ROUNDS, env, v0, mw);
    FinishIs(w.net, w.ids, 8, env, v7);
    assert Finish(v7)[..8] == Finish(v7);
  }

  method EmitCompress(n: Net, cv: seq<nat>, m: seq<nat>, blockLen: Word, flags: Word) returns (o: Bundle)
    requires |cv| == 8 && |m| == 16
    ensures o == CompressNet(n, cv, m, blockLen, flags)
  {
    hide RoundNet;
    var st := EmitState(n, cv, blockLen, flags);
    var w := st;
    var s := IDENTITY;
    for r := 0 to ROUNDS
      invariant w == RoundsNet(st.net, st.ids, m, r) && s == PermAt(r)
    {
      w := EmitRound(w.net, w.ids, m, s);
      s := NextPerm(s);
    }
    o := Bundle(w.net, []);
    for i := 0 to 8
      invariant o == FinishNet(w.net, w.ids, i)
    {
      var z := o.net.Xor(w.ids[i], w.ids[i + 8]);
      o := Bundle(z.net, o.ids + [z.id]);
    }
  }

  // ---- framing -------------------------------------------------------------

  const FRAME_LEN: nat := 4
  const MAX_DOMAIN: nat := 28
  const CHUNK_LEN: nat := 1024
  const BLOCK_LEN: nat := 64
  const OUT_LEN: nat := 32

  predicate ValidSizes(domLen: nat, dataLen: nat, outLen: nat)
  {
    domLen <= MAX_DOMAIN && dataLen <= CHUNK_LEN - FRAME_LEN - domLen && outLen <= OUT_LEN
  }

  /** The little-endian bytes of a word. */
  function ByteOf(w: Word, k: nat): Byte
    requires k < 4
  {
    w[8 * k..8 * k + 8]
  }

  function LittleEndian(w: Word): (b: seq<Byte>)
    ensures |b| == 4
  {
    [ByteOf(w, 0), ByteOf(w, 1), ByteOf(w, 2), ByteOf(w, 3)]
  }

  /** The word stored little-endian at offset 4k. */
  function LoadWord(b: seq<Byte>, k: nat): Word
    requires 4 * k + 4 <= |b|
  {
    var lo: Bits := b[4 * k];
    lo + b[4 * k + 1] + b[4 * k + 2] + b[4 * k + 3]
  }

  function BigEndian(w: Word): (b: seq<Byte>)
    ensures |b| == 4
  {
    [ByteOf(w, 3), ByteOf(w, 2), ByteOf(w, 1), ByteOf(w, 0)]
  }

  lemma FourBytes(w: Word)
    ensures ToNat(w) == ToNat(ByteOf(w, 0)) + 0x100 * ToNat(ByteOf(w, 1)) + 0x1_0000 * ToNat(ByteOf(w, 2)) + 0x100_0000 * ToNat(ByteOf(w, 3))
  {
    hide ToNat, Pow2;
    var a: Bits, b: Bits, c: Bits, d: Bits := ByteOf(w, 0), ByteOf(w, 1), ByteOf(w, 2), ByteOf(w, 3);
    Pow8();
    assert w == a + (b + (c + d));
    ToNatAppend(a, b + (c + d));
    ToNatAppend(b, c + d);
    ToNatAppend(c, d);
  }

  /** LE32(|domain|), then the domain, then the data. */
  function Framed(dom: seq<Byte>, data: seq<Byte>): (f: seq<Byte>)
    ensures |f| == FRAME_LEN + |dom| + |data|
  {
    seq(FRAME_LEN, k requires 0 <= k < FRAME_LEN => ByteOf(Word32(|dom|), k)) + dom + data
  }

  /** Byte i of the message padded with zeros. */
  function Padded(f: seq<Byte>, i: nat): Byte
  {
    if i < |f| then f[i] else Zeros(8)
  }

  function WordAt(f: seq<Byte>, off: nat): Word
  {
    Padded(f, off) + Padded(f, off + 1) + Padded(f, off + 2) + Padded(f, off + 3)
  }

  function BlockWords(f: seq<Byte>, b: nat): (m: seq<Word>)
    ensures |m| == 16
  {
    seq(16, w requires 0 <= w < 16 => WordAt(f, b * BLOCK_LEN + 4 * w))
  }

  function BlockCount(len: nat): nat { (len + BLOCK_LEN - 1) / BLOCK_LEN }

  function BlockLength(len: nat, b: nat): nat
    requires b * BLOCK_LEN <= len
  {
    if len - b * BLOCK_LEN > BLOCK_LEN then BLOCK_LEN else len - b * BLOCK_LEN
  }

  /** DERIVE_KEY_MATERIAL, with CHUNK_START on the first and CHUNK_END | ROOT on the last block. */
  function Flags(b: nat, blocks: nat): nat
  {
    64 + (if b == 0 then 1 else 0) + (if b + 1 == blocks then 2 + 8 else 0)
  }

  function ChainingValue(f: seq<Byte>, b: nat): (cv: seq<Word>)
    requires b <= BlockCount(|f|)
    ensures |cv| == 8
    decreases |f|, b
  {
    if b == 0 then Key(8)
    else Compress(ChainingValue(f, b - 1), BlockWords(f, b - 1), Word32(BlockLength(|f|, b - 1)),
                  Word32(Flags(b - 1, BlockCount(|f|))))
  }

  function Bytes(cv: seq<Word>, n: nat): (r: seq<Byte>)
    requires n <= 4 * |cv|
    ensures |r| == n
  {
    seq(n, i requires 0 <= i < n => ByteOf(cv[i / 4], i % 4))
  }

  /** The tweakable hash of a message that fits one chunk. */
  function Th(dom: seq<Byte>, data: seq<Byte>, outLen: nat): (r: seq<Byte>)
    requires outLen <= OUT_LEN
    ensures |r| == outLen
  {
    var f := Framed(dom, data);
    Bytes(ChainingValue(f, BlockCount(|f|)), outLen)
  }

  // ---- the hash gadget -----------------------------------------------------

  /** The message word at offset off with its first b bytes in place. */
  function PartWord(f: seq<Byte>, off: nat, b: nat): Word
    decreases |f|, b
  {
    if b == 0 then ZERO else Words.Xor(PartWord(f, off, b - 1), Shl(Ext(Padded(f, off + b - 1)), 8 * (b - 1)))
  }

  lemma {:induction false} PartWordBits(f: seq<Byte>, off: nat, b: nat)
    requires b <= 4
    ensures forall k :: 0 <= k < 32 ==> PartWord(f, off, b)[k] == (k < 8 * b && WordAt(f, off)[k])
  {
    if b > 0 {
      PartWordBits(f, off, b - 1);
      PlaceByte(PartWord(f, off, b - 1), f, off, b - 1);
    }
  }

  lemma PlaceByte(acc: Word, f: seq<Byte>, off: nat, b: nat)
    requires b < 4 && forall k :: 0 <= k < 32 ==> acc[k] == (k < 8 * b && WordAt(f, off)[k])
    ensures forall k :: 0 <= k < 32 ==>
              Words.Xor(acc, Shl(Ext(Padded(f, off + b)), 8 * b))[k] == (k < 8 * b + 8 && WordAt(f, off)[k])
  {
    var x := Ext(Padded(f, off + b));
    forall k | 0 <= k < 32
      ensures Words.Xor(acc, Shl(x, 8 * b))[k] == (k < 8 * b + 8 && WordAt(f, off)[k])
    {
      if 8 * b <= k < 8 * b + 8 {
        assert WordAt(f, off)[k] == Padded(f, off + b)[k - 8 * b];
      }
    }
  }

  /** XORs in byte i of the frame, moved up to its place in the word: the length prefix is a public
      constant, the padding is zero. */
  function ByteNet(n: Net, acc: nat, dom: seq<nat>, data: seq<nat>, i: nat, place: nat): Wired
  {
    if i < FRAME_LEN then n.XorConst(acc, Shl(Ext(ByteOf(Word32(|dom|), i)), place))
    else if i < FRAME_LEN + |dom| then
      var t := n.Map(ShiftLeft(place), dom[i - FRAME_LEN]);
      t.net.Xor(acc, t.id)
    else if i - FRAME_LEN - |dom| < |data| then
      var t := n.Map(ShiftLeft(place), data[i - FRAME_LEN - |dom|]);
      t.net.Xor(acc, t.id)
    else Wired(n, acc)
  }

  lemma ByteIs(n: Net, acc: nat, dom: seq<nat>, data: seq<nat>, i: nat, place: nat, env: seq<Word>, domB: seq<Byte>, dataB: seq<Byte>, w: Word)
    requires Ready(n, env) && Carries(On(n, env), dom, domB) && Carries(On(n, env), data, dataB) && Is(On(n, env), acc, w)
    ensures MakesWord(n, ByteNet(n, acc, dom, data, i, place), env, 0, Words.Xor(w, Shl(Ext(Padded(Framed(domB, dataB), i)), place)))
  {
    hide PlainRun, Legal, Cost, On, Ready, Ext, Words.Xor, Shl;
    var b := Padded(Framed(domB, dataB), i);
    if i < FRAME_LEN {
      XorConstIs(n, acc, Shl(Ext(b), place), env, w);
    } else if i < FRAME_LEN + |dom| {
      MapIs(n, ShiftLeft(place), dom[i - FRAME_LEN], env, Ext(b));
      XorIs(n.Map(ShiftLeft(place), dom[i - FRAME_LEN]).net, acc, n.Map(ShiftLeft(place), dom[i - FRAME_LEN]).id, env, w, Shl(Ext(b), place));
    } else if i - FRAME_LEN - |dom| < |data| {
      var id := data[i - FRAME_LEN - |dom|];
      MapIs(n, ShiftLeft(place), id, env, Ext(b));
      XorIs(n.Map(ShiftLeft(place), id).net, acc, n.Map(ShiftLeft(place), id).id, env, w, Shl(Ext(b), place));
    } else {
      NoByte(w, place);
    }
  }

  lemma NoByte(w: Word, place: nat)
    ensures Words.Xor(w, Shl(Ext(Zeros(8)), place)) == w
  {
  }

  function WordNet(n: Net, dom: seq<nat>, data: seq<nat>, off: nat, b: nat): Wired
    decreases |dom|, b
  {
    if b == 0 then n.Const(ZERO)
    else
      var o := WordNet(n, dom, data, off, b - 1);
      ByteNet(o.net, o.id, dom, data, off + b - 1, 8 * (b - 1))
  }

  lemma {:induction false} WordTo(n: Net, dom: seq<nat>, data: seq<nat>, off: nat, b: nat, env: seq<Word>, domB: seq<Byte>, dataB: seq<Byte>)
    requires Ready(n, env) && Carries(On(n, env), dom, domB) && Carries(On(n, env), data, dataB)
    ensures MakesWord(n, WordNet(n, dom, data, off, b), env, 0, PartWord(Framed(domB, dataB), off, b))
  {
    hide PlainRun, Legal, Cost, On, Ready, Carries, ByteNet, Framed, Ext;
    if b == 0 {
      ConstIs(n, ZERO, env);
    } else {
      WordTo(n, dom, data, off, b - 1, env, domB, dataB);
      var o := WordNet(n, dom, data, off, b - 1);
      CarriesKept(On(n, env), On(o.net, env), dom, domB);
      CarriesKept(On(n, env), On(o.net, env), data, dataB);
      ByteIs(o.net, o.id, dom, data, off + b - 1, 8 * (b - 1), env, domB, dataB, PartWord(Framed(domB, dataB), off, b - 1));
    }
  }

  /** The message word gadget carries the framed word at that offset. */
  lemma WordIs(n: Net, dom: seq<nat>, data: seq<nat>, off: nat, env: seq<Word>, domB: seq<Byte>, dataB: seq<Byte>)
    requires Ready(n, env) && Carries(On(n, env), dom, domB) && Carries(On(n, env), data, dataB)
    ensures MakesWord(n, WordNet(n, dom, data, off, 4), env, 0, WordAt(Framed(domB, dataB), off))
  {
    hide PlainRun, Legal, Cost, On, Ready, Carries, WordNet, WordAt, PartWord, Framed;
    WordTo(n, dom, data, off, 4, env, domB, dataB);
    PartWordBits(Framed(domB, dataB), off, 4);
    assert PartWord(Framed(domB, dataB), off, 4) == WordAt(Framed(domB, dataB), off);
  }

  method EmitWord(n: Net, dom: seq<nat>, data: seq<nat>, off: nat) returns (o: Wired)
    ensures o == WordNet(n, dom, data, off, 4)
  {
    hide ByteNet;
    o := n.Const(ZERO);
    for b := 0 to 4
      invariant o == WordNet(n, dom, data, off, b)
    {
      o := ByteNet(o.net, o.id, dom, data, off + b, 8 * b);
    }
  }

  function BlockNet(n: Net, dom: seq<nat>, data: seq<nat>, b: nat, k: nat): (o: Bundle)
    ensures |o.ids| == k
    decreases |dom|, k
  {
    hide WordNet;
    if k == 0 then Bundle(n, [])
    else
      var o := BlockNet(n, dom, data, b, k - 1);
      var z := WordNet(o.net, dom, data, b * BLOCK_LEN + 4 * (k - 1), 4);
      Bundle(z.net, o.ids + [z.id])
  }

  lemma {:induction false} BlockIs(n: Net, dom: seq<nat>, data: seq<nat>, b: nat, k: nat, env: seq<Word>, domB: seq<Byte>, dataB: seq<Byte>)
    requires Ready(n, env) && Carries(On(n, env), dom, domB) && Carries(On(n, env), data, dataB) && k <= 16
    ensures MakesWords(n, BlockNet(n, dom, data, b, k), env, 0, BlockWords(Framed(domB, dataB), b)[..k])
  {
    hide PlainRun, Legal, Cost, On, Ready, Carries, WordNet, WordAt, Framed;
    if k > 0 {
      BlockIs(n, dom, data, b, k - 1, env, domB, dataB);
      var o := BlockNet(n, dom, data, b, k - 1);
      CarriesKept(On(n, env), On(o.net, env), dom, domB);
      CarriesKept(On(n, env), On(o.net, env), data, dataB);
      WordIs(o.net, dom, data, b * BLOCK_LEN + 4 * (k - 1), env, domB, dataB);
    }
  }

  method EmitBlock(n: Net, dom: seq<nat>, data: seq<nat>, b: nat) returns (o: Bundle)
    ensures o == BlockNet(n, dom, data, b, 16)
  {
    hide WordNet;
    o := Bundle(n, []);
    for k := 0 to 16
      invariant o == BlockNet(n, dom, data, b, k)
    {
      var z := EmitWord(o.net, dom, data, b * BLOCK_LEN + 4 * k);
      o := Bundle(z.net, o.ids + [z.id]);
    }
  }

  function KeyNet(n: Net, k: nat): (o: Bundle)
    ensures |o.ids| == k
    decreases n.inputs, k
  {
    if k == 0 then Bundle(n, [])
    else
      var o := KeyNet(n, k - 1);
      var z := o.net.Const(ContextKey(k - 1));
      Bundle(z.net, o.ids + [z.id])
  }

  lemma {:induction false} KeyIs(n: Net, k: nat, env: seq<Word>)
    requires Ready(n, env)
    ensures MakesWords(n, KeyNet(n, k), env, 0, Key(k))
  {
    hide PlainRun, Legal, Cost, On, Ready, ContextKey;
    if k > 0 {
      KeyIs(n, k - 1, env);
      ConstIs(KeyNet(n, k - 1).net, ContextKey(k - 1), env);
    }
  }

  method EmitKey(n: Net) returns (o: Bundle)
    ensures o == KeyNet(n, 8)
  {
    hide ContextKey;
    o := Bundle(n, []);
    for k := 0 to 8
      invariant o == KeyNet(n, k)
    {
      var z := o.net.Const(ContextKey(k));
      o := Bundle(z.net, o.ids + [z.id]);
    }
  }

  /** The chaining value after b blocks. */
  function ChainingNet(n: Net, dom: seq<nat>, data: seq<nat>, b: nat): (o: Bundle)
    requires b <= BlockCount(FRAME_LEN + |dom| + |data|)
    ensures |o.ids| == 8
    decreases |dom|, b
  {
    hide KeyNet, BlockNet, CompressNet;
    if b == 0 then KeyNet(n, 8)
    else
      var len := FRAME_LEN + |dom| + |data|;
      var o := ChainingNet(n, dom, data, b - 1);
      var m := BlockNet(o.net, dom, data, b - 1, 16);
      CompressNet(m.net, o.ids, m.ids, Word32(BlockLength(len, b - 1)), Word32(Flags(b - 1, BlockCount(len))))
  }

  lemma ChainingStep(n: Net, dom: seq<nat>, data: seq<nat>, b: nat, cv: seq<nat>, env: seq<Word>, domB: seq<Byte>, dataB: seq<Byte>, cw: seq<Word>,
                     blockLen: Word, flags: Word)
    requires Ready(n, env) && Carries(On(n, env), dom, domB) && Carries(On(n, env), data, dataB)
    requires |cv| == 8 && AreWords(On(n, env), cv, cw)
    ensures var m := BlockNet(n, dom, data, b, 16);
            var o := CompressNet(m.net, cv, m.ids, blockLen, flags);
            Grows(n, o.net, env, 336) && AreWords(On(o.net, env), o.ids, Compress(cw, BlockWords(Framed(domB, dataB), b), blockLen, flags))
  {
    hide PlainRun, Legal, Cost, On, Ready, Carries, AreWords, BlockNet, CompressNet, Framed, Compress, BlockWords;
    var m := BlockNet(n, dom, data, b, 16);
    BlockIs(n, dom, data, b, 16, env, domB, dataB);
    var mw := BlockWords(Framed(domB, dataB), b);
    assert mw[..16] == mw;
    WordsKept(On(n, env), On(m.net, env), cv, cw);
    CompressIs(m.net, cv, m.ids, blockLen, flags, env, cw, mw);
  }

  lemma {:induction false} ChainingIs(n: Net, dom: seq<nat>, data: seq<nat>, b: nat, env: seq<Word>, domB: seq<Byte>, dataB: seq<Byte>)
    requires Ready(n, env) && Carries(On(n, env), dom, domB) && Carries(On(n, env), data, dataB)
    requires b <= BlockCount(FRAME_LEN + |dom| + |data|)
    ensures |dom| == |domB| && |data| == |dataB|
    ensures MakesWords(n, ChainingNet(n, dom, data, b), env, 336 * b, ChainingValue(Framed(domB, dataB), b))
  {
    hide PlainRun, Legal, Cost, On, Ready, Ext, AreWords, KeyNet, Key, BlockNet, CompressNet, Framed, Compress, BlockWords, Word32, Flags;
    if b == 0 {
      KeyIs(n, 8, env);
    } else {
      ChainingIs(n, dom, data, b - 1, env, domB, dataB);
      var o, len := ChainingNet(n, dom, data, b - 1), FRAME_LEN + |dom| + |data|;
      ChainingStep(o.net, dom, data, b - 1, o.ids, env, domB, dataB, ChainingValue(Framed(domB, dataB), b - 1),
                   Word32(BlockLength(len, b - 1)), Word32(Flags(b - 1, BlockCount(len))));
    }
  }

  lemma ByteByShift(w: Word, k: nat)
    requires k < 4
    ensures Words.And(Ext(Ones(8)), Shr(w, 8 * k)) == Ext(ByteOf(w, k))
  {
  }

  /** The first k bytes of a row of words, one wire each. */
  function BytesNet(n: Net, cv: seq<nat>, k: nat): (o: Bundle)
    requires k <= 4 * |cv|
    ensures |o.ids| == k
    decreases |cv|, k
  {
    if k == 0 then Bundle(n, [])
    else
      var o := BytesNet(n, cv, k - 1);
      var t := o.net.Map(ShiftRight(8 * ((k - 1) % 4)), cv[(k - 1) / 4]);
      var z := t.net.Map(KeepBits(Ext(Ones(8))), t.id);
      Bundle(z.net, o.ids + [z.id])
  }

  lemma ByteNetIs(n: Net, id: nat, k: nat, env: seq<Word>, w: Word)
    requires Ready(n, env) && Is(On(n, env), id, w) && k < 4
    ensures var t := n.Map(ShiftRight(8 * k), id);
            var z := t.net.Map(KeepBits(Ext(Ones(8))), t.id);
            Grows(n, z.net, env, 0) && Is(On(z.net, env), z.id, Ext(ByteOf(w, k)))
  {
    hide PlainRun, Legal, Cost, On, Ready, Ext, ByteOf, Words.And, Shr;
    var t := n.Map(ShiftRight(8 * k), id);
    MapIs(n, ShiftRight(8 * k), id, env, w);
    MapIs(t.net, KeepBits(Ext(Ones(8))), t.id, env, Shr(w, 8 * k));
    ByteByShift(w, k);
  }

  lemma {:induction false} BytesIs(n: Net, cv: seq<nat>, k: nat, env: seq<Word>, cw: seq<Word>)
    requires Ready(n, env) && AreWords(On(n, env), cv, cw) && k <= 4 * |cv|
    ensures MakesBytes(n, BytesNet(n, cv, k), env, 0, Bytes(cw, k))
  {
    hide PlainRun, Legal, Cost, On, Ready, Ext, ByteOf;
    if k > 0 {
      BytesIs(n, cv, k - 1, env, cw);
      ByteNetIs(BytesNet(n, cv, k - 1).net, cv[(k - 1) / 4], (k - 1) % 4, env, cw[(k - 1) / 4]);
    }
  }

  method EmitBytes(n: Net, cv: seq<nat>, k: nat) returns (o: Bundle)
    requires k <= 4 * |cv|
    ensures o == BytesNet(n, cv, k)
  {
    o := Bundle(n, []);
    for i := 0 to k
      invariant o == BytesNet(n, cv, i)
    {
      var t := o.net.Map(ShiftRight(8 * (i % 4)), cv[i / 4]);
      var z := t.net.Map(KeepBits(Ext(Ones(8))), t.id);
      o := Bundle(z.net, o.ids + [z.id]);
    }
  }

  /** The hash gadget. Sizes over one chunk are refused with nothing emitted. */
  function ThNet(n: Net, dom: seq<nat>, data: seq<nat>, outLen: nat): (o: Bundle)
    ensures |o.ids| == if ValidSizes(|dom|, |data|, outLen) then outLen else 0
  {
    hide ChainingNet, BytesNet;
    if ValidSizes(|dom|, |data|, outLen) then
      var cv := ChainingNet(n, dom, data, BlockCount(FRAME_LEN + |dom| + |data|));
      BytesNet(cv.net, cv.ids, outLen)
    else Bundle(n, [])
  }

  /** For every allowed size the gadget carries the hash, at 336 additions per block. */
  lemma ThIs(n: Net, dom: seq<nat>, data: seq<nat>, outLen: nat, env: seq<Word>, domB: seq<Byte>, dataB: seq<Byte>)
    requires Ready(n, env) && Carries(On(n, env), dom, domB) && Carries(On(n, env), data, dataB)
    requires ValidSizes(|dom|, |data|, outLen)
    ensures MakesBytes(n, ThNet(n, dom, data, outLen), env, 336 * BlockCount(FRAME_LEN + |dom| + |data|), Th(domB, dataB, outLen))
  {
    hide PlainRun, Legal, Cost, On, Ready, Carries, AreWords, ChainingNet, ChainingValue, BytesNet, Framed, Bytes;
    var blocks := BlockCount(FRAME_LEN + |dom| + |data|);
    var cv := ChainingNet(n, dom, data, blocks);
    ChainingIs(n, dom, data, blocks, env, domB, dataB);
    BytesIs(cv.net, cv.ids, outLen, env, ChainingValue(Framed(domB, dataB), blocks));
  }

  method EmitTh(n: Net, dom: seq<nat>, data: seq<nat>, outLen: nat) returns (ok: bool, o: Bundle)
    ensures ok == ValidSizes(|dom|, |data|, outLen) && o == ThNet(n, dom, data, outLen)
  {
    hide KeyNet, BlockNet, CompressNet, BytesNet, Word32, Flags;
    ok, o := ValidSizes(|dom|, |data|, outLen), Bundle(n, []);
    if !ok { return; }
    var len := FRAME_LEN + |dom| + |data|;
    var blocks := BlockCount(len);
    var cv := EmitKey(n);
    for b := 0 to blocks
      invariant cv == ChainingNet(n, dom, data, b)
    {
      var m := EmitBlock(cv.net, dom, data, b);
      cv := EmitCompress(m.net, cv.ids, m.ids, Word32(BlockLength(len, b)), Word32(Flags(b, blocks)));
    }
    o := EmitBytes(cv.net, cv.ids, outLen);
  }
}
