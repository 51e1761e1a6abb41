/** The whole statement circuit: open the commitment, hash the message, walk the pooled chains, hash the
    leaf, climb 32 levels, and expose the root, the coordinate sum, the leftover bits and the check word.
    Witness, message and key seed are all inputs, so one gate list decides every statement. */
module Statement {
  import opened Words
  import opened Sharing
  import opened Engine
  import opened Builder
  import opened Blake3
  import opened Gf128
  import opened Wots
  import opened Codeword
  import opened Xmss
  import opened Pool

  const R_LEN: nat := 96
  const A_OFF: nat := 96
  const A_LEN: nat := 192
  const LEAF_OFF: nat := 288
  const NONCE_OFF: nat := 292
  const SIG_OFF: nat := 316
  const PATH_OFF: nat := 988
  const SCHEDULE_OFF: nat := 1500
  const STEPS: nat := 99
  const WITNESS_LEN: nat := 1599

  type Witness = w: seq<Byte> | |w| == 1599 witness seq(1599, _ => Zeros(8))

  function LeafWord(b: seq<Byte>): Word
    requires |b| == 4
  {
    LoadWord([b[3], b[2], b[1], b[0]], 0)
  }

  lemma LeafRoundTrip(b: seq<Byte>)
    requires |b| == 4
    ensures BigEndian(LeafWord(b)) == b
  {
    var w := LeafWord(b);
    assert ByteOf(w, 0) == b[3] && ByteOf(w, 1) == b[2] && ByteOf(w, 2) == b[1] && ByteOf(w, 3) == b[0];
  }

  function NodesIn(b: seq<Byte>, off: nat, n: nat): (r: seq<Node>)
    requires off + NODE_BYTES * n <= |b|
    ensures |r| == n
  {
    seq(n, i requires 0 <= i < n => NodeOf(b[off + NODE_BYTES * i..off + NODE_BYTES * i + NODE_BYTES]))
  }

  function SignatureIn(w: Witness): (sig: Signature)
    ensures sig.WellFormed()
  {
    Signature(LeafWord(w[LEAF_OFF..NONCE_OFF]), w[NONCE_OFF..SIG_OFF], NodesIn(w, SIG_OFF, CHAINS), NodesIn(w, PATH_OFF, HEIGHT))
  }

  /** The digest of the commitment that the witness opens to the message. */
  function DigestIn(message: seq<Byte>, w: Witness): seq<Byte>
    requires |message| == 32
  {
    CommitDigest(message, w[..R_LEN], w[A_OFF..LEAF_OFF])
  }

  function ScheduleIn(w: Witness): (s: seq<nat>)
    ensures |s| == STEPS
  {
    Indices(w[SCHEDULE_OFF..])
  }

  /** What the holder of a witness claims: it opens a commitment to the message, carries a signature on
      that commitment that verifies under the key, and schedules the signature's chains. */
  predicate Satisfies(message: seq<Byte>, seed: Seed, root: Node, w: Witness)
    requires |message| == 32
  {
    var d := HashMessage(seed, w[LEAF_OFF..NONCE_OFF], w[NONCE_OFF..SIG_OFF], DigestIn(message, w));
    Verifies(seed, root, DigestIn(message, w), SignatureIn(w)) && Complete(Coords(d), ScheduleIn(w))
  }

  // ---- constants -----------------------------------------------------------

  /** The first k bytes as public constants. */
  function ConstsNet(n: Net, bytes: seq<Byte>, k: nat): (o: Bundle)
    requires k <= |bytes|
    ensures |o.ids| == k
    decreases |bytes|, k
  {
    if k == 0 then Bundle(n, [])
    else
      var o := ConstsNet(n, bytes, k - 1);
      var z := o.net.Const(Ext(bytes[k - 1]));
      Bundle(z.net, o.ids + [z.id])
  }

  lemma {:induction false} ConstsTo(n: Net, bytes: seq<Byte>, k: nat, env: seq<Word>)
    requires Ready(n, env) && k <= |bytes|
    ensures MakesBytes(n, ConstsNet(n, bytes, k), env, 0, bytes[..k])
  {
    hide PlainRun, Legal, Cost, On, Ready, Ext;
    if k > 0 {
      ConstsTo(n, bytes, k - 1, env);
      ConstIs(ConstsNet(n, bytes, k - 1).net, Ext(bytes[k - 1]), env);
    }
  }

  lemma ConstsAre(n: Net, bytes: seq<Byte>, env: seq<Word>)
    requires Ready(n, env)
    ensures MakesBytes(n, ConstsNet(n, bytes, |bytes|), env, 0, bytes)
  {
    hide PlainRun, Legal, Cost, On, Ready, Ext, ConstsNet, Carries;
    ConstsTo(n, bytes, |bytes|, env);
    assert bytes[..|bytes|] == bytes;
  }

  method EmitConsts(n: Net, bytes: seq<Byte>) returns (o: Bundle)
    ensures o == ConstsNet(n, bytes, |bytes|)
  {
    hide Ext;
    o := Bundle(n, []);
    for i := 0 to |bytes|
      invariant o == ConstsNet(n, bytes, i)
    {
      var z := o.net.Const(Ext(bytes[i]));
      o := Bundle(z.net, o.ids + [z.id]);
    }
  }

  // ---- one line of the commitment ------------------------------------------

  lemma LimbsFlat(ws: seq<Word>)
    ensures Limbs(Flat(ws)) == ws
  {
    forall k | 0 <= k < |ws|
      ensures Limbs(Flat(ws))[k] == ws[k]
    {
      forall b | 0 <= b < 32
        ensures Flat(ws)[32 * k + b] == ws[k][b]
      {
        assert (32 * k + b) / 32 == k && (32 * k + b) % 32 == b;
      }
    }
  }

  lemma FlatXor(a: seq<Word>, b: seq<Word>, c: seq<Word>)
    requires |a| == |b| == |c| == 4 && forall k :: 0 <= k < 4 ==> c[k] == Words.Xor(a[k], b[k])
    ensures Flat(c) == PolyXor(Flat(a), Flat(b))
  {
  }

  lemma PolyXorRegroup(a: Poly, b: Poly, c: Poly)
    ensures PolyXor(a, PolyXor(b, c)) == PolyXor(PolyXor(a, b), c)
  {
  }

  lemma PolyXorSwap(a: Poly, b: Poly)
    ensures PolyXor(a, b) == PolyXor(b, a)
  {
  }

  function Xor4Net(n: Net, a: seq<nat>, b: seq<nat>, k: nat): (o: Bundle)
    requires |a| == |b| == 4 && k <= 4
    ensures |o.ids| == k
    decreases |a|, k
  {
    if k == 0 then Bundle(n, [])
    else
      var o := Xor4Net(n, a, b, k - 1);
      var z := o.net.Xor(a[k - 1], b[k - 1]);
      Bundle(z.net, o.ids + [z.id])
  }

  lemma {:induction false} Xor4To(n: Net, a: seq<nat>, b: seq<nat>, k: nat, env: seq<Word>, aw: seq<Word>, bw: seq<Word>)
    requires Ready(n, env) && |a| == |b| == 4 && k <= 4 && AreWords(On(n, env), a, aw) && AreWords(On(n, env), b, bw)
    ensures var o := Xor4Net(n, a, b, k);
            && Grows(n, o.net, env, 0)
            && forall j :: 0 <= j < k ==> Is(On(o.net, env), o.ids[j], Words.Xor(aw[j], bw[j]))
  {
    hide PlainRun, Legal, Cost, On, Ready, Words.Xor;
    if k > 0 {
      Xor4To(n, a, b, k - 1, env, aw, bw);
      XorIs(Xor4Net(n, a, b, k - 1).net, a[k - 1], b[k - 1], env, aw[k - 1], bw[k - 1]);
    }
  }

  lemma Xor4Is(n: Net, a: seq<nat>, b: seq<nat>, env: seq<Word>, p: Poly, q: Poly)
    requires Ready(n, env) && |a| == |b| == 4 && Holds(On(n, env), a, p) && Holds(On(n, env), b, q)
    ensures MakesPoly(n, Xor4Net(n, a, b, 4), env, 0, PolyXor(p, q))
  {
    hide PlainRun, Legal, Cost, On, Ready, Words.Xor, Xor4Net, Flat, PolyXor;
    var aw, bw := Vals(On(n, env), a), Vals(On(n, env), b);
    WordsAre(On(n, env), a);
    WordsAre(On(n, env), b);
    Xor4To(n, a, b, 4, env, aw, bw);
    var o := Xor4Net(n, a, b, 4);
    FlatXor(aw, bw, Vals(On(o.net, env), o.ids));
  }

  method EmitXor4(n: Net, a: seq<nat>, b: seq<nat>) returns (o: Bundle)
    requires |a| == |b| == 4
    ensures o == Xor4Net(n, a, b, 4)
  {
    o := Bundle(n, []);
    for k := 0 to 4
      invariant o == Xor4Net(n, a, b, k)
    {
      var z := o.net.Xor(a[k], b[k]);
      o := Bundle(z.net, o.ids + [z.id]);
    }
  }

  /** acc ^= x * y for one pair of elements. */
  function TermNet(n: Net, acc: seq<nat>, x: seq<nat>, y: seq<nat>): (o: Bundle)
    requires |acc| == 4 && |x| == |y| == NODE_BYTES
    ensures |o.ids| == 4
  {
    hide NodeNet, MulNet, Xor4Net;
    var xs := NodeNet(n, x, 4);
    var ys := NodeNet(xs.net, y, 4);
    var p := MulNet(ys.net, xs.ids, ys.ids);
    Xor4Net(p.net, acc, p.ids, 4)
  }

  lemma TermIs(n: Net, acc: seq<nat>, x: seq<nat>, y: seq<nat>, env: seq<Word>, p: Poly, xb: seq<Byte>, yb: seq<Byte>)
    requires Ready(n, env) && |acc| == 4 && Holds(On(n, env), acc, p) && |x| == |y| == |xb| == |yb| == NODE_BYTES
    requires Carries(On(n, env), x, xb) && Carries(On(n, env), y, yb)
    ensures MakesPoly(n, TermNet(n, acc, x, y), env, 512, PolyXor(p, Mul(Flat(NodeOf(xb)), Flat(NodeOf(yb)))))
  {
    hide PlainRun, Legal, Cost, On, Ready, NodeNet, MulNet, Xor4Net, Holds, Mul, Flat, NodeOf, PolyXor, Carries, AreWords;
    var xs := NodeNet(n, x, 4);
    WholeNodeIs(n, x, env, xb);
    CarriesKept(On(n, env), On(xs.net, env), y, yb);
    var ys := NodeNet(xs.net, y, 4);
    WholeNodeIs(xs.net, y, env, yb);
    WordsKept(On(xs.net, env), On(ys.net, env), xs.ids, NodeOf(xb));
    var m := MulNet(ys.net, xs.ids, ys.ids);
    MulIs(ys.net, xs.ids, ys.ids, env, NodeOf(xb), NodeOf(yb));
    HoldsKept(On(n, env), On(m.net, env), acc, p);
    Xor4Is(m.net, acc, m.ids, env, p, Mul(Flat(NodeOf(xb)), Flat(NodeOf(yb))));
  }

  method EmitTerm(n: Net, acc: seq<nat>, x: seq<nat>, y: seq<nat>) returns (o: Bundle)
    requires |acc| == 4 && |x| == |y| == NODE_BYTES
    ensures o == TermNet(n, acc, x, y)
  {
    hide NodeNet, MulNet, Xor4Net;
    var xs := EmitNode(n, x);
    var ys := EmitNode(xs.net, y);
    var p := EmitMul(ys.net, xs.ids, ys.ids);
    o := EmitXor4(p.net, acc, p.ids);
  }

  lemma ElementSlice(b: seq<Byte>, k: nat)
    requires 16 * k + 16 <= |b|
    ensures Element(b, k) == Flat(NodeOf(b[16 * k..16 * k + 16]))
  {
  }

  /** The inner product of line `line` of a with r, over the first i terms. */
  function InnerTo(a: seq<Byte>, r: seq<Byte>, line: nat, i: nat): Poly
    requires |a| == 192 && |r| == 96 && line < LINES && i <= NONCES
    decreases |a|, i
  {
    if i == 0 then Zeros(128) else PolyXor(InnerTo(a, r, line, i - 1), Mul(Element(a, line * NONCES + i - 1), Element(r, i - 1)))
  }

  lemma PolyXorZero(a: Poly)
    ensures PolyXor(a, Zeros(128)) == a
  {
  }

  lemma {:induction false} LineIsInner(message: seq<Byte>, a: seq<Byte>, r: seq<Byte>, line: nat, i: nat)
    requires |message| == 32 && |a| == 192 && |r| == 96 && line < LINES && i <= NONCES
    ensures LineTo(message, a, r, line, i) == PolyXor(Element(message, line), InnerTo(a, r, line, i))
  {
    hide Mul, PolyXor, Element;
    if i == 0 {
      PolyXorZero(Element(message, line));
    } else {
      LineIsInner(message, a, r, line, i - 1);
      PolyXorRegroup(Element(message, line), InnerTo(a, r, line, i - 1), Mul(Element(a, line * NONCES + i - 1), Element(r, i - 1)));
    }
  }

  function InnerNet(n: Net, a: seq<nat>, r: seq<nat>, line: nat, i: nat): (o: Bundle)
    requires |a| == A_LEN && |r| == R_LEN && line < LINES && i <= NONCES
    ensures |o.ids| == 4
    decreases |a|, i
  {
    hide TermNet;
    if i == 0 then
      var z := n.Const(ZERO);
      Bundle(z.net, [z.id, z.id, z.id, z.id])
    else
      var k := line * NONCES + i - 1;
      var o := InnerNet(n, a, r, line, i - 1);
      TermNet(o.net, o.ids, a[16 * k..16 * k + 16], r[16 * (i - 1)..16 * i])
  }

  lemma ZeroHolds(vs: seq<Word>, id: nat)
    requires Is(vs, id, ZERO)
    ensures Holds(vs, [id, id, id, id], Zeros(128))
  {
  }

  lemma {:induction false} InnerIs(n: Net, a: seq<nat>, r: seq<nat>, line: nat, i: nat, env: seq<Word>, ab: seq<Byte>, rb: seq<Byte>)
    requires Ready(n, env) && |a| == A_LEN && |r| == R_LEN && line < LINES && i <= NONCES
    requires Carries(On(n, env), a, ab) && Carries(On(n, env), r, rb)
    ensures |ab| == A_LEN && |rb| == R_LEN
    ensures MakesPoly(n, InnerNet(n, a, r, line, i), env, 512 * i, InnerTo(ab, rb, line, i))
  {
    hide PlainRun, Legal, Cost, On, Ready, TermNet, Holds, Mul, PolyXor, Flat, NodeOf, Carries;
    CarriesLength(On(n, env), a, ab);
    CarriesLength(On(n, env), r, rb);
    if i == 0 {
      ConstIs(n, ZERO, env);
      ZeroHolds(On(n.Const(ZERO).net, env), n.Const(ZERO).id);
    } else {
      InnerIs(n, a, r, line, i - 1, env, ab, rb);
      var k, o := line * NONCES + i - 1, InnerNet(n, a, r, line, i - 1);
      CarriesKept(On(n, env), On(o.net, env), a, ab);
      CarriesKept(On(n, env), On(o.net, env), r, rb);
      CarriesSlice(On(o.net, env), a, ab, 16 * k, 16 * k + 16);
      CarriesSlice(On(o.net, env), r, rb, 16 * (i - 1), 16 * i);
      TermIs(o.net, o.ids, a[16 * k..16 * k + 16], r[16 * (i - 1)..16 * i], env, InnerTo(ab, rb, line, i - 1),
             ab[16 * k..16 * k + 16], rb[16 * (i - 1)..16 * i]);
      ElementSlice(ab, k);
      ElementSlice(rb, i - 1);
    }
  }

  /** One line of the commitment: six products, the message element XORed in, stored as 16 bytes. */
  function LineNet(n: Net, message: seq<nat>, a: seq<nat>, r: seq<nat>, line: nat): (o: Bundle)
    requires |message| == 32 && |a| == A_LEN && |r| == R_LEN && line < LINES
    ensures |o.ids| == NODE_BYTES
  {
    hide InnerNet, NodeNet, Xor4Net, BytesNet;
    var acc := InnerNet(n, a, r, line, NONCES);
    var m := NodeNet(acc.net, message[16 * line..16 * line + 16], 4);
    var t := Xor4Net(m.net, acc.ids, m.ids, 4);
    BytesNet(t.net, t.ids, NODE_BYTES)
  }

  lemma StoreIs(n: Net, ids: seq<nat>, env: seq<Word>, p: Poly)
    requires Ready(n, env) && |ids| == 4 && Holds(On(n, env), ids, p)
    ensures MakesBytes(n, BytesNet(n, ids, NODE_BYTES), env, 0, ElementBytes(p))
  {
    hide PlainRun, Legal, Cost, On, Ready, Flat, BytesNet, Bytes, Carries, Limbs;
    WordsAre(On(n, env), ids);
    LimbsFlat(Vals(On(n, env), ids));
    BytesIs(n, ids, NODE_BYTES, env, Vals(On(n, env), ids));
  }

  lemma LineIs(n: Net, message: seq<nat>, a: seq<nat>, r: seq<nat>, line: nat, env: seq<Word>, mb: seq<Byte>, ab: seq<Byte>, rb: seq<Byte>)
    requires Ready(n, env) && |message| == 32 && |a| == A_LEN && |r| == R_LEN && line < LINES
    requires Carries(On(n, env), message, mb) && Carries(On(n, env), a, ab) && Carries(On(n, env), r, rb)
    ensures |mb| == 32 && |ab| == A_LEN && |rb| == R_LEN
    ensures MakesBytes(n, LineNet(n, message, a, r, line), env, 3072, ElementBytes(LineTo(mb, ab, rb, line, NONCES)))
  {
    hide PlainRun, Legal, Cost, On, Ready, InnerNet, NodeNet, Xor4Net, BytesNet, Holds, Flat, NodeOf, PolyXor, InnerTo, LineTo, ElementBytes, Carries, AreWords;
    CarriesLength(On(n, env), message, mb);
    var acc, lo := InnerNet(n, a, r, line, NONCES), 16 * line;
    InnerIs(n, a, r, line, NONCES, env, ab, rb);
    CarriesKept(On(n, env), On(acc.net, env), message, mb);
    CarriesSlice(On(acc.net, env), message, mb, lo, lo + 16);
    var m, e := NodeNet(acc.net, message[lo..lo + 16], 4), Element(mb, line);
    WholeNodeIs(acc.net, message[lo..lo + 16], env, mb[lo..lo + 16]);
    ElementSlice(mb, line);
    WordsHold(On(m.net, env), m.ids, NodeOf(mb[lo..lo + 16]));
    var p := InnerTo(ab, rb, line, NONCES);
    HoldsKept(On(acc.net, env), On(m.net, env), acc.ids, p);
    var t := Xor4Net(m.net, acc.ids, m.ids, 4);
    Xor4Is(m.net, acc.ids, m.ids, env, p, e);
    PolyXorSwap(p, e);
    LineIsInner(mb, ab, rb, line, NONCES);
    StoreIs(t.net, t.ids, env, LineTo(mb, ab, rb, line, NONCES));
  }

  lemma WordsHold(vs: seq<Word>, ids: seq<nat>, ws: seq<Word>)
    requires AreWords(vs, ids, ws)
    ensures Holds(vs, ids, Flat(ws))
  {
    hide Flat;
    AreVals(vs, ids, ws);
  }

  method EmitLine(n: Net, message: seq<nat>, a: seq<nat>, r: seq<nat>, line: nat) returns (o: Bundle)
    requires |message| == 32 && |a| == A_LEN && |r| == R_LEN && line < LINES
    ensures o == LineNet(n, message, a, r, line)
  {
    hide TermNet, NodeNet, Xor4Net, BytesNet;
    var z := n.Const(ZERO);
    var acc := Bundle(z.net, [z.id, z.id, z.id, z.id]);
    for i := 0 to NONCES
      invariant acc == InnerNet(n, a, r, line, i)
    {
      var k := line * NONCES + i;
      acc := EmitTerm(acc.net, acc.ids, a[16 * k..16 * k + 16], r[16 * i..16 * i + 16]);
    }
    var m := EmitNode(acc.net, message[16 * line..16 * line + 16]);
    var t := EmitXor4(m.net, acc.ids, m.ids);
    o := EmitBytes(t.net, t.ids, NODE_BYTES);
  }

  // ---- commitment, message hash, leaf --------------------------------------

  lemma DomainLength(s: string)
    ensures |Domain(s)| == |s|
  {
  }

  /** A hash whose first domain bytes are public constants. */
  function TaggedNet(n: Net, tag: seq<Byte>, data: seq<nat>): (o: Bundle)
    requires |tag| == 3 && |data| <= 512
    ensures |o.ids| == 32
  {
    hide ConstsNet, ThNet;
    var t := ConstsNet(n, tag, 3);
    ThNet(t.net, t.ids, data, 32)
  }

  lemma TaggedIs(n: Net, tag: seq<Byte>, data: seq<nat>, env: seq<Word>, db: seq<Byte>)
    requires Ready(n, env) && |tag| == 3 && |data| <= 512 && Carries(On(n, env), data, db)
    ensures MakesBytes(n, TaggedNet(n, tag, data), env, 336 * BlockCount(7 + |data|), Th(tag, db, 32))
  {
    hide PlainRun, Legal, Cost, On, Ready, ConstsNet, ThNet, Th, Carries;
    ConstsAre(n, tag, env);
    var t := ConstsNet(n, tag, 3);
    CarriesKept(On(n, env), On(t.net, env), data, db);
    ThIs(t.net, t.ids, data, 32, env, tag, db);
  }

  method EmitTagged(n: Net, tag: seq<Byte>, data: seq<nat>) returns (o: Bundle)
    requires |tag| == 3 && |data| <= 512
    ensures o == TaggedNet(n, tag, data)
  {
    hide ConstsNet, ThNet;
    var t := EmitConsts(n, tag);
    var ok, h := EmitTh(t.net, t.ids, data, 32);
    o := h;
  }

  /** Both lines. */
  function LinesNet(n: Net, message: seq<nat>, r: seq<nat>, a: seq<nat>): (o: Bundle)
    requires |message| == 32 && |a| == A_LEN && |r| == R_LEN
    ensures |o.ids| == 32
  {
    hide LineNet;
    var b0 := LineNet(n, message, a, r, 0);
    var b1 := LineNet(b0.net, message, a, r, 1);
    Bundle(b1.net, b0.ids + b1.ids)
  }

  lemma LinesAre(n: Net, message: seq<nat>, r: seq<nat>, a: seq<nat>, env: seq<Word>, mb: seq<Byte>, rb: seq<Byte>, ab: seq<Byte>)
    requires Ready(n, env) && |message| == |mb| == 32 && |a| == |ab| == A_LEN && |r| == |rb| == R_LEN
    requires Carries(On(n, env), message, mb) && Carries(On(n, env), a, ab) && Carries(On(n, env), r, rb)
    ensures MakesBytes(n, LinesNet(n, message, r, a), env, 6144, Lines(mb, ab, rb))
  {
    hide PlainRun, Legal, Cost, On, Ready, LineNet, LineTo, ElementBytes, Carries;
    var b0, l0 := LineNet(n, message, a, r, 0), ElementBytes(LineTo(mb, ab, rb, 0, NONCES));
    LineIs(n, message, a, r, 0, env, mb, ab, rb);
    CarriesKept(On(n, env), On(b0.net, env), message, mb);
    CarriesKept(On(n, env), On(b0.net, env), a, ab);
    CarriesKept(On(n, env), On(b0.net, env), r, rb);
    var b1 := LineNet(b0.net, message, a, r, 1);
    LineIs(b0.net, message, a, r, 1, env, mb, ab, rb);
    CarriesKept(On(b0.net, env), On(b1.net, env), b0.ids, l0);
    CarriesJoin(On(b1.net, env), b0.ids, b1.ids, l0, ElementBytes(LineTo(mb, ab, rb, 1, NONCES)));
  }

  /** The opened commitment's digest: 2 + 5 blocks and 12 products. */
  function CommitNet(n: Net, message: seq<nat>, r: seq<nat>, a: seq<nat>): (o: Bundle)
    requires |message| == 32 && |a| == A_LEN && |r| == R_LEN
    ensures |o.ids| == 32
  {
    hide TaggedNet, LinesNet, Domain;
    DomainLength("HMy");
    DomainLength("HMd");
    var y := TaggedNet(n, Domain("HMy"), r);
    var b := LinesNet(y.net, message, r, a);
    TaggedNet(b.net, Domain("HMd"), a + b.ids + y.ids)
  }

  lemma CommitIs(n: Net, message: seq<nat>, r: seq<nat>, a: seq<nat>, env: seq<Word>, mb: seq<Byte>, rb: seq<Byte>, ab: seq<Byte>)
    requires Ready(n, env) && |message| == |mb| == 32 && |a| == |ab| == A_LEN && |r| == |rb| == R_LEN
    requires Carries(On(n, env), message, mb) && Carries(On(n, env), a, ab) && Carries(On(n, env), r, rb)
    ensures MakesBytes(n, CommitNet(n, message, r, a), env, 8496, CommitDigest(mb, rb, ab))
  {
    hide PlainRun, Legal, Cost, On, Ready, TaggedNet, LinesNet, Th, Lines, Domain, Carries;
    DomainLength("HMy");
    DomainLength("HMd");
    var y, yb := TaggedNet(n, Domain("HMy"), r), Th(Domain("HMy"), rb, 32);
    TaggedIs(n, Domain("HMy"), r, env, rb);
    CarriesKept(On(n, env), On(y.net, env), message, mb);
    CarriesKept(On(n, env), On(y.net, env), a, ab);
    CarriesKept(On(n, env), On(y.net, env), r, rb);
    var b, lb := LinesNet(y.net, message, r, a), Lines(mb, ab, rb);
    LinesAre(y.net, message, r, a, env, mb, rb, ab);
    CarriesKept(On(n, env), On(b.net, env), a, ab);
    CarriesKept(On(y.net, env), On(b.net, env), y.ids, yb);
    CarriesJoin(On(b.net, env), a, b.ids, ab, lb);
    CarriesJoin(On(b.net, env), a + b.ids, y.ids, ab + lb, yb);
    TaggedIs(b.net, Domain("HMd"), a + b.ids + y.ids, env, ab + lb + yb);
  }

  method EmitCommit(n: Net, message: seq<nat>, r: seq<nat>, a: seq<nat>) returns (o: Bundle)
    requires |message| == 32 && |a| == A_LEN && |r| == R_LEN
    ensures o == CommitNet(n, message, r, a)
  {
    hide TaggedNet, LineNet, Domain;
    DomainLength("HMy");
    DomainLength("HMd");
    var y := EmitTagged(n, Domain("HMy"), r);
    var b0 := EmitLine(y.net, message, a, r, 0);
    var b1 := EmitLine(b0.net, message, a, r, 1);
    o := EmitTagged(b1.net, Domain("HMd"), a + (b0.ids + b1.ids) + y.ids);
  }

  /** Seed, one tweak byte and epoch: the domain of the message and leaf hashes. */
  function DomainNet(n: Net, seed: seq<nat>, tweak: Byte, epoch: seq<nat>): (o: Bundle)
    ensures |o.ids| == |seed| + 1 + |epoch|
  {
    var t := n.Const(Ext(tweak));
    Bundle(t.net, seed + [t.id] + epoch)
  }

  lemma DomainIs(n: Net, seed: seq<nat>, tweak: Byte, epoch: seq<nat>, env: seq<Word>, sb: seq<Byte>, eb: seq<Byte>)
    requires Ready(n, env) && Carries(On(n, env), seed, sb) && Carries(On(n, env), epoch, eb)
    ensures MakesBytes(n, DomainNet(n, seed, tweak, epoch), env, 0, sb + [tweak] + eb)
  {
    hide PlainRun, Legal, Cost, On, Ready, Ext, Carries;
    var t := n.Const(Ext(tweak));
    ConstIs(n, Ext(tweak), env);
    CarriesKept(On(n, env), On(t.net, env), seed, sb);
    CarriesKept(On(n, env), On(t.net, env), epoch, eb);
    CarriesSnoc(On(t.net, env), seed, sb, t.id, tweak);
    CarriesJoin(On(t.net, env), seed + [t.id], epoch, sb + [tweak], eb);
  }

  function MessageHashNet(n: Net, seed: seq<nat>, epoch: seq<nat>, nonce: seq<nat>, d: seq<nat>): (o: Bundle)
    requires |seed| == 16 && |epoch| == 4 && |nonce| == 24 && |d| == 32
    ensures |o.ids| == 32
  {
    hide ThNet;
    var t := DomainNet(n, seed, Byte8(TWEAK_MESSAGE), epoch);
    ThNet(t.net, t.ids, nonce + d, 32)
  }

  lemma MessageHashIs(n: Net, seed: seq<nat>, epoch: seq<nat>, nonce: seq<nat>, d: seq<nat>, env: seq<Word>,
                      sb: Seed, eb: seq<Byte>, nb: seq<Byte>, db: seq<Byte>)
    requires Ready(n, env) && |seed| == 16 && |epoch| == 4 && |nonce| == 24 && |d| == 32
    requires Carries(On(n, env), seed, sb) && Carries(On(n, env), epoch, eb) && Carries(On(n, env), nonce, nb) && Carries(On(n, env), d, db)
    ensures MakesBytes(n, MessageHashNet(n, seed, epoch, nonce, d), env, 672, HashMessage(sb, eb, nb, db))
  {
    hide PlainRun, Legal, Cost, On, Ready, DomainNet, ThNet, Th, Carries, Byte8;
    var t := DomainNet(n, seed, Byte8(TWEAK_MESSAGE), epoch);
    DomainIs(n, seed, Byte8(TWEAK_MESSAGE), epoch, env, sb, eb);
    CarriesJoin(On(n, env), nonce, d, nb, db);
    CarriesKept(On(n, env), On(t.net, env), nonce + d, nb + db);
    ThIs(t.net, t.ids, nonce + d, 32, env, sb + [Byte8(TWEAK_MESSAGE)] + eb, nb + db);
  }

  method EmitMessageHash(n: Net, seed: seq<nat>, epoch: seq<nat>, nonce: seq<nat>, d: seq<nat>) returns (o: Bundle)
    requires |seed| == 16 && |epoch| == 4 && |nonce| == 24 && |d| == 32
    ensures o == MessageHashNet(n, seed, epoch, nonce, d)
  {
    hide ThNet, Byte8;
    var t := DomainNet(n, seed, Byte8(TWEAK_MESSAGE), epoch);
    var ok, h := EmitTh(t.net, t.ids, nonce + d, 32);
    o := h;
  }

  /** The endpoint bytes of the first k chains, chain after chain. */
  function EndpointsNet(n: Net, cols: seq<seq<nat>>, k: nat): (o: Bundle)
    requires Columns(cols) && k <= CHAINS
    ensures |o.ids| == NODE_BYTES * k
    decreases |cols|, k
  {
    hide BytesNet;
    if k == 0 then Bundle(n, [])
    else
      var o := EndpointsNet(n, cols, k - 1);
      var b := BytesNet(o.net, [cols[0][k - 1], cols[1][k - 1], cols[2][k - 1], cols[3][k - 1]], NODE_BYTES);
      Bundle(b.net, o.ids + b.ids)
  }

  lemma NodeWires(vs: seq<Word>, cols: seq<seq<nat>>, ns: seq<Node>, k: nat)
    requires Columns(cols) && NodesHold(vs, cols, ns) && k < |ns| == CHAINS
    ensures AreWords(vs, [cols[0][k], cols[1][k], cols[2][k], cols[3][k]], ns[k])
  {
    assert forall w :: 0 <= w < 4 ==> Is(vs, cols[w][k], WordColumn(ns, w)[k]);
  }

  lemma {:induction false} EndpointsTo(n: Net, cols: seq<seq<nat>>, k: nat, env: seq<Word>, ns: seq<Node>)
    requires Ready(n, env) && Columns(cols) && NodesHold(On(n, env), cols, ns) && |ns| == CHAINS && k <= CHAINS
    ensures MakesBytes(n, EndpointsNet(n, cols, k), env, 0, EndpointBytes(ns[..k]))
  {
    hide PlainRun, Legal, Cost, On, Ready, BytesNet, Bytes, NodesHold, Carries, AreWords;
    if k == 0 {
      NoWords(On(n, env));
    } else {
      EndpointsTo(n, cols, k - 1, env, ns);
      var o, node := EndpointsNet(n, cols, k - 1), [cols[0][k - 1], cols[1][k - 1], cols[2][k - 1], cols[3][k - 1]];
      NodesKept(On(n, env), On(o.net, env), cols, ns);
      NodeWires(On(o.net, env), cols, ns, k - 1);
      BytesIs(o.net, node, NODE_BYTES, env, ns[k - 1]);
      var b := BytesNet(o.net, node, NODE_BYTES);
      CarriesKept(On(o.net, env), On(b.net, env), o.ids, EndpointBytes(ns[..k - 1]));
      CarriesJoin(On(b.net, env), o.ids, b.ids, EndpointBytes(ns[..k - 1]), NodeBytes(ns[k - 1]));
      assert ns[..k][..k - 1] == ns[..k - 1];
    }
  }

  method EmitEndpoints(n: Net, cols: seq<seq<nat>>) returns (o: Bundle)
    requires Columns(cols)
    ensures o == EndpointsNet(n, cols, CHAINS)
  {
    hide BytesNet;
    o := Bundle(n, []);
    for k := 0 to CHAINS
      invariant o == EndpointsNet(n, cols, k)
    {
      var b := EmitBytes(o.net, [cols[0][k], cols[1][k], cols[2][k], cols[3][k]], NODE_BYTES);
      o := Bundle(b.net, o.ids + b.ids);
    }
  }

  function LeafNet(n: Net, cols: seq<seq<nat>>, seed: seq<nat>, epoch: seq<nat>): (o: Bundle)
    requires Columns(cols) && |seed| == 16 && |epoch| == 4
    ensures |o.ids| == 4
  {
    hide EndpointsNet, DomainNet, ThNet, NodeNet;
    var e := EndpointsNet(n, cols, CHAINS);
    var t := DomainNet(e.net, seed, Byte8(TWEAK_LEAF), epoch);
    var h := ThNet(t.net, t.ids, e.ids, NODE_BYTES);
    NodeNet(h.net, h.ids, 4)
  }

  lemma LeafIs(n: Net, cols: seq<seq<nat>>, seed: seq<nat>, epoch: seq<nat>, env: seq<Word>, sb: Seed, eb: seq<Byte>, ns: seq<Node>)
    requires Ready(n, env) && Columns(cols) && NodesHold(On(n, env), cols, ns) && |ns| == CHAINS && |seed| == 16 && |epoch| == 4
    requires Carries(On(n, env), seed, sb) && Carries(On(n, env), epoch, eb)
    ensures MakesWords(n, LeafNet(n, cols, seed, epoch), env, 3696, HashPublicKey(sb, eb, ns))
  {
    hide PlainRun, Legal, Cost, On, Ready, EndpointsNet, DomainNet, ThNet, NodeNet, NodesHold, Th, EndpointBytes, NodeOf, Carries, AreWords, Byte8;
    var e := EndpointsNet(n, cols, CHAINS);
    EndpointsTo(n, cols, CHAINS, env, ns);
    assert ns[..CHAINS] == ns;
    CarriesKept(On(n, env), On(e.net, env), seed, sb);
    CarriesKept(On(n, env), On(e.net, env), epoch, eb);
    var t, domB := DomainNet(e.net, seed, Byte8(TWEAK_LEAF), epoch), sb + [Byte8(TWEAK_LEAF)] + eb;
    DomainIs(e.net, seed, Byte8(TWEAK_LEAF), epoch, env, sb, eb);
    CarriesKept(On(e.net, env), On(t.net, env), e.ids, EndpointBytes(ns));
    var h := ThNet(t.net, t.ids, e.ids, NODE_BYTES);
    ThIs(t.net, t.ids, e.ids, NODE_BYTES, env, domB, EndpointBytes(ns));
    WholeNodeIs(h.net, h.ids, env, Th(domB, EndpointBytes(ns), NODE_BYTES));
  }

  method EmitLeaf(n: Net, cols: seq<seq<nat>>, seed: seq<nat>, epoch: seq<nat>) returns (o: Bundle)
    requires Columns(cols) && |seed| == 16 && |epoch| == 4
    ensures o == LeafNet(n, cols, seed, epoch)
  {
    hide EndpointsNet, DomainNet, ThNet, NodeNet, Byte8;
    var e := EmitEndpoints(n, cols);
    var t := DomainNet(e.net, seed, Byte8(TWEAK_LEAF), epoch);
    var ok, h := EmitTh(t.net, t.ids, e.ids, NODE_BYTES);
    o := EmitNode(h.net, h.ids);
  }

  // ---- the Merkle climb ----------------------------------------------------

  lemma SwapWords(bit: bool, nd: Word, sb: Word)
    ensures var mt := Words.And(FullWord(bit), Words.Xor(nd, sb));
            && Words.Xor(nd, mt) == (if bit then sb else nd)
            && Words.Xor(sb, mt) == (if bit then nd else sb)
  {
  }

  datatype Pair = Pair(net: Net, left: seq<nat>, right: seq<nat>)

  /** Orders the first w words of node and sibling by one index bit, at one AND per word. */
  function SwapNet(n: Net, mask: nat, node: seq<nat>, sib: seq<nat>, w: nat): (o: Pair)
    requires |node| == |sib| == 4 && w <= 4
    ensures |o.left| == |o.right| == w
    decreases |node|, w
  {
    if w == 0 then Pair(n, [], [])
    else
      var o := SwapNet(n, mask, node, sib, w - 1);
      var t := o.net.Xor(node[w - 1], sib[w - 1]);
      var mt := t.net.And(mask, t.id);
      var l := mt.net.Xor(node[w - 1], mt.id);
      var r := l.net.Xor(sib[w - 1], mt.id);
      Pair(r.net, o.left + [l.id], o.right + [r.id])
  }

  lemma SwapWordIs(n: Net, mask: nat, nd: nat, sb: nat, env: seq<Word>, bit: bool, nw: Word, sw: Word)
    requires Ready(n, env) && Is(On(n, env), mask, FullWord(bit)) && Is(On(n, env), nd, nw) && Is(On(n, env), sb, sw)
    ensures var t := n.Xor(nd, sb);
            var mt := t.net.And(mask, t.id);
            var l := mt.net.Xor(nd, mt.id);
            var r := l.net.Xor(sb, mt.id);
            && Grows(n, r.net, env, 1)
            && Is(On(r.net, env), l.id, if bit then sw else nw) && Is(On(r.net, env), r.id, if bit then nw else sw)
  {
    hide PlainRun, Legal, Cost, On, Ready, FullWord, Words.And, Words.Xor;
    SwapWords(bit, nw, sw);
    var t := n.Xor(nd, sb);
    XorIs(n, nd, sb, env, nw, sw);
    var mt, mw := t.net.And(mask, t.id), Words.And(FullWord(bit), Words.Xor(nw, sw));
    AndIs(t.net, mask, t.id, env, FullWord(bit), Words.Xor(nw, sw));
    var l := mt.net.Xor(nd, mt.id);
    XorIs(mt.net, nd, mt.id, env, nw, mw);
    XorIs(l.net, sb, mt.id, env, sw, mw);
  }

  predicate Swapped(n: Net, o: Pair, env: seq<Word>, k: nat, l: seq<Word>, r: seq<Word>)
    requires Ready(n, env)
  {
    Grows(n, o.net, env, k) && AreWords(On(o.net, env), o.left, l) && AreWords(On(o.net, env), o.right, r)
  }

  /** Word w joins both sides. */
  lemma SwapStep(a: seq<Word>, b: seq<Word>, left: seq<nat>, right: seq<nat>, l: nat, r: nat, lv: seq<Word>, rv: seq<Word>, w: nat)
    requires a <= b && w < |lv| && w < |rv| && AreWords(a, left, lv[..w]) && AreWords(a, right, rv[..w]) && Is(b, l, lv[w]) && Is(b, r, rv[w])
    ensures AreWords(b, left + [l], lv[..w + 1]) && AreWords(b, right + [r], rv[..w + 1])
  {
    hide AreWords, Is;
    WordsKept(a, b, left, lv[..w]);
    WordsKept(a, b, right, rv[..w]);
    WordsSnoc(b, left, lv[..w], l, lv[w]);
    WordsSnoc(b, right, rv[..w], r, rv[w]);
    assert lv[..w] + [lv[w]] == lv[..w + 1] && rv[..w] + [rv[w]] == rv[..w + 1];
  }

  lemma {:induction false} SwapIs(n: Net, mask: nat, node: seq<nat>, sib: seq<nat>, w: nat, env: seq<Word>, bit: bool, nv: Node, sv: Node)
    requires Ready(n, env) && |node| == |sib| == 4 && w <= 4
    requires Is(On(n, env), mask, FullWord(bit)) && AreWords(On(n, env), node, nv) && AreWords(On(n, env), sib, sv)
    ensures Swapped(n, SwapNet(n, mask, node, sib, w), env, w, (if bit then sv else nv)[..w], (if bit then nv else sv)[..w])
  {
    hide PlainRun, Legal, Cost, On, Ready, FullWord, AreWords;
    var lv, rv := if bit then sv else nv, if bit then nv else sv;
    if w == 0 {
      NoWords(On(n, env));
    } else {
      SwapIs(n, mask, node, sib, w - 1, env, bit, nv, sv);
      var o, v := SwapNet(n, mask, node, sib, w - 1), SwapNet(n, mask, node, sib, w);
      OneWord(On(n, env), node, nv, w - 1);
      OneWord(On(n, env), sib, sv, w - 1);
      SwapWordIs(o.net, mask, node[w - 1], sib[w - 1], env, bit, nv[w - 1], sv[w - 1]);
      SwapStep(On(o.net, env), On(v.net, env), o.left, o.right, v.left[w - 1], v.right[w - 1], lv, rv, w - 1);
    }
  }

  method EmitSwap(n: Net, mask: nat, node: seq<nat>, sib: seq<nat>) returns (o: Pair)
    requires |node| == |sib| == 4
    ensures o == SwapNet(n, mask, node, sib, 4)
  {
    o := Pair(n, [], []);
    for w := 0 to 4
      invariant o == SwapNet(n, mask, node, sib, w)
    {
      var t := o.net.Xor(node[w], sib[w]);
      var mt := t.net.And(mask, t.id);
      var l := mt.net.Xor(node[w], mt.id);
      var r := l.net.Xor(sib[w], mt.id);
      o := Pair(r.net, o.left + [l.id], o.right + [r.id]);
    }
  }

  lemma SpreadIs(w: Word, h: nat)
    requires h < 32
    ensures Broadcast(w, h) == FullWord(w[h])
  {
  }

  /** The node and its sibling, left child first. */
  function OrderedNet(n: Net, node: seq<nat>, sibBytes: seq<nat>, li: nat, h: BitIndex): (o: Pair)
    requires |node| == 4 && |sibBytes| == NODE_BYTES
    ensures |o.left| == |o.right| == 4
  {
    hide NodeNet, SwapNet;
    var mask := n.Map(SpreadBit(h), li);
    var sib := NodeNet(mask.net, sibBytes, 4);
    SwapNet(sib.net, mask.id, node, sib.ids, 4)
  }

  lemma OrderedIs(n: Net, node: seq<nat>, sibBytes: seq<nat>, li: nat, h: nat, env: seq<Word>, nv: Node, sibB: seq<Byte>, idx: Word)
    requires Ready(n, env) && |node| == 4 && |sibBytes| == |sibB| == NODE_BYTES && h < 32
    requires AreWords(On(n, env), node, nv) && Is(On(n, env), li, idx) && Carries(On(n, env), sibBytes, sibB)
    ensures Swapped(n, OrderedNet(n, node, sibBytes, li, h), env, 4, if idx[h] then NodeOf(sibB) else nv, if idx[h] then nv else NodeOf(sibB))
  {
    hide PlainRun, Legal, Cost, On, Ready, NodeNet, SwapNet, FullWord, NodeOf, Broadcast, Carries, AreWords;
    var mask := n.Map(SpreadBit(h), li);
    MapIs(n, SpreadBit(h), li, env, idx);
    SpreadIs(idx, h);
    CarriesKept(On(n, env), On(mask.net, env), sibBytes, sibB);
    var sib, sv := NodeNet(mask.net, sibBytes, 4), NodeOf(sibB);
    WholeNodeIs(mask.net, sibBytes, env, sibB);
    WordsKept(On(n, env), On(sib.net, env), node, nv);
    SwapIs(sib.net, mask.id, node, sib.ids, 4, env, idx[h], nv, sv);
    assert nv[..4] == nv && sv[..4] == sv;
  }

  lemma IndexBytes(w: Word)
    ensures Bytes([w], 4) == LittleEndian(w)
  {
  }

  /** Seed, tweak, level and the parent's index, least significant byte first. */
  function TreeDomainNet(n: Net, seed: seq<nat>, li: nat, h: nat): (o: Bundle)
    requires |seed| == 16
    ensures |o.ids| == 22
  {
    hide ConstsNet, BytesNet;
    var tb := [Byte8(TWEAK_TREE), Byte8(h)];
    var t := ConstsNet(n, tb, |tb|);
    var x := t.net.Map(ShiftRight(h + 1), li);
    var b := BytesNet(x.net, [x.id], 4);
    Bundle(b.net, seed + t.ids + b.ids)
  }

  lemma TreeDomainIs(n: Net, seed: seq<nat>, li: nat, h: nat, env: seq<Word>, sb: Seed, idx: Word)
    requires Ready(n, env) && |seed| == 16 && Carries(On(n, env), seed, sb) && Is(On(n, env), li, idx)
    ensures MakesBytes(n, TreeDomainNet(n, seed, li, h), env, 0, sb + [Byte8(TWEAK_TREE)] + [Byte8(h)] + LittleEndian(Shr(idx, h + 1)))
  {
    hide PlainRun, Legal, Cost, On, Ready, ConstsNet, BytesNet, Bytes, LittleEndian, Carries, Byte8, Shr;
    var tb, iv := [Byte8(TWEAK_TREE), Byte8(h)], Shr(idx, h + 1);
    var t := ConstsNet(n, tb, |tb|);
    ConstsAre(n, tb, env);
    var x := t.net.Map(ShiftRight(h + 1), li);
    MapIs(t.net, ShiftRight(h + 1), li, env, idx);
    var b := BytesNet(x.net, [x.id], 4);
    BytesIs(x.net, [x.id], 4, env, [iv]);
    IndexBytes(iv);
    CarriesKept(On(n, env), On(b.net, env), seed, sb);
    CarriesKept(On(t.net, env), On(b.net, env), t.ids, tb);
    CarriesJoin(On(b.net, env), seed, t.ids, sb, tb);
    CarriesJoin(On(b.net, env), seed + t.ids, b.ids, sb + tb, LittleEndian(iv));
    assert sb + tb == sb + [Byte8(TWEAK_TREE)] + [Byte8(h)];
  }

  /** The tree hash of two nodes on wires. One block. */
  function ParentNet(n: Net, left: seq<nat>, right: seq<nat>, seed: seq<nat>, li: nat, h: nat): (o: Bundle)
    requires |left| == |right| == 4 && |seed| == 16
    ensures |o.ids| == 4
  {
    hide TreeDomainNet, BytesNet, ThNet, NodeNet;
    var dom := TreeDomainNet(n, seed, li, h);
    var lb := BytesNet(dom.net, left, NODE_BYTES);
    var rb := BytesNet(lb.net, right, NODE_BYTES);
    var t := ThNet(rb.net, dom.ids, lb.ids + rb.ids, NODE_BYTES);
    NodeNet(t.net, t.ids, 4)
  }

  lemma ChildrenAre(n: Net, left: seq<nat>, right: seq<nat>, env: seq<Word>, lv: Node, rv: Node)
    requires Ready(n, env) && |left| == |right| == 4 && AreWords(On(n, env), left, lv) && AreWords(On(n, env), right, rv)
    ensures var lb := BytesNet(n, left, NODE_BYTES);
            var rb := BytesNet(lb.net, right, NODE_BYTES);
            Grows(n, rb.net, env, 0) && Carries(On(rb.net, env), lb.ids + rb.ids, NodeBytes(lv) + NodeBytes(rv))
  {
    hide PlainRun, Legal, Cost, On, Ready, BytesNet, Bytes, Carries, AreWords;
    var lb := BytesNet(n, left, NODE_BYTES);
    BytesIs(n, left, NODE_BYTES, env, lv);
    WordsKept(On(n, env), On(lb.net, env), right, rv);
    var rb := BytesNet(lb.net, right, NODE_BYTES);
    BytesIs(lb.net, right, NODE_BYTES, env, rv);
    CarriesKept(On(lb.net, env), On(rb.net, env), lb.ids, NodeBytes(lv));
    CarriesJoin(On(rb.net, env), lb.ids, rb.ids, NodeBytes(lv), NodeBytes(rv));
  }

  lemma ParentIs(n: Net, left: seq<nat>, right: seq<nat>, seed: seq<nat>, li: nat, h: nat, env: seq<Word>, sb: Seed, lv: Node, rv: Node, idx: Word)
    requires Ready(n, env) && |left| == |right| == 4 && |seed| == 16
    requires Carries(On(n, env), seed, sb) && AreWords(On(n, env), left, lv) && AreWords(On(n, env), right, rv) && Is(On(n, env), li, idx)
    ensures MakesWords(n, ParentNet(n, left, right, seed, li, h), env, 336, HashTreeNode(sb, lv, rv, h, Shr(idx, h + 1)))
  {
    hide PlainRun, Legal, Cost, On, Ready, TreeDomainNet, BytesNet, ThNet, NodeNet, Th, NodeOf, Bytes, LittleEndian, Carries, AreWords, Byte8, Shr;
    var dom, domB := TreeDomainNet(n, seed, li, h), sb + [Byte8(TWEAK_TREE)] + [Byte8(h)] + LittleEndian(Shr(idx, h + 1));
    TreeDomainIs(n, seed, li, h, env, sb, idx);
    WordsKept(On(n, env), On(dom.net, env), left, lv);
    WordsKept(On(n, env), On(dom.net, env), right, rv);
    var lb := BytesNet(dom.net, left, NODE_BYTES);
    var rb, dataB := BytesNet(lb.net, right, NODE_BYTES), NodeBytes(lv) + NodeBytes(rv);
    ChildrenAre(dom.net, left, right, env, lv, rv);
    CarriesKept(On(dom.net, env), On(rb.net, env), dom.ids, domB);
    var t := ThNet(rb.net, dom.ids, lb.ids + rb.ids, NODE_BYTES);
    ThIs(rb.net, dom.ids, lb.ids + rb.ids, NODE_BYTES, env, domB, dataB);
    WholeNodeIs(t.net, t.ids, env, Th(domB, dataB, NODE_BYTES));
  }

  method EmitParent(n: Net, left: seq<nat>, right: seq<nat>, seed: seq<nat>, li: nat, h: nat) returns (o: Bundle)
    requires |left| == |right| == 4 && |seed| == 16
    ensures o == ParentNet(n, left, right, seed, li, h)
  {
    hide ConstsNet, BytesNet, ThNet, NodeNet, Byte8;
    var t := EmitConsts(n, [Byte8(TWEAK_TREE), Byte8(h)]);
    var x := t.net.Map(ShiftRight(h + 1), li);
    var b := EmitBytes(x.net, [x.id], 4);
    var lb := EmitBytes(b.net, left, NODE_BYTES);
    var rb := EmitBytes(lb.net, right, NODE_BYTES);
    var ok, hd := EmitTh(rb.net, seed + t.ids + b.ids, lb.ids + rb.ids, NODE_BYTES);
    o := EmitNode(hd.net, hd.ids);
  }

  /** h levels, 340 gates each. */
  function ClimbNet(n: Net, leaf: seq<nat>, path: seq<nat>, li: nat, seed: seq<nat>, h: nat): (o: Bundle)
    requires |leaf| == 4 && |path| == NODE_BYTES * HEIGHT && |seed| == 16 && h <= HEIGHT
    ensures |o.ids| == 4
    decreases |path|, h
  {
    hide OrderedNet, ParentNet;
    if h == 0 then Bundle(n, leaf)
    else
      var o := ClimbNet(n, leaf, path, li, seed, h - 1);
      var p := OrderedNet(o.net, o.ids, path[16 * (h - 1)..16 * h], li, h - 1);
      ParentNet(p.net, p.left, p.right, seed, li, h - 1)
  }

  lemma LevelIs(n: Net, node: seq<nat>, sibBytes: seq<nat>, li: nat, seed: seq<nat>, h: nat, env: seq<Word>, sb: Seed, nv: Node, sibB: seq<Byte>, idx: Word)
    requires Ready(n, env) && |node| == 4 && |sibBytes| == |sibB| == NODE_BYTES && h < 32 && |seed| == 16
    requires Carries(On(n, env), seed, sb) && AreWords(On(n, env), node, nv) && Is(On(n, env), li, idx) && Carries(On(n, env), sibBytes, sibB)
    ensures var p := OrderedNet(n, node, sibBytes, li, h);
            var o := ParentNet(p.net, p.left, p.right, seed, li, h);
            && Grows(n, o.net, env, 340)
            && AreWords(On(o.net, env), o.ids, if idx[h] then HashTreeNode(sb, NodeOf(sibB), nv, h, Shr(idx, h + 1))
                                               else HashTreeNode(sb, nv, NodeOf(sibB), h, Shr(idx, h + 1)))
  {
    hide PlainRun, Legal, Cost, On, Ready, OrderedNet, ParentNet, NodeOf, HashTreeNode, Shr, Carries, AreWords;
    var p, sv := OrderedNet(n, node, sibBytes, li, h), NodeOf(sibB);
    OrderedIs(n, node, sibBytes, li, h, env, nv, sibB, idx);
    CarriesKept(On(n, env), On(p.net, env), seed, sb);
    ParentIs(p.net, p.left, p.right, seed, li, h, env, sb, if idx[h] then sv else nv, if idx[h] then nv else sv, idx);
  }

  lemma {:induction false} ClimbIs(n: Net, leaf: seq<nat>, path: seq<nat>, li: nat, seed: seq<nat>, h: nat, env: seq<Word>,
                                   sb: Seed, lv: Node, pathB: seq<Byte>, idx: Word)
    requires Ready(n, env) && |leaf| == 4 && |path| == |pathB| == NODE_BYTES * HEIGHT && |seed| == 16 && h <= HEIGHT
    requires Carries(On(n, env), seed, sb) && AreWords(On(n, env), leaf, lv) && Is(On(n, env), li, idx) && Carries(On(n, env), path, pathB)
    ensures MakesWords(n, ClimbNet(n, leaf, path, li, seed, h), env, 340 * h, Climb(sb, lv, idx, NodesIn(pathB, 0, HEIGHT)[..h]))
  {
    hide PlainRun, Legal, Cost, On, Ready, OrderedNet, ParentNet, NodeOf, HashTreeNode, Shr, Carries, AreWords;
    var nodes := NodesIn(pathB, 0, HEIGHT);
    if h > 0 {
      ClimbIs(n, leaf, path, li, seed, h - 1, env, sb, lv, pathB, idx);
      var o, lo := ClimbNet(n, leaf, path, li, seed, h - 1), 16 * (h - 1);
      CarriesKept(On(n, env), On(o.net, env), seed, sb);
      CarriesKept(On(n, env), On(o.net, env), path, pathB);
      CarriesSlice(On(o.net, env), path, pathB, lo, lo + 16);
      assert nodes[h - 1] == NodeOf(pathB[lo..lo + 16]);
      assert nodes[..h][..h - 1] == nodes[..h - 1];
      LevelIs(o.net, o.ids, path[lo..lo + 16], li, seed, h - 1, env, sb, Climb(sb, lv, idx, nodes[..h - 1]), pathB[lo..lo + 16], idx);
    }
  }

  method EmitClimb(n: Net, leaf: seq<nat>, path: seq<nat>, li: nat, seed: seq<nat>) returns (o: Bundle)
    requires |leaf| == 4 && |path| == NODE_BYTES * HEIGHT && |seed| == 16
    ensures o == ClimbNet(n, leaf, path, li, seed, HEIGHT)
  {
    hide NodeNet, SwapNet, ParentNet;
    o := Bundle(n, leaf);
    for h := 0 to HEIGHT
      invariant o == ClimbNet(n, leaf, path, li, seed, h)
    {
      var mask := o.net.Map(SpreadBit(h), li);
      var sib := EmitNode(mask.net, path[16 * h..16 * h + 16]);
      var p := EmitSwap(sib.net, mask.id, o.ids, sib.ids);
      o := EmitParent(p.net, p.left, p.right, seed, li, h);
    }
  }

  // ---- coordinate sum and leftover bits ------------------------------------

  lemma ExtValue(b: Byte)
    ensures ToNat(Ext(b)) == ToNat(b)
  {
    hide ToNat;
    var bits: Bits := b;
    ToNatAppend(bits, Zeros(24));
    ToNatZeros(24);
    assert Ext(b) == bits + Zeros(24);
  }

  lemma SumAdds(a: nat, b: nat)
    requires a < 1000 && b < 256
    ensures Words.Add(Word32(a), Ext(Byte8(b))) == Word32(a + b)
  {
    hide ToNat, Word32, Byte8, Words.Add, Ext;
    WordValue(a);
    ByteValue(b);
    ExtValue(Byte8(b));
    WordValue(a + b);
    AddIsModular(Word32(a), Ext(Byte8(b)));
    Pow32();
    ToNatInjective(Words.Add(Word32(a), Ext(Byte8(b))), Word32(a + b));
  }

  /** The sum of the first i coordinates, one addition each. */
  function SumNet(n: Net, mh: seq<nat>, i: nat): Wired
    requires |mh| >= 16 && i <= CHAINS
    decreases |mh|, i
  {
    hide CoordNet;
    if i == 0 then n.Const(ZERO)
    else
      var o := SumNet(n, mh, i - 1);
      var t := CoordNet(o.net, mh, i - 1, 3);
      t.net.Add(o.id, t.id)
  }

  lemma SumNext(d: Digest, i: nat)
    requires 0 < i <= CHAINS
    ensures Sum(Coords(d)[..i - 1]) < 1000 && Sum(Coords(d)[..i]) == Sum(Coords(d)[..i - 1]) + Coord(d, i - 1)
  {
    hide Coord;
    var cs := Coords(d);
    SumBound(cs[..i - 1], MAX_STEPS);
    assert cs[..i][..i - 1] == cs[..i - 1];
  }

  lemma {:induction false} SumIs(n: Net, mh: seq<nat>, i: nat, env: seq<Word>, d: Digest)
    requires Ready(n, env) && |mh| >= 16 && Carries(On(n, env), mh, d) && i <= CHAINS
    ensures MakesWord(n, SumNet(n, mh, i), env, i, Word32(Sum(Coords(d)[..i])))
  {
    hide PlainRun, Legal, Cost, On, Ready, CoordNet, Word32, Coord, Coords, Sum, Words.Add, Ext, Carries;
    var cs := Coords(d);
    if i == 0 {
      ConstIs(n, ZERO, env);
      NoSum(d);
      ZeroWord();
    } else {
      SumIs(n, mh, i - 1, env, d);
      var o := SumNet(n, mh, i - 1);
      CarriesKept(On(n, env), On(o.net, env), mh, d);
      var t := CoordNet(o.net, mh, i - 1, 3);
      CoordIs(o.net, mh, i - 1, env, d);
      AddIs(t.net, o.id, t.id, env, Word32(Sum(cs[..i - 1])), Ext(Byte8(Coord(d, i - 1))));
      SumNext(d, i);
      SumAdds(Sum(cs[..i - 1]), Coord(d, i - 1));
    }
  }

  lemma NoSum(d: Digest)
    ensures Sum(Coords(d)[..0]) == 0
  {
  }

  method EmitSum(n: Net, mh: seq<nat>) returns (o: Wired)
    requires |mh| >= 16
    ensures o == SumNet(n, mh, CHAINS)
  {
    hide CoordNet;
    o := n.Const(ZERO);
    for i := 0 to CHAINS
      invariant o == SumNet(n, mh, i)
    {
      var t := EmitCoord(o.net, mh, i);
      o := t.net.Add(o.id, t.id);
    }
  }

  lemma ZeroWord()
    ensures Word32(0) == ZERO
  {
    WordValue(0);
    ToNatZeros(32);
    ToNatInjective(Word32(0), ZERO);
  }

  function Leftover(d: Digest): Word
  {
    Words.Xor(BitWord(DigestBit(d, 63)), Shl(BitWord(DigestBit(d, 127)), 1))
  }

  lemma LeftoverZero(d: Digest)
    ensures Leftover(d) == ZERO <==> LeftoverClear(d)
  {
    var w := Leftover(d);
    assert w[0] == DigestBit(d, 63) && w[1] == DigestBit(d, 127);
    if LeftoverClear(d) { assert w == ZERO; }
  }

  function LeftoverNet(n: Net, mh: seq<nat>): Wired
    requires |mh| >= 16
  {
    var t := BitNet(n, mh[7], 7);
    var u := BitNet(t.net, mh[15], 7);
    var v := u.net.Map(ShiftLeft(1), u.id);
    v.net.Xor(t.id, v.id)
  }

  lemma LeftoverIs(n: Net, mh: seq<nat>, env: seq<Word>, d: Digest)
    requires Ready(n, env) && |mh| >= 16 && Carries(On(n, env), mh, d)
    ensures MakesWord(n, LeftoverNet(n, mh), env, 0, Leftover(d))
  {
    hide PlainRun, Legal, Cost, On, Ready, BitNet, Words.Xor, Shl, BitWord;
    var t := BitNet(n, mh[7], 7);
    BitNetIs(n, mh[7], 7, env, Ext(d[7]));
    var u := BitNet(t.net, mh[15], 7);
    BitNetIs(t.net, mh[15], 7, env, Ext(d[15]));
    var v := u.net.Map(ShiftLeft(1), u.id);
    MapIs(u.net, ShiftLeft(1), u.id, env, BitWord(DigestBit(d, 127)));
    XorIs(v.net, t.id, v.id, env, BitWord(DigestBit(d, 63)), Shl(BitWord(DigestBit(d, 127)), 1));
  }

  // ---- the inputs ----------------------------------------------------------

  const MESSAGE_OFF: nat := WITNESS_LEN
  const SEED_OFF: nat := MESSAGE_OFF + 32
  const INPUTS: nat := SEED_OFF + 16
  const GATES: nat := 94186

  /** Witness bytes, then message and key seed. */
  function Given(message: seq<Byte>, seed: Seed, w: Witness): (env: seq<Word>)
    requires |message| == 32
    ensures |env| == INPUTS
  {
    ExtAll(w + message + seed)
  }

  /** The input wires lo..hi. */
  function Inputs(lo: nat, hi: nat): (ids: seq<nat>)
    requires lo <= hi
    ensures |ids| == hi - lo && forall i :: 0 <= i < |ids| ==> ids[i] == lo + i
  {
    seq(hi - lo, i requires 0 <= i < hi - lo => lo + i)
  }

  lemma WitnessCarried(vs: seq<Word>, message: seq<Byte>, seed: Seed, w: Witness, lo: nat, hi: nat)
    requires |message| == 32 && Given(message, seed, w) <= vs && lo <= hi <= WITNESS_LEN
    ensures Carries(vs, Inputs(lo, hi), w[lo..hi])
  {
    hide Ext;
    var all := w + message + seed;
    assert forall k :: lo <= k < hi ==> vs[k] == Ext(all[k]);
  }

  lemma PublicsCarried(vs: seq<Word>, message: seq<Byte>, seed: Seed, w: Witness)
    requires |message| == 32 && Given(message, seed, w) <= vs
    ensures Carries(vs, Inputs(MESSAGE_OFF, SEED_OFF), message) && Carries(vs, Inputs(SEED_OFF, INPUTS), seed)
  {
    hide Ext;
    var all := w + message + seed;
    assert forall k :: 0 <= k < INPUTS ==> vs[k] == Ext(all[k]);
  }

  /** The public output an accepting run must show: root, target sum, and zeros. */
  function PubOut(root: Node): (o: seq<Word>)
    ensures |o| == 8
  {
    root + [Word32(TARGET_SUM), ZERO, ZERO, ZERO]
  }

  function KeyIn(seed: Seed, w: Witness): ChainKey
  {
    ChainKey(seed, w[LEAF_OFF..NONCE_OFF])
  }

  function MessageDigest(message: seq<Byte>, seed: Seed, w: Witness): Digest
    requires |message| == 32
  {
    HashMessage(seed, w[LEAF_OFF..NONCE_OFF], w[NONCE_OFF..SIG_OFF], DigestIn(message, w))
  }

  function WalkedNodes(message: seq<Byte>, seed: Seed, w: Witness): (ns: seq<Node>)
    requires |message| == 32
    ensures |ns| == CHAINS
  {
    NodesAt(KeyIn(seed, w), NodesIn(w, SIG_OFF, CHAINS), Coords(MessageDigest(message, seed, w)), ScheduleIn(w), |ScheduleIn(w)|)
  }

  /** The pool's check word. */
  function FinalCheck(message: seq<Byte>, seed: Seed, w: Witness): Word
    requires |message| == 32
  {
    CheckWord(Coords(MessageDigest(message, seed, w)), ScheduleIn(w))
  }

  /** The leaf the walked chains hash to. */
  function WalkedLeaf(message: seq<Byte>, seed: Seed, w: Witness): Node
    requires |message| == 32
  {
    HashPublicKey(seed, w[LEAF_OFF..NONCE_OFF], WalkedNodes(message, seed, w))
  }

  function RootAbove(seed: Seed, w: Witness, leaf: Node): Node
  {
    Climb(seed, leaf, LeafWord(w[LEAF_OFF..NONCE_OFF]), NodesIn(w, PATH_OFF, HEIGHT))
  }

  function ClimbedRoot(message: seq<Byte>, seed: Seed, w: Witness): Node
    requires |message| == 32
  {
    RootAbove(seed, w, WalkedLeaf(message, seed, w))
  }

  /** The circuit's four checks: root, coordinate sum, leftover bits, pool. */
  predicate Checks(climbed: Node, root: Node, d: Digest, sched: seq<nat>)
  {
    climbed == root && Sum(Coords(d)) == TARGET_SUM && LeftoverClear(d) && Complete(Coords(d), sched)
  }

  /** The four checks together are the statement. */
  lemma ChecksAreStatement(message: seq<Byte>, seed: Seed, root: Node, w: Witness)
    requires |message| == 32
    ensures Satisfies(message, seed, root, w) <==> Checks(ClimbedRoot(message, seed, w), root, MessageDigest(message, seed, w), ScheduleIn(w))
  {
    hide HashMessage, CommitDigest, Climb, HashPublicKey, Chain, NodesAt;
    var d := MessageDigest(message, seed, w);
    LeafRoundTrip(w[LEAF_OFF..NONCE_OFF]);
    if Complete(Coords(d), ScheduleIn(w)) {
      CompleteMeaning(KeyIn(seed, w), NodesIn(w, SIG_OFF, CHAINS), Coords(d), ScheduleIn(w));
      assert WalkedNodes(message, seed, w) == EndpointsFrom(KeyIn(seed, w), NodesIn(w, SIG_OFF, CHAINS), Coords(d));
    }
  }

  lemma SliceSlice(w: seq<Byte>, a: nat, b: nat, lo: nat, hi: nat)
    requires a <= b <= |w| && lo <= hi <= b - a
    ensures w[a..b][lo..hi] == w[a + lo..a + hi]
  {
    var x, y := w[a..b][lo..hi], w[a + lo..a + hi];
    assert |x| == |y|;
    forall k | 0 <= k < |x|
      ensures x[k] == y[k]
    {
    }
  }

  lemma NodesInSlice(w: Witness)
    ensures NodesIn(w[PATH_OFF..SCHEDULE_OFF], 0, HEIGHT) == NodesIn(w, PATH_OFF, HEIGHT)
  {
    var p := w[PATH_OFF..SCHEDULE_OFF];
    forall i | 0 <= i < HEIGHT
      ensures NodesIn(p, 0, HEIGHT)[i] == NodesIn(w, PATH_OFF, HEIGHT)[i]
    {
      SliceSlice(w, PATH_OFF, SCHEDULE_OFF, 16 * i, 16 * i + 16);
    }
  }

  // ---- the circuit ---------------------------------------------------------

  /** Word v of the first i chain tips. */
  function TipColumnNet(n: Net, ids: seq<nat>, v: nat, i: nat): (o: Bundle)
    requires |ids| == NODE_BYTES * CHAINS && v < 4 && i <= CHAINS
    ensures |o.ids| == i
    decreases |ids|, i
  {
    hide LoadNet;
    if i == 0 then Bundle(n, [])
    else
      var o := TipColumnNet(n, ids, v, i - 1);
      var z := LoadNet(o.net, ids, 4 * (i - 1) + v, 4);
      Bundle(z.net, o.ids + [z.id])
  }

  lemma TipWord(w: Witness, i: nat, v: nat)
    requires i < CHAINS && v < 4
    ensures LoadWord(w[SIG_OFF..PATH_OFF], 4 * i + v) == NodesIn(w, SIG_OFF, CHAINS)[i][v]
  {
    var b := w[SIG_OFF..PATH_OFF];
    var n := w[SIG_OFF + 16 * i..SIG_OFF + 16 * i + 16];
    assert forall k :: 0 <= k < 16 ==> b[16 * i + k] == n[k];
    assert NodeOf(n)[v] == LoadWord(n, v);
  }

  lemma {:induction false} TipColumnIs(n: Net, ids: seq<nat>, v: nat, i: nat, env: seq<Word>, w: Witness)
    requires Ready(n, env) && |ids| == NODE_BYTES * CHAINS && v < 4 && i <= CHAINS && Carries(On(n, env), ids, w[SIG_OFF..PATH_OFF])
    ensures MakesWords(n, TipColumnNet(n, ids, v, i), env, 0, WordColumn(NodesIn(w, SIG_OFF, CHAINS), v)[..i])
  {
    hide PlainRun, Legal, Cost, On, Ready, LoadNet, LoadWord, Carries, NodesIn;
    if i > 0 {
      TipColumnIs(n, ids, v, i - 1, env, w);
      var o := TipColumnNet(n, ids, v, i - 1);
      CarriesKept(On(n, env), On(o.net, env), ids, w[SIG_OFF..PATH_OFF]);
      LoadIs(o.net, ids, 4 * (i - 1) + v, env, w[SIG_OFF..PATH_OFF]);
      TipWord(w, i - 1, v);
    }
  }

  /** The signature's chain tips as columns of words, the first v of them. */
  function TipsNet(n: Net, ids: seq<nat>, v: nat): (o: Nodes)
    requires |ids| == NODE_BYTES * CHAINS && v <= 4
    ensures |o.cols| == v && forall u :: 0 <= u < v ==> |o.cols[u]| == CHAINS
    decreases |ids|, v
  {
    hide TipColumnNet;
    if v == 0 then Nodes(n, [])
    else
      var o := TipsNet(n, ids, v - 1);
      var c := TipColumnNet(o.net, ids, v - 1, CHAINS);
      Nodes(c.net, o.cols + [c.ids])
  }

  lemma {:induction false} TipsAre(n: Net, ids: seq<nat>, v: nat, env: seq<Word>, w: Witness)
    requires Ready(n, env) && |ids| == NODE_BYTES * CHAINS && v <= 4 && Carries(On(n, env), ids, w[SIG_OFF..PATH_OFF])
    ensures var o := TipsNet(n, ids, v);
            && Grows(n, o.net, env, 0)
            && forall u :: 0 <= u < v ==> AreWords(On(o.net, env), o.cols[u], WordColumn(NodesIn(w, SIG_OFF, CHAINS), u))
  {
    hide PlainRun, Legal, Cost, On, Ready, TipColumnNet, Carries, NodesIn, WordColumn;
    if v > 0 {
      TipsAre(n, ids, v - 1, env, w);
      var o, col := TipsNet(n, ids, v - 1), WordColumn(NodesIn(w, SIG_OFF, CHAINS), v - 1);
      CarriesKept(On(n, env), On(o.net, env), ids, w[SIG_OFF..PATH_OFF]);
      TipColumnIs(o.net, ids, v - 1, CHAINS, env, w);
      assert col[..CHAINS] == col;
    }
  }

  method EmitTips(n: Net, ids: seq<nat>) returns (o: Nodes)
    requires |ids| == NODE_BYTES * CHAINS
    ensures o == TipsNet(n, ids, 4)
  {
    hide LoadNet;
    o := Nodes(n, []);
    for v := 0 to 4
      invariant o == TipsNet(n, ids, v)
    {
      var c := Bundle(o.net, []);
      for i := 0 to CHAINS
        invariant c == TipColumnNet(o.net, ids, v, i)
      {
        var z := EmitLoad(c.net, ids, 4 * i + v);
        c := Bundle(z.net, c.ids + [z.id]);
      }
      o := Nodes(c.net, o.cols + [c.ids]);
    }
  }

  /** Commitment and message hash: 9168 gates. */
  function FrontNet(n: Net): (o: Bundle)
    ensures |o.ids| == 32
  {
    hide CommitNet, MessageHashNet;
    var d := CommitNet(n, Inputs(MESSAGE_OFF, SEED_OFF), Inputs(0, R_LEN), Inputs(A_OFF, LEAF_OFF));
    MessageHashNet(d.net, Inputs(SEED_OFF, INPUTS), Inputs(LEAF_OFF, NONCE_OFF), Inputs(NONCE_OFF, SIG_OFF), d.ids)
  }

  lemma FrontIs(n: Net, env: seq<Word>, message: seq<Byte>, seed: Seed, w: Witness)
    requires Ready(n, env) && |message| == 32 && Given(message, seed, w) <= On(n, env)
    ensures MakesBytes(n, FrontNet(n), env, 9168, MessageDigest(message, seed, w))
  {
    hide PlainRun, Legal, Cost, On, Ready, CommitNet, MessageHashNet, HashMessage, CommitDigest, Carries, Given;
    PublicsCarried(On(n, env), message, seed, w);
    WitnessCarried(On(n, env), message, seed, w, 0, R_LEN);
    WitnessCarried(On(n, env), message, seed, w, A_OFF, LEAF_OFF);
    var d := CommitNet(n, Inputs(MESSAGE_OFF, SEED_OFF), Inputs(0, R_LEN), Inputs(A_OFF, LEAF_OFF));
    CommitIs(n, Inputs(MESSAGE_OFF, SEED_OFF), Inputs(0, R_LEN), Inputs(A_OFF, LEAF_OFF), env, message, w[..R_LEN], w[A_OFF..LEAF_OFF]);
    PublicsCarried(On(d.net, env), message, seed, w);
    WitnessCarried(On(d.net, env), message, seed, w, LEAF_OFF, NONCE_OFF);
    WitnessCarried(On(d.net, env), message, seed, w, NONCE_OFF, SIG_OFF);
    MessageHashIs(d.net, Inputs(SEED_OFF, INPUTS), Inputs(LEAF_OFF, NONCE_OFF), Inputs(NONCE_OFF, SIG_OFF), d.ids, env,
                  seed, w[LEAF_OFF..NONCE_OFF], w[NONCE_OFF..SIG_OFF], DigestIn(message, w));
  }

  datatype Walked = Walked(net: Net, leaf: seq<nat>, check: nat)

  /** Pooled chains and leaf: 70400 + 3696 gates. */
  function WalkNet(n: Net, mh: seq<nat>): (o: Walked)
    requires |mh| >= 16
    ensures |o.leaf| == 4
  {
    hide TipsNet, ChainsNet, LeafNet;
    var t := TipsNet(n, Inputs(SIG_OFF, PATH_OFF), 4);
    var c := ChainsNet(t.net, t.cols, mh, Inputs(SCHEDULE_OFF, WITNESS_LEN), Inputs(SEED_OFF, INPUTS), Inputs(LEAF_OFF, NONCE_OFF));
    var l := LeafNet(c.net, c.cols, Inputs(SEED_OFF, INPUTS), Inputs(LEAF_OFF, NONCE_OFF));
    Walked(l.net, l.ids, c.check)
  }

  predicate WalkedFrom(n: Net, o: Walked, env: seq<Word>, message: seq<Byte>, seed: Seed, w: Witness)
    requires Ready(n, env) && |message| == 32
  {
    && Grows(n, o.net, env, 74096) && AreWords(On(o.net, env), o.leaf, WalkedLeaf(message, seed, w))
    && Is(On(o.net, env), o.check, FinalCheck(message, seed, w))
  }

  lemma WalkIs(n: Net, mh: seq<nat>, env: seq<Word>, message: seq<Byte>, seed: Seed, w: Witness)
    requires Ready(n, env) && |message| == 32 && Given(message, seed, w) <= On(n, env)
    requires |mh| >= 16 && Carries(On(n, env), mh, MessageDigest(message, seed, w))
    ensures WalkedFrom(n, WalkNet(n, mh), env, message, seed, w)
    ensures FinalCheck(message, seed, w) == ZERO <==> Complete(Coords(MessageDigest(message, seed, w)), ScheduleIn(w))
  {
    hide PlainRun, Legal, Cost, On, Ready, TipsNet, ChainsNet, LeafNet, MessageDigest, HashPublicKey, NodesAt, CheckWord, Complete, Coords, Indices,
      Carries, NodesIn, WordColumn, Given, AreWords;
    var d, ids, sched, sd, ep := MessageDigest(message, seed, w), Inputs(SIG_OFF, PATH_OFF), Inputs(SCHEDULE_OFF, WITNESS_LEN),
      Inputs(SEED_OFF, INPUTS), Inputs(LEAF_OFF, NONCE_OFF);
    WitnessCarried(On(n, env), message, seed, w, SIG_OFF, PATH_OFF);
    var t := TipsNet(n, ids, 4);
    TipsAre(n, ids, 4, env, w);
    CarriesKept(On(n, env), On(t.net, env), mh, d);
    PublicsCarried(On(t.net, env), message, seed, w);
    WitnessCarried(On(t.net, env), message, seed, w, SCHEDULE_OFF, WITNESS_LEN);
    WitnessCarried(On(t.net, env), message, seed, w, LEAF_OFF, NONCE_OFF);
    assert w[SCHEDULE_OFF..WITNESS_LEN] == w[SCHEDULE_OFF..];
    var c := ChainsNet(t.net, t.cols, mh, sched, sd, ep);
    ChainsAre(t.net, t.cols, mh, sched, sd, ep, env, KeyIn(seed, w), NodesIn(w, SIG_OFF, CHAINS), d, w[SCHEDULE_OFF..]);
    PublicsCarried(On(c.net, env), message, seed, w);
    WitnessCarried(On(c.net, env), message, seed, w, LEAF_OFF, NONCE_OFF);
    LeafIs(c.net, c.cols, sd, ep, env, seed, w[LEAF_OFF..NONCE_OFF], WalkedNodes(message, seed, w));
  }

  /** The climb from the leaf: 32 levels. */
  function RootNet(n: Net, leaf: seq<nat>): (o: Bundle)
    requires |leaf| == 4
    ensures |o.ids| == 4
  {
    hide LoadNet, ClimbNet;
    var li := LoadNet(n, [LEAF_OFF + 3, LEAF_OFF + 2, LEAF_OFF + 1, LEAF_OFF], 0, 4);
    ClimbNet(li.net, leaf, Inputs(PATH_OFF, SCHEDULE_OFF), li.id, Inputs(SEED_OFF, INPUTS), HEIGHT)
  }

  lemma EpochReversed(vs: seq<Word>, eb: seq<Byte>)
    requires |eb| == 4 && Carries(vs, Inputs(LEAF_OFF, NONCE_OFF), eb)
    ensures Carries(vs, [LEAF_OFF + 3, LEAF_OFF + 2, LEAF_OFF + 1, LEAF_OFF], [eb[3], eb[2], eb[1], eb[0]])
  {
    hide Ext;
    var ids := Inputs(LEAF_OFF, NONCE_OFF);
    assert Is(vs, ids[0], Ext(eb[0])) && Is(vs, ids[1], Ext(eb[1])) && Is(vs, ids[2], Ext(eb[2])) && Is(vs, ids[3], Ext(eb[3]));
  }

  lemma RootIs(n: Net, leaf: seq<nat>, env: seq<Word>, message: seq<Byte>, seed: Seed, w: Witness, lv: Node)
    requires Ready(n, env) && |message| == 32 && Given(message, seed, w) <= On(n, env) && |leaf| == 4 && AreWords(On(n, env), leaf, lv)
    ensures MakesWords(n, RootNet(n, leaf), env, 10880, RootAbove(seed, w, lv))
  {
    hide PlainRun, Legal, Cost, On, Ready, LoadNet, ClimbNet, Climb, LoadWord, NodesIn, Carries, Given, AreWords;
    var eb := w[LEAF_OFF..NONCE_OFF];
    WitnessCarried(On(n, env), message, seed, w, LEAF_OFF, NONCE_OFF);
    EpochReversed(On(n, env), eb);
    var li := LoadNet(n, [LEAF_OFF + 3, LEAF_OFF + 2, LEAF_OFF + 1, LEAF_OFF], 0, 4);
    LoadIs(n, [LEAF_OFF + 3, LEAF_OFF + 2, LEAF_OFF + 1, LEAF_OFF], 0, env, [eb[3], eb[2], eb[1], eb[0]]);
    PublicsCarried(On(li.net, env), message, seed, w);
    WitnessCarried(On(li.net, env), message, seed, w, PATH_OFF, SCHEDULE_OFF);
    WordsKept(On(n, env), On(li.net, env), leaf, lv);
    ClimbIs(li.net, leaf, Inputs(PATH_OFF, SCHEDULE_OFF), li.id, Inputs(SEED_OFF, INPUTS), HEIGHT, env, seed, lv, w[PATH_OFF..SCHEDULE_OFF], LeafWord(eb));
    NodesInSlice(w);
    assert NodesIn(w, PATH_OFF, HEIGHT)[..HEIGHT] == NodesIn(w, PATH_OFF, HEIGHT);
  }

  /** The whole circuit on its input wires, and its eight output wires. */
  function StatementNet(): (o: Bundle)
    ensures |o.ids| == 8
  {
    hide FrontNet, WalkNet, RootNet, SumNet, LeftoverNet;
    var mh := FrontNet(Net(INPUTS, []));
    var k := WalkNet(mh.net, mh.ids);
    var r := RootNet(k.net, k.leaf);
    var sum := SumNet(r.net, mh.ids, CHAINS);
    var left := LeftoverNet(sum.net, mh.ids);
    var zero := left.net.Const(ZERO);
    Bundle(zero.net, r.ids + [sum.id, left.id, k.check, zero.id])
  }

  lemma EmptyReady(env: seq<Word>)
    ensures Ready(Net(|env|, []), env) && On(Net(|env|, []), env) == env && Cost([]) == 0
  {
  }

  /** What the eight output wires carry. */
  function Shown(message: seq<Byte>, seed: Seed, w: Witness): (o: seq<Word>)
    requires |message| == 32
    ensures |o| == 8
  {
    var d := MessageDigest(message, seed, w);
    ClimbedRoot(message, seed, w) + [Word32(Sum(Coords(d))), Leftover(d), FinalCheck(message, seed, w), ZERO]
  }

  /** On every witness, message and key seed: exactly 94186 AND and ADD gates, and the outputs are those of
      the native computation. */
  lemma StatementShows(message: seq<Byte>, seed: Seed, w: Witness)
    requires |message| == 32
    ensures Ready(StatementNet().net, Given(message, seed, w)) && Cost(StatementNet().net.gates) == GATES
    ensures AreWords(On(StatementNet().net, Given(message, seed, w)), StatementNet().ids, Shown(message, seed, w))
    ensures FinalCheck(message, seed, w) == ZERO <==> Complete(Coords(MessageDigest(message, seed, w)), ScheduleIn(w))
  {
    hide PlainRun, Legal, Cost, On, Ready, FrontNet, WalkNet, RootNet, SumNet, LeftoverNet, MessageDigest, WalkedLeaf, RootAbove, Coords,
      Word32, Leftover, FinalCheck, Complete, ScheduleIn, Given, Carries;
    var env, d, leaf := Given(message, seed, w), MessageDigest(message, seed, w), WalkedLeaf(message, seed, w);
    var n := Net(INPUTS, []);
    EmptyReady(env);
    var mh := FrontNet(n);
    FrontIs(n, env, message, seed, w);
    var k := WalkNet(mh.net, mh.ids);
    WalkIs(mh.net, mh.ids, env, message, seed, w);
    var r := RootNet(k.net, k.leaf);
    RootIs(k.net, k.leaf, env, message, seed, w, leaf);
    CarriesKept(On(mh.net, env), On(r.net, env), mh.ids, d);
    var sum := SumNet(r.net, mh.ids, CHAINS);
    SumIs(r.net, mh.ids, CHAINS, env, d);
    assert Coords(d)[..CHAINS] == Coords(d);
    CarriesKept(On(mh.net, env), On(sum.net, env), mh.ids, d);
    var left := LeftoverNet(sum.net, mh.ids);
    LeftoverIs(sum.net, mh.ids, env, d);
    ConstIs(left.net, ZERO, env);
  }

  /** On this witness, message and key seed, the net's outputs are the public output of the root iff the
      witness satisfies the statement. */
  predicate Decides(net: Net, outs: seq<nat>, message: seq<Byte>, seed: Seed, root: Node, w: Witness)
    requires |message| == 32
  {
    var env := Given(message, seed, w);
    && Ready(net, env) && Cost(net.gates) == GATES && Within(outs, |On(net, env)|)
    && (Vals(On(net, env), outs) == PubOut(root) <==> Satisfies(message, seed, root, w))
  }

  /** One gate list decides every statement: its eight output words are the public output of a root iff the
      witness satisfies the statement for that message, key seed and root. */
  lemma StatementDecides(message: seq<Byte>, seed: Seed, root: Node, w: Witness)
    requires |message| == 32
    ensures Decides(StatementNet().net, StatementNet().ids, message, seed, root, w)
  {
    hide PlainRun, Legal, Cost, On, Ready, StatementNet, MessageDigest, ClimbedRoot, Coords, Word32, Leftover, FinalCheck, Complete, ScheduleIn, Given,
      Satisfies, PubOut;
    var env, o, d := Given(message, seed, w), StatementNet(), MessageDigest(message, seed, w);
    StatementShows(message, seed, w);
    AreVals(On(o.net, env), o.ids, Shown(message, seed, w));
    ChecksAreStatement(message, seed, root, w);
    OutputsMatch(ClimbedRoot(message, seed, w), root, d, FinalCheck(message, seed, w));
  }

  method EmitFront(n: Net) returns (o: Bundle)
    ensures o == FrontNet(n)
  {
    hide CommitNet, MessageHashNet;
    var d := EmitCommit(n, Inputs(MESSAGE_OFF, SEED_OFF), Inputs(0, R_LEN), Inputs(A_OFF, LEAF_OFF));
    o := EmitMessageHash(d.net, Inputs(SEED_OFF, INPUTS), Inputs(LEAF_OFF, NONCE_OFF), Inputs(NONCE_OFF, SIG_OFF), d.ids);
  }

  method EmitWalk(n: Net, mh: seq<nat>) returns (o: Walked)
    requires |mh| >= 16
    ensures o == WalkNet(n, mh)
  {
    hide TipsNet, ChainsNet, LeafNet;
    var t := EmitTips(n, Inputs(SIG_OFF, PATH_OFF));
    var c := EmitChains(t.net, t.cols, mh, Inputs(SCHEDULE_OFF, WITNESS_LEN), Inputs(SEED_OFF, INPUTS), Inputs(LEAF_OFF, NONCE_OFF));
    var l := EmitLeaf(c.net, c.cols, Inputs(SEED_OFF, INPUTS), Inputs(LEAF_OFF, NONCE_OFF));
    o := Walked(l.net, l.ids, c.check);
  }

  method EmitRoot(n: Net, leaf: seq<nat>) returns (o: Bundle)
    requires |leaf| == 4
    ensures o == RootNet(n, leaf)
  {
    hide LoadNet, ClimbNet;
    var li := EmitLoad(n, [LEAF_OFF + 3, LEAF_OFF + 2, LEAF_OFF + 1, LEAF_OFF], 0);
    o := EmitClimb(li.net, leaf, Inputs(PATH_OFF, SCHEDULE_OFF), li.id, Inputs(SEED_OFF, INPUTS));
  }

  /** Builds the circuit once, for every message, key seed, root and witness. */
  method BuildStatement() returns (net: Net, outs: seq<nat>)
    ensures net == StatementNet().net && outs == StatementNet().ids
    ensures forall message: seq<Byte>, seed: Seed, root: Node, w: Witness :: |message| == 32 ==> Decides(net, outs, message, seed, root, w)
  {
    hide FrontNet, WalkNet, RootNet, SumNet, LeftoverNet, Decides;
    var mh := EmitFront(Net(INPUTS, []));
    var k := EmitWalk(mh.net, mh.ids);
    var r := EmitRoot(k.net, k.leaf);
    var sum := EmitSum(r.net, mh.ids);
    var left := LeftoverNet(sum.net, mh.ids);
    var zero := left.net.Const(ZERO);
    net, outs := zero.net, r.ids + [sum.id, left.id, k.check, zero.id];
    forall message: seq<Byte>, seed: Seed, root: Node, w: Witness | |message| == 32
      ensures Decides(net, outs, message, seed, root, w)
    {
      StatementDecides(message, seed, root, w);
    }
  }

  lemma OutputsMatch(n: Node, root: Node, d: Digest, k: Word)
    ensures n + [Word32(Sum(Coords(d))), Leftover(d), k, ZERO] == PubOut(root) <==>
              n == root && Sum(Coords(d)) == TARGET_SUM && LeftoverClear(d) && k == ZERO
  {
    hide Word32, Leftover, Coords;
    var a, b := n + [Word32(Sum(Coords(d))), Leftover(d), k, ZERO], PubOut(root);
    SumBound(Coords(d), MAX_STEPS);
    WordValue(Sum(Coords(d)));
    WordValue(TARGET_SUM);
    LeftoverZero(d);
    if a == b {
      assert n == a[..4] && root == b[..4];
      assert a[4] == b[4] && a[5] == b[5] && a[6] == b[6];
    }
  }
}
