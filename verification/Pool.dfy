/** The pooled chain gadget: a schedule of one-byte chain indices, in any order, steps 42 chains through
    one shared hash. A one-hot selector replaces indexing and four byte-sized position counters share a word. */
module Pool {
  import opened Words
  import opened Sharing
  import opened Engine
  import opened Builder
  import opened Blake3
  import opened Wots
  import opened Codeword

  const GROUPS: nat := 11

  // ---- what the gadget computes --------------------------------------------

  function Indices(sched: seq<Byte>): (r: seq<nat>)
    ensures |r| == |sched|
  {
    seq(|sched|, i requires 0 <= i < |sched| => ToNat(sched[i]))
  }

  /** Chain c's position after k steps. */
  function PositionAt(coords: seq<nat>, s: seq<nat>, c: nat, k: nat): nat
    requires |coords| == CHAINS && c < CHAINS && k <= |s|
  {
    coords[c] + Count(s, c, k)
  }

  function NodesAt(key: ChainKey, tips: seq<Node>, coords: seq<nat>, s: seq<nat>, k: nat): (r: seq<Node>)
    requires |tips| == CHAINS && |coords| == CHAINS && k <= |s|
    ensures |r| == CHAINS
  {
    seq(CHAINS, c requires 0 <= c < CHAINS => Chain(key, tips[c], c, coords[c], Count(s, c, k)))
  }

  /** The schedule is complete: valid indices only, and every chain stepped exactly 7 - coord times. */
  predicate Complete(coords: seq<nat>, s: seq<nat>)
    requires |coords| == CHAINS
  {
    && (forall i :: 0 <= i < |s| ==> s[i] < CHAINS)
    && (forall c :: 0 <= c < CHAINS ==> coords[c] + Count(s, c, |s|) == MAX_STEPS)
  }

  // ---- one-hot selection ---------------------------------------------------

  function FullWord(b: bool): (w: Word)
    ensures forall i :: 0 <= i < 32 ==> w[i] == b
  {
    if b then ONES else ZERO
  }

  /** Bit `lane` is set iff candidate 32g + lane is i and is a chain. */
  function OneHot(g: nat, i: nat): (w: Word)
    ensures forall lane :: 0 <= lane < 32 ==> w[lane] == (32 * g + lane == i && i < CHAINS)
  {
    seq(32, lane requires 0 <= lane < 32 => 32 * g + lane == i && i < CHAINS)
  }

  /** Bit `lane` of the public pattern for index bit b: that bit of candidate 32g + lane, inverted. */
  function Pattern(g: nat, b: nat): (w: Word)
    ensures forall lane :: 0 <= lane < 32 ==> w[lane] == (Up(32 * g + lane, b) % 2 != 1)
  {
    seq(32, lane requires 0 <= lane < 32 => Up(32 * g + lane, b) % 2 != 1)
  }

  /** Candidate v matches an index byte on its b low bits. */
  predicate MatchesTo(x: Byte, v: nat, b: nat)
    requires b <= 8
  {
    forall i :: 0 <= i < b ==> x[i] == (Up(v, i) % 2 == 1)
  }

  lemma MatchIsEqual(x: Byte, v: nat)
    requires v < 256
    ensures MatchesTo(x, v, 8) <==> ToNat(x) == v
  {
    assert Pow2(8) == 256;
    FromToNat(v, 8);
    forall i | 0 <= i < 8
      ensures FromNat(v, 8)[i] == (Up(v, i) % 2 == 1)
    {
      FromNatBit(v, 8, i);
    }
    if MatchesTo(x, v, 8) {
      assert x == FromNat(v, 8);
    }
    if ToNat(x) == v {
      ToNatInjective(x, FromNat(v, 8));
    }
  }

  lemma {:induction false} ParityOneHot(w: Word, k: nat, n: nat)
    requires n <= 32 && forall i :: 0 <= i < 32 ==> w[i] == (i == k)
    ensures ParityTo(w, n) == (k < n)
  {
    if n > 0 { ParityOneHot(w, k, n - 1); }
  }

  // ---- packed positions ----------------------------------------------------

  /** Four byte-sized counters in a word. */
  function Packed(a: nat, b: nat, c: nat, d: nat): Word
  {
    var lo: Bits := Byte8(a);
    lo + Byte8(b) + Byte8(c) + Byte8(d)
  }

  lemma ByteValue(a: nat)
    requires a < 256
    ensures ToNat(Byte8(a)) == a
  {
    ByteRead(a);
  }

  lemma PairValue(x: Bits, y: Bits)
    requires |x| == 8
    ensures ToNat(x + y) == ToNat(x) + 256 * ToNat(y)
  {
    assert Pow2(8) == 256;
    ToNatAppend(x, y);
  }

  lemma PackedValue(a: nat, b: nat, c: nat, d: nat)
    requires a < 256 && b < 256 && c < 256 && d < 256
    ensures ToNat(Packed(a, b, c, d)) == a + 256 * b + 65536 * c + 16777216 * d
  {
    hide ToNat, Byte8;
    ByteValue(a);
    ByteValue(b);
    ByteValue(c);
    ByteValue(d);
    var x, y, z, w: Bits := Byte8(a), Byte8(b), Byte8(c), Byte8(d);
    PairValue(x, y + (z + w));
    PairValue(y, z + w);
    PairValue(z, w);
    assert Packed(a, b, c, d) == x + (y + (z + w));
  }

  lemma ByteBits()
    ensures forall i :: 0 <= i < 8 ==> Byte8(1)[i] == (i == 0) && !Byte8(0)[i]
  {
    forall i | 0 <= i < 8
      ensures Byte8(1)[i] == (i == 0) && !Byte8(0)[i]
    {
      FromZero(8, i);
      if i > 0 { FromZero(7, i - 1); }
    }
  }

  lemma ByteShiftValue(lane: nat)
    requires lane < 4
    ensures Shl(BitWord(true), 8 * lane)
         == Packed(if lane == 0 then 1 else 0, if lane == 1 then 1 else 0, if lane == 2 then 1 else 0, if lane == 3 then 1 else 0)
  {
    hide Byte8;
    ByteBits();
    var p := Packed(if lane == 0 then 1 else 0, if lane == 1 then 1 else 0, if lane == 2 then 1 else 0, if lane == 3 then 1 else 0);
    forall k | 0 <= k < 32
      ensures p[k] == (k == 8 * lane)
    {
    }
  }

  /** No counter carries into its neighbour while all stay below 256. */
  lemma PackedAdds(a: nat, b: nat, c: nat, d: nat, a': nat, b': nat, c': nat, d': nat)
    requires a + a' < 256 && b + b' < 256 && c + c' < 256 && d + d' < 256
    ensures Add(Packed(a, b, c, d), Packed(a', b', c', d')) == Packed(a + a', b + b', c + c', d + d')
  {
    hide ToNat, Packed, Add;
    var x, y, z := Packed(a, b, c, d), Packed(a', b', c', d'), Packed(a + a', b + b', c + c', d + d');
    PackedValue(a, b, c, d);
    PackedValue(a', b', c', d');
    PackedValue(a + a', b + b', c + c', d + d');
    AddIsModular(x, y);
    Pow32();
    assert ToNat(x) + ToNat(y) == ToNat(z);
    assert ToNat(z) < 4294967296;
    assert ToNat(Add(x, y)) == ToNat(z);
    ToNatInjective(Add(x, y), z);
  }

  // ---- the selector --------------------------------------------------------

  function Keep10(): Word { Ones(10) + Zeros(22) }

  /** Bit `lane` is set iff candidate 32g + lane matches the index byte on its b low bits. */
  function MatchWord(x: Byte, g: nat, b: nat): (w: Word)
    requires b <= 8
    ensures forall lane :: 0 <= lane < 32 ==> w[lane] == MatchesTo(x, 32 * g + lane, b)
  {
    seq(32, lane requires 0 <= lane < 32 => MatchesTo(x, 32 * g + lane, b))
  }

  function MatchBit(x: Byte, g: nat, b: nat): Word
    requires b < 8
  {
    Words.Xor(Broadcast(Ext(x), b), Pattern(g, b))
  }

  lemma MatchStart(x: Byte, g: nat)
    ensures MatchBit(x, g, 0) == MatchWord(x, g, 1)
  {
    hide Up;
  }

  lemma MatchStep(x: Byte, g: nat, b: nat)
    requires b < 8
    ensures Words.And(MatchWord(x, g, b), MatchBit(x, g, b)) == MatchWord(x, g, b + 1)
  {
    hide Up;
  }

  lemma MatchAll(x: Byte)
    ensures MatchWord(x, 0, 8) == OneHot(0, ToNat(x))
    ensures Words.And(Keep10(), MatchWord(x, 1, 8)) == OneHot(1, ToNat(x))
  {
    hide MatchesTo, ToNat;
    forall lane | 0 <= lane < 32
      ensures MatchWord(x, 0, 8)[lane] == OneHot(0, ToNat(x))[lane]
      ensures Words.And(Keep10(), MatchWord(x, 1, 8))[lane] == OneHot(1, ToNat(x))[lane]
    {
      MatchIsEqual(x, lane);
      MatchIsEqual(x, 32 + lane);
    }
  }

  /** One bit of the index against all 32 candidates. */
  function MatchNet(n: Net, idx: nat, g: nat, b: BitIndex): Wired
  {
    var t := n.Map(SpreadBit(b), idx);
    t.net.XorConst(t.id, Pattern(g, b))
  }

  lemma MatchIs(n: Net, idx: nat, g: nat, b: nat, env: seq<Word>, x: Byte)
    requires Ready(n, env) && Is(On(n, env), idx, Ext(x)) && b < 8
    ensures MakesWord(n, MatchNet(n, idx, g, b), env, 0, MatchBit(x, g, b))
  {
    hide PlainRun, Legal, Cost, On, Ready, Broadcast, Words.Xor, Ext, Pattern;
    var t := n.Map(SpreadBit(b), idx);
    MapIs(n, SpreadBit(b), idx, env, Ext(x));
    XorConstIs(t.net, t.id, Pattern(g, b), env, Broadcast(Ext(x), b));
  }

  /** Equality tests of the b low bits on 32 candidates at once. */
  function GroupNet(n: Net, idx: nat, g: nat, b: nat): Wired
    requires 1 <= b <= 8
    decreases n.inputs, b
  {
    if b == 1 then MatchNet(n, idx, g, 0)
    else
      var o := GroupNet(n, idx, g, b - 1);
      var t := MatchNet(o.net, idx, g, b - 1);
      t.net.And(o.id, t.id)
  }

  lemma {:induction false} GroupIs(n: Net, idx: nat, g: nat, b: nat, env: seq<Word>, x: Byte)
    requires Ready(n, env) && Is(On(n, env), idx, Ext(x)) && 1 <= b <= 8
    ensures MakesWord(n, GroupNet(n, idx, g, b), env, b - 1, MatchWord(x, g, b))
  {
    hide PlainRun, Legal, Cost, On, Ready, MatchNet, MatchBit, MatchWord, Ext, Words.And;
    if b == 1 {
      MatchIs(n, idx, g, 0, env, x);
      MatchStart(x, g);
    } else {
      GroupIs(n, idx, g, b - 1, env, x);
      var o := GroupNet(n, idx, g, b - 1);
      var t := MatchNet(o.net, idx, g, b - 1);
      MatchIs(o.net, idx, g, b - 1, env, x);
      AndIs(t.net, o.id, t.id, env, MatchWord(x, g, b - 1), MatchBit(x, g, b - 1));
      MatchStep(x, g, b - 1);
    }
  }

  method EmitGroup(n: Net, idx: nat, g: nat) returns (o: Wired)
    ensures o == GroupNet(n, idx, g, 8)
  {
    hide MatchNet;
    o := MatchNet(n, idx, g, 0);
    for b := 1 to 8
      invariant o == GroupNet(n, idx, g, b)
    {
      var t := MatchNet(o.net, idx, g, b);
      o := t.net.And(o.id, t.id);
    }
  }

  function OrNet(n: Net, x: nat, y: nat): Wired
  {
    var t := n.And(x, y);
    var z := t.net.Xor(x, y);
    z.net.Xor(z.id, t.id)
  }

  lemma OrIs(n: Net, x: nat, y: nat, env: seq<Word>, a: Word, b: Word)
    requires Ready(n, env) && Is(On(n, env), x, a) && Is(On(n, env), y, b)
    ensures MakesWord(n, OrNet(n, x, y), env, 1, Or(a, b))
  {
    hide PlainRun, Legal, Cost, On, Ready;
    var t := n.And(x, y);
    AndIs(n, x, y, env, a, b);
    var z := t.net.Xor(x, y);
    XorIs(t.net, x, y, env, a, b);
    XorIs(z.net, z.id, t.id, env, Words.Xor(a, b), Words.And(a, b));
    assert Words.Xor(Words.Xor(a, b), Words.And(a, b)) == Or(a, b);
  }

  /** The failure bit of one index: the parity of a one-hot selector is clear iff no chain is named. */
  function InvalidNet(n: Net, check: nat, oh0: nat, oh1: nat): Wired
  {
    var z := n.Xor(oh0, oh1);
    var p := z.net.Map(ParityBit, z.id);
    var i := p.net.XorConst(p.id, BitWord(true));
    OrNet(i.net, check, i.id)
  }

  lemma InvalidWord(i: nat, bad: bool)
    ensures var w := Words.Xor(Apply(ParityBit, Words.Xor(OneHot(0, i), OneHot(1, i))), BitWord(true));
            w == BitWord(i >= CHAINS) && Or(BitWord(bad), w) == BitWord(bad || i >= CHAINS)
  {
    var v := Words.Xor(OneHot(0, i), OneHot(1, i));
    var k := if i < 32 then i else if i < CHAINS then i - 32 else 32;
    assert forall lane :: 0 <= lane < 32 ==> v[lane] == (lane == k);
    ParityOneHot(v, k, 32);
    hide OneHot, ParityTo;
    assert Words.Xor(BitWord(k < 32), BitWord(true)) == BitWord(i >= CHAINS);
    assert Or(BitWord(bad), BitWord(i >= CHAINS)) == BitWord(bad || i >= CHAINS);
  }

  lemma InvalidIs(n: Net, check: nat, oh0: nat, oh1: nat, env: seq<Word>, i: nat, bad: bool)
    requires Ready(n, env) && Is(On(n, env), oh0, OneHot(0, i)) && Is(On(n, env), oh1, OneHot(1, i))
    requires Is(On(n, env), check, BitWord(bad))
    ensures MakesWord(n, InvalidNet(n, check, oh0, oh1), env, 1, BitWord(bad || i >= CHAINS))
  {
    hide PlainRun, Legal, Cost, On, Ready, Words.Xor, OneHot, Apply, BitWord, Or, OrNet;
    var v := Words.Xor(OneHot(0, i), OneHot(1, i));
    var z := n.Xor(oh0, oh1);
    XorIs(n, oh0, oh1, env, OneHot(0, i), OneHot(1, i));
    var p := z.net.Map(ParityBit, z.id);
    MapIs(z.net, ParityBit, z.id, env, v);
    var t := p.net.XorConst(p.id, BitWord(true));
    XorConstIs(p.net, p.id, BitWord(true), env, Apply(ParityBit, v));
    OrIs(t.net, check, t.id, env, BitWord(bad), Words.Xor(Apply(ParityBit, v), BitWord(true)));
    InvalidWord(i, bad);
  }

  /** All ones for the indexed chain, zero elsewhere. */
  function MaskWords(i: nat): (r: seq<Word>)
    ensures |r| == CHAINS && forall k :: 0 <= k < CHAINS ==> r[k] == FullWord(k == i)
  {
    var r: seq<Bits> := seq(CHAINS, k requires 0 <= k < CHAINS => FullWord(k == i));
    assert forall k :: 0 <= k < CHAINS ==> r[k] == FullWord(k == i);
    r
  }

  function MasksNet(n: Net, oh0: nat, oh1: nat, k: nat): (o: Bundle)
    ensures |o.ids| == k
    decreases n.inputs, k
  {
    if k == 0 then Bundle(n, [])
    else
      var o := MasksNet(n, oh0, oh1, k - 1);
      var z := o.net.Map(SpreadBit((k - 1) % 32), if k - 1 < 32 then oh0 else oh1);
      Bundle(z.net, o.ids + [z.id])
  }

  lemma MaskWord(i: nat, k: nat)
    requires k < CHAINS
    ensures Broadcast(OneHot(k / 32, i), k % 32) == FullWord(k == i)
  {
  }

  lemma {:induction false} MasksAre(n: Net, oh0: nat, oh1: nat, k: nat, env: seq<Word>, i: nat)
    requires Ready(n, env) && Is(On(n, env), oh0, OneHot(0, i)) && Is(On(n, env), oh1, OneHot(1, i)) && k <= CHAINS
    ensures MakesWords(n, MasksNet(n, oh0, oh1, k), env, 0, MaskWords(i)[..k])
  {
    hide PlainRun, Legal, Cost, On, Ready, OneHot, FullWord, Broadcast;
    if k > 0 {
      MasksAre(n, oh0, oh1, k - 1, env, i);
      var o := MasksNet(n, oh0, oh1, k - 1);
      MapIs(o.net, SpreadBit((k - 1) % 32), if k - 1 < 32 then oh0 else oh1, env, OneHot((k - 1) / 32, i));
      MaskWord(i, k - 1);
    }
  }

  datatype Selector = Selector(net: Net, check: nat, masks: seq<nat>)

  /** One-hot selector, sticky failure bit, one mask per chain. */
  function SelectorNet(n: Net, idx: nat, check: nat): (o: Selector)
    ensures |o.masks| == CHAINS
  {
    hide GroupNet, InvalidNet, MasksNet;
    var oh0 := GroupNet(n, idx, 0, 8);
    var t := GroupNet(oh0.net, idx, 1, 8);
    var oh1 := t.net.Map(KeepBits(Keep10()), t.id);
    var c := InvalidNet(oh1.net, check, oh0.id, oh1.id);
    var m := MasksNet(c.net, oh0.id, oh1.id, CHAINS);
    Selector(m.net, c.id, m.ids)
  }

  lemma SelectorIs(n: Net, idx: nat, check: nat, env: seq<Word>, x: Byte, bad: bool)
    requires Ready(n, env) && Is(On(n, env), idx, Ext(x)) && Is(On(n, env), check, BitWord(bad))
    ensures var o := SelectorNet(n, idx, check);
            && Grows(n, o.net, env, 15) && Is(On(o.net, env), o.check, BitWord(bad || ToNat(x) >= CHAINS))
            && AreWords(On(o.net, env), o.masks, MaskWords(ToNat(x)))
  {
    hide PlainRun, Legal, Cost, On, Ready, GroupNet, InvalidNet, MasksNet, MatchWord, OneHot, ToNat, BitWord, Ext, Words.And, MaskWords;
    var oh0 := GroupNet(n, idx, 0, 8);
    GroupIs(n, idx, 0, 8, env, x);
    var t := GroupNet(oh0.net, idx, 1, 8);
    GroupIs(oh0.net, idx, 1, 8, env, x);
    var oh1 := t.net.Map(KeepBits(Keep10()), t.id);
    MapIs(t.net, KeepBits(Keep10()), t.id, env, MatchWord(x, 1, 8));
    MatchAll(x);
    var c := InvalidNet(oh1.net, check, oh0.id, oh1.id);
    InvalidIs(oh1.net, check, oh0.id, oh1.id, env, ToNat(x), bad);
    MasksAre(c.net, oh0.id, oh1.id, CHAINS, env, ToNat(x));
    assert MaskWords(ToNat(x))[..CHAINS] == MaskWords(ToNat(x));
  }

  method EmitSelector(n: Net, idx: nat, check: nat) returns (o: Selector)
    ensures o == SelectorNet(n, idx, check)
  {
    hide GroupNet, InvalidNet;
    var oh0 := EmitGroup(n, idx, 0);
    var t := EmitGroup(oh0.net, idx, 1);
    var oh1 := t.net.Map(KeepBits(Keep10()), t.id);
    var c := InvalidNet(oh1.net, check, oh0.id, oh1.id);
    var m := Bundle(c.net, []);
    for k := 0 to CHAINS
      invariant m == MasksNet(c.net, oh0.id, oh1.id, k)
    {
      var z := m.net.Map(SpreadBit(k % 32), if k < 32 then oh0.id else oh1.id);
      m := Bundle(z.net, m.ids + [z.id]);
    }
    o := Selector(m.net, c.id, m.ids);
  }

  // ---- selecting a node ----------------------------------------------------

  lemma FullZero()
    ensures FullWord(false) == ZERO
  {
  }

  lemma FullXor(a: bool, b: bool)
    ensures Words.Xor(FullWord(a), FullWord(b)) == FullWord(a != b)
  {
  }

  lemma FullAnd(b: bool, w: Word)
    ensures Words.And(FullWord(b), w) == if b then w else ZERO
  {
  }

  lemma XorZero(w: Word)
    ensures Words.Xor(w, ZERO) == w && Words.Xor(ZERO, w) == w
  {
  }

  /** The masked XOR of the first k entries of a column. */
  function SelectNet(n: Net, masks: seq<nat>, col: seq<nat>, k: nat): Wired
    requires |masks| == CHAINS && |col| == CHAINS && k <= CHAINS
    decreases |masks|, k
  {
    if k == 0 then n.Const(ZERO)
    else
      var o := SelectNet(n, masks, col, k - 1);
      var t := o.net.And(masks[k - 1], col[k - 1]);
      t.net.Xor(o.id, t.id)
  }

  lemma {:induction false} SelectIs(n: Net, masks: seq<nat>, col: seq<nat>, k: nat, env: seq<Word>, i: nat, ws: seq<Word>)
    requires Ready(n, env) && |masks| == |col| == |ws| == CHAINS && k <= CHAINS
    requires AreWords(On(n, env), masks, MaskWords(i)) && AreWords(On(n, env), col, ws)
    ensures MakesWord(n, SelectNet(n, masks, col, k), env, k, if i < k then ws[i] else ZERO)
  {
    hide PlainRun, Legal, Cost, On, Ready, FullWord, Words.And, Words.Xor;
    if k == 0 {
      ConstIs(n, ZERO, env);
    } else {
      SelectIs(n, masks, col, k - 1, env, i, ws);
      var o := SelectNet(n, masks, col, k - 1);
      var t := o.net.And(masks[k - 1], col[k - 1]);
      AndIs(o.net, masks[k - 1], col[k - 1], env, FullWord(k - 1 == i), ws[k - 1]);
      FullAnd(k - 1 == i, ws[k - 1]);
      XorIs(t.net, o.id, t.id, env, if i < k - 1 then ws[i] else ZERO, if k - 1 == i then ws[k - 1] else ZERO);
      XorZero(ws[k - 1]);
      if i < k - 1 { XorZero(ws[i]); }
      XorZero(ZERO);
    }
  }

  method EmitSelect(n: Net, masks: seq<nat>, col: seq<nat>) returns (o: Wired)
    requires |masks| == CHAINS && |col| == CHAINS
    ensures o == SelectNet(n, masks, col, CHAINS)
  {
    o := n.Const(ZERO);
    for k := 0 to CHAINS
      invariant o == SelectNet(n, masks, col, k)
    {
      var t := o.net.And(masks[k], col[k]);
      o := t.net.Xor(o.id, t.id);
    }
  }

  /** The chains' nodes are kept word by word: cols[w][c] is word w of chain c. */
  predicate Columns(cols: seq<seq<nat>>)
  {
    |cols| == 4 && forall w :: 0 <= w < 4 ==> |cols[w]| == CHAINS
  }

  predicate NodesHold(vs: seq<Word>, cols: seq<seq<nat>>, ns: seq<Node>)
  {
    |cols| == 4 && forall w :: 0 <= w < 4 ==> AreWords(vs, cols[w], WordColumn(ns, w))
  }

  lemma NodesKept(a: seq<Word>, b: seq<Word>, cols: seq<seq<nat>>, ns: seq<Node>)
    requires a <= b && NodesHold(a, cols, ns)
    ensures NodesHold(b, cols, ns)
  {
    hide WordColumn;
  }

  function WordColumn(ns: seq<Node>, w: nat): (r: seq<Word>)
    requires w < 4
    ensures |r| == |ns| && forall k :: 0 <= k < |r| ==> r[k] == ns[k][w]
  {
    seq(|ns|, k requires 0 <= k < |ns| => ns[k][w])
  }

  const ZERO_NODE: Node := [ZERO, ZERO, ZERO, ZERO]

  function Selected(ns: seq<Node>, i: nat): Node
  {
    if i < |ns| then ns[i] else ZERO_NODE
  }

  function Replaced(ns: seq<Node>, i: nat, h: Node): (r: seq<Node>)
    ensures |r| == |ns|
  {
    if i < |ns| then ns[i := h] else ns
  }

  function SelectNodeNet(n: Net, masks: seq<nat>, cols: seq<seq<nat>>, w: nat): (o: Bundle)
    requires |masks| == CHAINS && Columns(cols) && w <= 4
    ensures |o.ids| == w
    decreases |masks|, w
  {
    hide SelectNet;
    if w == 0 then Bundle(n, [])
    else
      var o := SelectNodeNet(n, masks, cols, w - 1);
      var z := SelectNet(o.net, masks, cols[w - 1], CHAINS);
      Bundle(z.net, o.ids + [z.id])
  }

  lemma {:induction false} SelectNodeIs(n: Net, masks: seq<nat>, cols: seq<seq<nat>>, w: nat, env: seq<Word>, i: nat, ns: seq<Node>)
    requires Ready(n, env) && |masks| == |ns| == CHAINS && w <= 4 && Columns(cols)
    requires AreWords(On(n, env), masks, MaskWords(i)) && NodesHold(On(n, env), cols, ns)
    ensures MakesWords(n, SelectNodeNet(n, masks, cols, w), env, 42 * w, Selected(ns, i)[..w])
  {
    hide PlainRun, Legal, Cost, On, Ready, SelectNet, MaskWords;
    if w > 0 {
      SelectNodeIs(n, masks, cols, w - 1, env, i, ns);
      var o := SelectNodeNet(n, masks, cols, w - 1);
      WordsKept(On(n, env), On(o.net, env), masks, MaskWords(i));
      WordsKept(On(n, env), On(o.net, env), cols[w - 1], WordColumn(ns, w - 1));
      SelectIs(o.net, masks, cols[w - 1], CHAINS, env, i, WordColumn(ns, w - 1));
    }
  }

  method EmitSelectNode(n: Net, masks: seq<nat>, cols: seq<seq<nat>>) returns (o: Bundle)
    requires |masks| == CHAINS && Columns(cols)
    ensures o == SelectNodeNet(n, masks, cols, 4)
  {
    hide SelectNet;
    o := Bundle(n, []);
    for w := 0 to 4
      invariant o == SelectNodeNet(n, masks, cols, w)
    {
      var z := EmitSelect(o.net, masks, cols[w]);
      o := Bundle(z.net, o.ids + [z.id]);
    }
  }

  // ---- positions -----------------------------------------------------------

  function PAt(p: seq<nat>, c: nat): nat
  {
    if c < |p| then p[c] else 0
  }

  /** Group g's counters; the last group has two chains only. */
  function PosWord(p: seq<nat>, g: nat): Word
  {
    Packed(PAt(p, 4 * g), PAt(p, 4 * g + 1), PAt(p, 4 * g + 2), PAt(p, 4 * g + 3))
  }

  function Bumped(p: seq<nat>, i: nat): (r: seq<nat>)
    ensures |r| == |p|
  {
    if i < |p| then p[i := p[i] + 1] else p
  }

  /** The increment word of group g: one at the indexed chain's byte. */
  function Increment(g: nat, i: nat): Word
  {
    if 4 * g <= i < 4 * g + 4 && i < CHAINS then Shl(BitWord(true), 8 * (i - 4 * g)) else ZERO
  }

  lemma PackedZero()
    ensures Packed(0, 0, 0, 0) == ZERO
  {
    ByteBits();
  }

  lemma PAtBound(p: seq<nat>)
    requires forall c :: 0 <= c < |p| ==> p[c] < 255
    ensures forall c :: PAt(p, c) < 255
  {
  }

  lemma PAtBumped(p: seq<nat>, i: nat, c: nat)
    ensures PAt(Bumped(p, i), c) == PAt(p, c) + if c == i && i < |p| then 1 else 0
  {
  }

  lemma PosWordAdvances(p: seq<nat>, g: nat, i: nat)
    requires |p| == CHAINS && forall c :: 0 <= c < CHAINS ==> p[c] < 255
    ensures Add(PosWord(p, g), Increment(g, i)) == PosWord(Bumped(p, i), g)
  {
    hide Packed, Add, Shl, BitWord, Bumped, PAt;
    PAtBumped(p, i, 4 * g);
    PAtBumped(p, i, 4 * g + 1);
    PAtBumped(p, i, 4 * g + 2);
    PAtBumped(p, i, 4 * g + 3);
    assert forall c :: PAt(p, c) < 255 by { PAtBound(p); }
    var a, b, d, e := PAt(p, 4 * g), PAt(p, 4 * g + 1), PAt(p, 4 * g + 2), PAt(p, 4 * g + 3);
    if 4 * g <= i < 4 * g + 4 && i < CHAINS {
      var lane := i - 4 * g;
      ByteShiftValue(lane);
      PackedAdds(a, b, d, e, if lane == 0 then 1 else 0, if lane == 1 then 1 else 0,
                 if lane == 2 then 1 else 0, if lane == 3 then 1 else 0);
    } else {
      PackedZero();
      PackedAdds(a, b, d, e, 0, 0, 0, 0);
    }
  }

  lemma LowBitShift(b: bool, n: nat)
    ensures Shl(Words.And(BitWord(true), FullWord(b)), n) == if b then Shl(BitWord(true), n) else ZERO
  {
    assert Words.And(BitWord(true), FullWord(b)) == BitWord(b);
    assert Shl(BitWord(false), n) == ZERO;
  }

  datatype Lanes = Lanes(net: Net, inc: nat, gm: nat)

  /** XORs one chain's low mask bit into the increment and its mask into the group mask. */
  function LaneNet(n: Net, mask: nat, inc: nat, gm: nat, lane: nat): Lanes
  {
    var t := n.Map(KeepBits(BitWord(true)), mask);
    var u := t.net.Map(ShiftLeft(8 * lane), t.id);
    var a := u.net.Xor(inc, u.id);
    var b := a.net.Xor(gm, mask);
    Lanes(b.net, a.id, b.id)
  }

  lemma LaneIs(n: Net, mask: nat, inc: nat, gm: nat, lane: nat, env: seq<Word>, hit: bool, w: Word, any: bool)
    requires Ready(n, env) && Is(On(n, env), mask, FullWord(hit)) && Is(On(n, env), inc, w) && Is(On(n, env), gm, FullWord(any))
    ensures var o := LaneNet(n, mask, inc, gm, lane);
            && Grows(n, o.net, env, 0)
            && Is(On(o.net, env), o.inc, Words.Xor(w, if hit then Shl(BitWord(true), 8 * lane) else ZERO))
            && Is(On(o.net, env), o.gm, FullWord(any != hit))
  {
    hide PlainRun, Legal, Cost, On, Ready, Words.Xor, Words.And, Shl, FullWord, BitWord;
    var t := n.Map(KeepBits(BitWord(true)), mask);
    MapIs(n, KeepBits(BitWord(true)), mask, env, FullWord(hit));
    var u := t.net.Map(ShiftLeft(8 * lane), t.id);
    MapIs(t.net, ShiftLeft(8 * lane), t.id, env, Words.And(BitWord(true), FullWord(hit)));
    LowBitShift(hit, 8 * lane);
    var a := u.net.Xor(inc, u.id);
    XorIs(u.net, inc, u.id, env, w, if hit then Shl(BitWord(true), 8 * lane) else ZERO);
    XorIs(a.net, gm, mask, env, FullWord(any), FullWord(hit));
    FullXor(any, hit);
  }

  /** How many chains group g has. */
  function LanesOf(g: nat): (k: nat)
    requires g < GROUPS
    ensures k <= 4 && 4 * g + k <= CHAINS && (k == 4 || 4 * g + k == CHAINS)
  {
    if 4 * g + 4 <= CHAINS then 4 else CHAINS - 4 * g
  }

  /** Group g's increment and selection mask from the masks of its first lanes. */
  function LanesNet(n: Net, masks: seq<nat>, g: nat, lane: nat): Lanes
    requires |masks| == CHAINS && lane <= 4 && 4 * g + lane <= CHAINS
    decreases |masks|, lane
  {
    if lane == 0 then
      var a := n.Const(ZERO);
      var b := a.net.Const(ZERO);
      Lanes(b.net, a.id, b.id)
    else
      var o := LanesNet(n, masks, g, lane - 1);
      LaneNet(o.net, masks[4 * g + lane - 1], o.inc, o.gm, lane - 1)
  }

  function IncrementTo(g: nat, i: nat, lane: nat): Word
  {
    if 4 * g <= i < 4 * g + lane then Shl(BitWord(true), 8 * (i - 4 * g)) else ZERO
  }

  lemma IncrementCases(g: nat, i: nat)
    requires g < GROUPS
    ensures Increment(g, i) == IncrementTo(g, i, LanesOf(g))
  {
  }

  lemma {:induction false} LanesAre(n: Net, masks: seq<nat>, g: nat, lane: nat, env: seq<Word>, i: nat)
    requires Ready(n, env) && |masks| == CHAINS && lane <= 4 && 4 * g + lane <= CHAINS
    requires AreWords(On(n, env), masks, MaskWords(i))
    ensures var o := LanesNet(n, masks, g, lane);
            && Grows(n, o.net, env, 0)
            && Is(On(o.net, env), o.inc, IncrementTo(g, i, lane)) && Is(On(o.net, env), o.gm, FullWord(4 * g <= i < 4 * g + lane))
  {
    hide PlainRun, Legal, Cost, On, Ready, LaneNet, Words.Xor, Shl, FullWord, BitWord;
    if lane == 0 {
      ConstIs(n, ZERO, env);
      ConstIs(n.Const(ZERO).net, ZERO, env);
      FullZero();
    } else {
      LanesAre(n, masks, g, lane - 1, env, i);
      var o := LanesNet(n, masks, g, lane - 1);
      var k := 4 * g + lane - 1;
      LaneIs(o.net, masks[k], o.inc, o.gm, lane - 1, env, k == i, IncrementTo(g, i, lane - 1), 4 * g <= i < k);
      XorZero(IncrementTo(g, i, lane - 1));
      XorZero(Shl(BitWord(true), 8 * (lane - 1)));
    }
  }

  datatype Advanced = Advanced(net: Net, positions: seq<nat>, position: nat)

  /** Steps the indexed chain's counter in the first g groups, and selects its group word. */
  function AdvanceNet(n: Net, masks: seq<nat>, positions: seq<nat>, g: nat): (o: Advanced)
    requires |masks| == CHAINS && |positions| == GROUPS && g <= GROUPS
    ensures |o.positions| == g
    decreases |masks|, g
  {
    hide LanesNet;
    if g == 0 then
      var z := n.Const(ZERO);
      Advanced(z.net, [], z.id)
    else
      var o := AdvanceNet(n, masks, positions, g - 1);
      var l := LanesNet(o.net, masks, g - 1, LanesOf(g - 1));
      var q := l.net.Add(positions[g - 1], l.inc);
      var t := q.net.And(l.gm, q.id);
      var p := t.net.Xor(o.position, t.id);
      Advanced(p.net, o.positions + [q.id], p.id)
  }

  function PosWords(p: seq<nat>): (r: seq<Word>)
    ensures |r| == GROUPS && forall g :: 0 <= g < GROUPS ==> r[g] == PosWord(p, g)
  {
    var r: seq<Bits> := seq(GROUPS, g requires 0 <= g < GROUPS => PosWord(p, g));
    assert forall g :: 0 <= g < GROUPS ==> r[g] == PosWord(p, g);
    r
  }

  lemma AdvanceGroupIs(n: Net, masks: seq<nat>, group: nat, position: nat, g: nat, env: seq<Word>, i: nat, p: seq<nat>, w: Word)
    requires Ready(n, env) && |masks| == |p| == CHAINS && g < GROUPS && (forall k :: 0 <= k < CHAINS ==> p[k] < 255)
    requires AreWords(On(n, env), masks, MaskWords(i)) && Is(On(n, env), group, PosWord(p, g)) && Is(On(n, env), position, w)
    ensures var l := LanesNet(n, masks, g, LanesOf(g));
            var q := l.net.Add(group, l.inc);
            var t := q.net.And(l.gm, q.id);
            var o := t.net.Xor(position, t.id);
            && Grows(n, o.net, env, 2) && Is(On(o.net, env), q.id, PosWord(Bumped(p, i), g))
            && Is(On(o.net, env), o.id, Words.Xor(w, if 4 * g <= i < 4 * g + 4 && i < CHAINS then PosWord(Bumped(p, i), g) else ZERO))
  {
    hide PlainRun, Legal, Cost, On, Ready, LanesNet, PosWord, Increment, IncrementTo, Words.Add, Bumped, Words.Xor, Words.And, FullWord, MaskWords, AreWords;
    var l := LanesNet(n, masks, g, LanesOf(g));
    LanesAre(n, masks, g, LanesOf(g), env, i);
    IncrementCases(g, i);
    var q, qw, in' := l.net.Add(group, l.inc), PosWord(Bumped(p, i), g), 4 * g <= i < 4 * g + LanesOf(g);
    AddIs(l.net, group, l.inc, env, PosWord(p, g), Increment(g, i));
    PosWordAdvances(p, g, i);
    var t := q.net.And(l.gm, q.id);
    AndIs(q.net, l.gm, q.id, env, FullWord(in'), qw);
    FullAnd(in', qw);
    XorIs(t.net, position, t.id, env, w, if in' then qw else ZERO);
  }

  /** What is selected from the first g groups. */
  function GroupWordTo(p: seq<nat>, i: nat, g: nat): Word
  {
    if i < CHAINS && i < 4 * g then PosWord(p, i / 4) else ZERO
  }

  lemma GroupWordNext(p: seq<nat>, i: nat, g: nat)
    ensures Words.Xor(GroupWordTo(p, i, g), if 4 * g <= i < 4 * g + 4 && i < CHAINS then PosWord(p, g) else ZERO) == GroupWordTo(p, i, g + 1)
  {
    hide PosWord, Words.Xor;
    XorZero(GroupWordTo(p, i, g));
    XorZero(PosWord(p, g));
  }

  lemma {:induction false} AdvanceIs(n: Net, masks: seq<nat>, positions: seq<nat>, g: nat, env: seq<Word>, i: nat, p: seq<nat>)
    requires Ready(n, env) && |masks| == |p| == CHAINS && g <= GROUPS && |positions| == GROUPS && (forall k :: 0 <= k < CHAINS ==> p[k] < 255)
    requires AreWords(On(n, env), masks, MaskWords(i)) && AreWords(On(n, env), positions, PosWords(p))
    ensures var o := AdvanceNet(n, masks, positions, g);
            && Grows(n, o.net, env, 2 * g) && AreWords(On(o.net, env), o.positions, PosWords(Bumped(p, i))[..g])
            && Is(On(o.net, env), o.position, GroupWordTo(Bumped(p, i), i, g))
  {
    hide PlainRun, Legal, Cost, On, Ready, LanesNet, PosWord, Bumped, Words.Xor, MaskWords, GroupWordTo;
    if g == 0 {
      ConstIs(n, ZERO, env);
      NoGroups(Bumped(p, i), i);
    } else {
      AdvanceIs(n, masks, positions, g - 1, env, i, p);
      var o := AdvanceNet(n, masks, positions, g - 1);
      WordsKept(On(n, env), On(o.net, env), masks, MaskWords(i));
      AdvanceGroupIs(o.net, masks, positions[g - 1], o.position, g - 1, env, i, p, GroupWordTo(Bumped(p, i), i, g - 1));
      GroupWordNext(Bumped(p, i), i, g - 1);
    }
  }

  lemma NoGroups(p: seq<nat>, i: nat)
    ensures GroupWordTo(p, i, 0) == ZERO
  {
  }

  method EmitAdvance(n: Net, masks: seq<nat>, positions: seq<nat>) returns (o: Advanced)
    requires |masks| == CHAINS && |positions| == GROUPS
    ensures o == AdvanceNet(n, masks, positions, GROUPS)
  {
    hide LaneNet;
    var z := n.Const(ZERO);
    o := Advanced(z.net, [], z.id);
    for g := 0 to GROUPS
      invariant o == AdvanceNet(n, masks, positions, g)
    {
      var a := o.net.Const(ZERO);
      var b := a.net.Const(ZERO);
      var l, lane := Lanes(b.net, a.id, b.id), 0;
      while lane < 4 && 4 * g + lane < CHAINS
        invariant 0 <= lane <= 4 && 4 * g + lane <= CHAINS && l == LanesNet(o.net, masks, g, lane)
      {
        l := LaneNet(l.net, masks[4 * g + lane], l.inc, l.gm, lane);
        lane := lane + 1;
      }
      var q := l.net.Add(positions[g], l.inc);
      var t := q.net.And(l.gm, q.id);
      var p := t.net.Xor(o.position, t.id);
      o := Advanced(p.net, o.positions + [q.id], p.id);
    }
  }

  function ShiftIfNet(n: Net, idx: nat, word: nat, b: BitIndex, k: nat): Wired
  {
    var s := n.Map(ShiftRight(k), word);
    var d := s.net.Xor(word, s.id);
    var mask := d.net.Map(SpreadBit(b), idx);
    var t := mask.net.And(mask.id, d.id);
    t.net.Xor(word, t.id)
  }

  lemma ShiftIfWord(w: Word, on: bool, k: nat)
    ensures Words.Xor(w, Words.And(FullWord(on), Words.Xor(w, Shr(w, k)))) == if on then Shr(w, k) else w
  {
  }

  lemma SpreadByte(x: Byte, b: nat)
    requires b < 8
    ensures Broadcast(Ext(x), b) == FullWord(x[b])
  {
  }

  lemma ShiftIfIs(n: Net, idx: nat, word: nat, b: nat, k: nat, env: seq<Word>, x: Byte, w: Word)
    requires Ready(n, env) && Is(On(n, env), idx, Ext(x)) && Is(On(n, env), word, w) && b < 8
    ensures MakesWord(n, ShiftIfNet(n, idx, word, b, k), env, 1, if x[b] then Shr(w, k) else w)
  {
    hide PlainRun, Legal, Cost, On, Ready, Words.Xor, Words.And, Shr, Broadcast, FullWord, Ext;
    var s := n.Map(ShiftRight(k), word);
    MapIs(n, ShiftRight(k), word, env, w);
    var d := s.net.Xor(word, s.id);
    XorIs(s.net, word, s.id, env, w, Shr(w, k));
    var mask := d.net.Map(SpreadBit(b), idx);
    MapIs(d.net, SpreadBit(b), idx, env, Ext(x));
    SpreadByte(x, b);
    var t := mask.net.And(mask.id, d.id);
    AndIs(mask.net, mask.id, d.id, env, FullWord(x[b]), Words.Xor(w, Shr(w, k)));
    XorIs(t.net, word, t.id, env, w, Words.And(FullWord(x[b]), Words.Xor(w, Shr(w, k))));
    ShiftIfWord(w, x[b], k);
  }

  /** Two conditional shifts bring the indexed byte of a word to the bottom. */
  function PickNet(n: Net, idx: nat, position: nat): Wired
  {
    var a := ShiftIfNet(n, idx, position, 1, 16);
    var b := ShiftIfNet(a.net, idx, a.id, 0, 8);
    b.net.Map(KeepBits(Ext(Ones(8))), b.id)
  }

  lemma PickedLow(w: Word, b0: bool, b1: bool)
    ensures var v := if b1 then Shr(w, 16) else w;
            Words.And(Ext(Ones(8)), if b0 then Shr(v, 8) else v) == Ext(ByteOf(w, Bit(b0) + 2 * Bit(b1)))
  {
  }

  lemma PickIs(n: Net, idx: nat, position: nat, env: seq<Word>, x: Byte, w: Word)
    requires Ready(n, env) && Is(On(n, env), idx, Ext(x)) && Is(On(n, env), position, w)
    ensures MakesWord(n, PickNet(n, idx, position), env, 2, Ext(ByteOf(w, Bit(x[0]) + 2 * Bit(x[1]))))
  {
    hide PlainRun, Legal, Cost, On, Ready, ShiftIfNet, Words.And, Shr, Ext, ByteOf;
    var a, v := ShiftIfNet(n, idx, position, 1, 16), if x[1] then Shr(w, 16) else w;
    ShiftIfIs(n, idx, position, 1, 16, env, x, w);
    var b := ShiftIfNet(a.net, idx, a.id, 0, 8);
    ShiftIfIs(a.net, idx, a.id, 0, 8, env, x, v);
    MapIs(b.net, KeepBits(Ext(Ones(8))), b.id, env, if x[0] then Shr(v, 8) else v);
    PickedLow(w, x[0], x[1]);
  }

  /** The low two bits of a chain index are its lane within its group. */
  lemma LaneOf(x: Byte)
    ensures ToNat(x) % 4 == Bit(x[0]) + 2 * Bit(x[1])
  {
    var t := x[1..];
    assert ToNat(x) == Bit(x[0]) + 2 * ToNat(t);
    assert ToNat(t) == Bit(t[0]) + 2 * ToNat(t[1..]);
  }

  lemma PickedByte(p: seq<nat>, i: nat)
    requires i < |p|
    ensures ByteOf(PosWord(p, i / 4), i % 4) == Byte8(p[i])
  {
    var g, lane := i / 4, i % 4;
    assert i == 4 * g + lane;
    var w := PosWord(p, g);
    assert w[0..8] == Byte8(PAt(p, 4 * g));
    assert w[8..16] == Byte8(PAt(p, 4 * g + 1));
    assert w[16..24] == Byte8(PAt(p, 4 * g + 2));
    assert w[24..32] == Byte8(PAt(p, 4 * g + 3));
  }

  function GroupWord(p: seq<nat>, i: nat): Word
  {
    if i < CHAINS then PosWord(p, i / 4) else ZERO
  }

  /** The indexed chain's counter stepped, and its new position as a byte. 24 gates. */
  function PositionNet(n: Net, masks: seq<nat>, positions: seq<nat>, idx: nat): (o: Advanced)
    requires |masks| == CHAINS && |positions| == GROUPS
    ensures |o.positions| == GROUPS
  {
    hide AdvanceNet, PickNet;
    var a := AdvanceNet(n, masks, positions, GROUPS);
    var p := PickNet(a.net, idx, a.position);
    Advanced(p.net, a.positions, p.id)
  }

  lemma PositionIs(n: Net, masks: seq<nat>, positions: seq<nat>, idx: nat, env: seq<Word>, x: Byte, p: seq<nat>)
    requires Ready(n, env) && Is(On(n, env), idx, Ext(x)) && |masks| == |p| == CHAINS && |positions| == GROUPS
    requires (forall k :: 0 <= k < CHAINS ==> p[k] < 255)
    requires AreWords(On(n, env), masks, MaskWords(ToNat(x))) && AreWords(On(n, env), positions, PosWords(p))
    ensures var o := PositionNet(n, masks, positions, idx);
            && Grows(n, o.net, env, 24) && AreWords(On(o.net, env), o.positions, PosWords(Bumped(p, ToNat(x))))
            && Is(On(o.net, env), o.position, Ext(ByteOf(GroupWord(Bumped(p, ToNat(x)), ToNat(x)), Bit(x[0]) + 2 * Bit(x[1]))))
  {
    hide PlainRun, Legal, Cost, On, Ready, AdvanceNet, PickNet, Ext, ByteOf, ToNat, Bumped, PosWords, PosWord, MaskWords;
    var a, q := AdvanceNet(n, masks, positions, GROUPS), Bumped(p, ToNat(x));
    AdvanceIs(n, masks, positions, GROUPS, env, ToNat(x), p);
    assert PosWords(q)[..GROUPS] == PosWords(q);
    assert GroupWordTo(q, ToNat(x), GROUPS) == GroupWord(q, ToNat(x));
    PickIs(a.net, idx, a.position, env, x, GroupWord(q, ToNat(x)));
  }

  method EmitPosition(n: Net, masks: seq<nat>, positions: seq<nat>, idx: nat) returns (o: Advanced)
    requires |masks| == CHAINS && |positions| == GROUPS
    ensures o == PositionNet(n, masks, positions, idx)
  {
    hide AdvanceNet, ShiftIfNet;
    var a := EmitAdvance(n, masks, positions);
    var p := PickNet(a.net, idx, a.position);
    o := Advanced(p.net, a.positions, p.id);
  }

  // ---- hashing the selected node -------------------------------------------

  /** Word k of a byte row with its first b bytes in place. */
  function PartLoad(bytes: seq<Byte>, k: nat, b: nat): Word
    requires 4 * k + b <= |bytes|
    decreases |bytes|, b
  {
    if b == 0 then ZERO else Words.Xor(PartLoad(bytes, k, b - 1), Shl(Ext(bytes[4 * k + b - 1]), 8 * (b - 1)))
  }

  lemma {:induction false} PartLoadBits(bytes: seq<Byte>, k: nat, b: nat)
    requires 4 * k + 4 <= |bytes| && b <= 4
    ensures forall i :: 0 <= i < 32 ==> PartLoad(bytes, k, b)[i] == (i < 8 * b && LoadWord(bytes, k)[i])
  {
    if b > 0 {
      PartLoadBits(bytes, k, b - 1);
      PlaceLoaded(PartLoad(bytes, k, b - 1), bytes, k, b - 1);
    }
  }

  lemma PlaceLoaded(acc: Word, bytes: seq<Byte>, k: nat, b: nat)
    requires 4 * k + 4 <= |bytes| && b < 4
    requires forall i :: 0 <= i < 32 ==> acc[i] == (i < 8 * b && LoadWord(bytes, k)[i])
    ensures forall i :: 0 <= i < 32 ==>
              Words.Xor(acc, Shl(Ext(bytes[4 * k + b]), 8 * b))[i] == (i < 8 * b + 8 && LoadWord(bytes, k)[i])
  {
    var x := Ext(bytes[4 * k + b]);
    forall i | 0 <= i < 32
      ensures Words.Xor(acc, Shl(x, 8 * b))[i] == (i < 8 * b + 8 && LoadWord(bytes, k)[i])
    {
      if 8 * b <= i < 8 * b + 8 {
        assert LoadWord(bytes, k)[i] == bytes[4 * k + b][i - 8 * b];
      }
    }
  }

  function LoadNet(n: Net, ids: seq<nat>, k: nat, b: nat): Wired
    requires 4 * k + b <= |ids|
    decreases |ids|, b
  {
    if b == 0 then n.Const(ZERO)
    else
      var o := LoadNet(n, ids, k, b - 1);
      var t := o.net.Map(ShiftLeft(8 * (b - 1)), ids[4 * k + b - 1]);
      t.net.Xor(o.id, t.id)
  }

  lemma {:induction false} LoadTo(n: Net, ids: seq<nat>, k: nat, b: nat, env: seq<Word>, bytes: seq<Byte>)
    requires Ready(n, env) && Carries(On(n, env), ids, bytes) && 4 * k + b <= |ids|
    ensures MakesWord(n, LoadNet(n, ids, k, b), env, 0, PartLoad(bytes, k, b))
  {
    hide PlainRun, Legal, Cost, On, Ready, Ext, Shl, Words.Xor;
    if b == 0 {
      ConstIs(n, ZERO, env);
    } else {
      LoadTo(n, ids, k, b - 1, env, bytes);
      var o, x := LoadNet(n, ids, k, b - 1), bytes[4 * k + b - 1];
      var t := o.net.Map(ShiftLeft(8 * (b - 1)), ids[4 * k + b - 1]);
      MapIs(o.net, ShiftLeft(8 * (b - 1)), ids[4 * k + b - 1], env, Ext(x));
      XorIs(t.net, o.id, t.id, env, PartLoad(bytes, k, b - 1), Shl(Ext(x), 8 * (b - 1)));
    }
  }

  lemma LoadIs(n: Net, ids: seq<nat>, k: nat, env: seq<Word>, bytes: seq<Byte>)
    requires Ready(n, env) && Carries(On(n, env), ids, bytes) && 4 * k + 4 <= |ids|
    ensures |ids| == |bytes|
    ensures MakesWord(n, LoadNet(n, ids, k, 4), env, 0, LoadWord(bytes, k))
  {
    hide PlainRun, Legal, Cost, On, Ready, LoadNet, LoadWord, PartLoad, Ext;
    LoadTo(n, ids, k, 4, env, bytes);
    PartLoadBits(bytes, k, 4);
    assert PartLoad(bytes, k, 4) == LoadWord(bytes, k);
  }

  method EmitLoad(n: Net, ids: seq<nat>, k: nat) returns (o: Wired)
    requires 4 * k + 4 <= |ids|
    ensures o == LoadNet(n, ids, k, 4)
  {
    o := n.Const(ZERO);
    for b := 0 to 4
      invariant o == LoadNet(n, ids, k, b)
    {
      var t := o.net.Map(ShiftLeft(8 * b), ids[4 * k + b]);
      o := t.net.Xor(o.id, t.id);
    }
  }

  /** 16 byte wires as the first k node words. */
  function NodeNet(n: Net, ids: seq<nat>, k: nat): (o: Bundle)
    requires |ids| == NODE_BYTES && k <= 4
    ensures |o.ids| == k
    decreases |ids|, k
  {
    hide LoadNet;
    if k == 0 then Bundle(n, [])
    else
      var o := NodeNet(n, ids, k - 1);
      var z := LoadNet(o.net, ids, k - 1, 4);
      Bundle(z.net, o.ids + [z.id])
  }

  lemma {:induction false} NodeIs(n: Net, ids: seq<nat>, k: nat, env: seq<Word>, bytes: seq<Byte>)
    requires Ready(n, env) && Carries(On(n, env), ids, bytes) && |ids| == |bytes| == NODE_BYTES && k <= 4
    ensures MakesWords(n, NodeNet(n, ids, k), env, 0, NodeOf(bytes)[..k])
  {
    hide PlainRun, Legal, Cost, On, Ready, LoadNet, LoadWord, Carries;
    if k > 0 {
      NodeIs(n, ids, k - 1, env, bytes);
      var o := NodeNet(n, ids, k - 1);
      CarriesKept(On(n, env), On(o.net, env), ids, bytes);
      LoadIs(o.net, ids, k - 1, env, bytes);
    }
  }

  lemma WholeNodeIs(n: Net, ids: seq<nat>, env: seq<Word>, bytes: seq<Byte>)
    requires Ready(n, env) && Carries(On(n, env), ids, bytes) && |ids| == |bytes| == NODE_BYTES
    ensures MakesWords(n, NodeNet(n, ids, 4), env, 0, NodeOf(bytes))
  {
    hide PlainRun, Legal, Cost, On, Ready, NodeNet, NodeOf, Carries;
    NodeIs(n, ids, 4, env, bytes);
    assert NodeOf(bytes)[..4] == NodeOf(bytes);
  }

  method EmitNode(n: Net, ids: seq<nat>) returns (o: Bundle)
    requires |ids| == NODE_BYTES
    ensures o == NodeNet(n, ids, 4)
  {
    hide LoadNet;
    o := Bundle(n, []);
    for k := 0 to 4
      invariant o == NodeNet(n, ids, k)
    {
      var z := EmitLoad(o.net, ids, k);
      o := Bundle(z.net, o.ids + [z.id]);
    }
  }

  /** One chain step on wires: node words, index byte and position byte. One block. */
  function ChainStepNet(n: Net, node: seq<nat>, seed: seq<nat>, epoch: seq<nat>, idx: nat, pos: nat): (o: Bundle)
    requires |node| == 4 && |seed| == 16 && |epoch| == 4
    ensures |o.ids| == 4
  {
    hide BytesNet, ThNet, NodeNet;
    var d := BytesNet(n, node, NODE_BYTES);
    var t := d.net.Const(Ext(Byte8(TWEAK_CHAIN)));
    var h := ThNet(t.net, d.ids + [t.id], seed + epoch + [idx, pos], NODE_BYTES);
    NodeNet(h.net, h.ids, 4)
  }

  lemma ChainStepIs(n: Net, node: seq<nat>, seed: seq<nat>, epoch: seq<nat>, idx: nat, pos: nat, env: seq<Word>,
                    key: ChainKey, x: Node, i: Byte, p: Byte)
    requires Ready(n, env) && AreWords(On(n, env), node, x) && Is(On(n, env), idx, Ext(i)) && Is(On(n, env), pos, Ext(p))
    requires Carries(On(n, env), seed, key.seed) && Carries(On(n, env), epoch, key.epoch) && |seed| == 16 && |epoch| == 4
    ensures MakesWords(n, ChainStepNet(n, node, seed, epoch, idx, pos), env, 336, ChainStep(key, x, i, p))
  {
    hide PlainRun, Legal, Cost, On, Ready, BytesNet, ThNet, NodeNet, Th, NodeOf, Bytes, Ext;
    var d, tw := BytesNet(n, node, NODE_BYTES), Byte8(TWEAK_CHAIN);
    BytesIs(n, node, NODE_BYTES, env, x);
    var t := d.net.Const(Ext(tw));
    ConstIs(d.net, Ext(tw), env);
    var domB, dataB := NodeBytes(x) + [tw], key.seed + key.epoch + [i, p];
    assert Carries(On(t.net, env), d.ids + [t.id], domB);
    assert Carries(On(t.net, env), seed + epoch + [idx, pos], dataB);
    var h := ThNet(t.net, d.ids + [t.id], seed + epoch + [idx, pos], NODE_BYTES);
    ThIs(t.net, d.ids + [t.id], seed + epoch + [idx, pos], NODE_BYTES, env, domB, dataB);
    WholeNodeIs(h.net, h.ids, env, Th(domB, dataB, NODE_BYTES));
  }

  method EmitChainStep(n: Net, node: seq<nat>, seed: seq<nat>, epoch: seq<nat>, idx: nat, pos: nat) returns (o: Bundle)
    requires |node| == 4 && |seed| == 16 && |epoch| == 4
    ensures o == ChainStepNet(n, node, seed, epoch, idx, pos)
  {
    hide BytesNet, ThNet, NodeNet, Ext;
    var d := EmitBytes(n, node, NODE_BYTES);
    var t := d.net.Const(Ext(Byte8(TWEAK_CHAIN)));
    var ok, h := EmitTh(t.net, d.ids + [t.id], seed + epoch + [idx, pos], NODE_BYTES);
    o := EmitNode(h.net, h.ids);
  }

  // ---- writing the node back -----------------------------------------------

  /** XORs the masked difference into one word of the first k chains: only the indexed chain changes. */
  function UpdateWordNet(n: Net, masks: seq<nat>, col: seq<nat>, delta: nat, k: nat): (o: Bundle)
    requires |masks| == CHAINS && |col| == CHAINS && k <= CHAINS
    ensures |o.ids| == k
    decreases |masks|, k
  {
    if k == 0 then Bundle(n, [])
    else
      var o := UpdateWordNet(n, masks, col, delta, k - 1);
      var t := o.net.And(masks[k - 1], delta);
      var z := t.net.Xor(col[k - 1], t.id);
      Bundle(z.net, o.ids + [z.id])
  }

  function Updated(ws: seq<Word>, i: nat, d: Word): (r: seq<Word>)
    ensures |r| == |ws| && forall j :: 0 <= j < |ws| ==> r[j] == if j == i then Words.Xor(ws[j], d) else ws[j]
  {
    if i < |ws| then ws[i := Words.Xor(ws[i], d)] else ws
  }

  lemma UpdateOneIs(n: Net, mask: nat, id: nat, delta: nat, env: seq<Word>, hit: bool, w: Word, d: Word)
    requires Ready(n, env) && Is(On(n, env), mask, FullWord(hit)) && Is(On(n, env), id, w) && Is(On(n, env), delta, d)
    ensures var t := n.And(mask, delta);
            MakesWord(n, t.net.Xor(id, t.id), env, 1, if hit then Words.Xor(w, d) else w)
  {
    hide PlainRun, Legal, Cost, On, Ready, FullWord, Words.Xor, Words.And;
    var t := n.And(mask, delta);
    AndIs(n, mask, delta, env, FullWord(hit), d);
    FullAnd(hit, d);
    XorIs(t.net, id, t.id, env, w, if hit then d else ZERO);
    XorZero(w);
  }

  lemma {:induction false} UpdateWordIs(n: Net, masks: seq<nat>, col: seq<nat>, delta: nat, k: nat, env: seq<Word>, i: nat, ws: seq<Word>, d: Word)
    requires Ready(n, env) && |masks| == |col| == |ws| == CHAINS && k <= CHAINS
    requires AreWords(On(n, env), masks, MaskWords(i)) && AreWords(On(n, env), col, ws) && Is(On(n, env), delta, d)
    ensures MakesWords(n, UpdateWordNet(n, masks, col, delta, k), env, k, Updated(ws, i, d)[..k])
  {
    hide PlainRun, Legal, Cost, On, Ready, FullWord, Words.Xor, Updated, MaskWords, AreWords;
    var u := Updated(ws, i, d);
    if k == 0 {
      NoWords(On(n, env));
    } else {
      UpdateWordIs(n, masks, col, delta, k - 1, env, i, ws, d);
      var o := UpdateWordNet(n, masks, col, delta, k - 1);
      OneWord(On(n, env), masks, MaskWords(i), k - 1);
      OneWord(On(n, env), col, ws, k - 1);
      UpdateOneIs(o.net, masks[k - 1], col[k - 1], delta, env, k - 1 == i, ws[k - 1], d);
      var t := o.net.And(masks[k - 1], delta);
      var z := t.net.Xor(col[k - 1], t.id);
      WordsKept(On(o.net, env), On(z.net, env), o.ids, u[..k - 1]);
      WordsSnoc(On(z.net, env), o.ids, u[..k - 1], z.id, u[k - 1]);
      assert u[..k - 1] + [u[k - 1]] == u[..k];
    }
  }

  datatype Nodes = Nodes(net: Net, cols: seq<seq<nat>>)

  /** Replaces the first w words of the indexed chain's node by those of h, all other chains kept. */
  function UpdateNet(n: Net, masks: seq<nat>, cols: seq<seq<nat>>, sel: seq<nat>, h: seq<nat>, w: nat): (o: Nodes)
    requires |masks| == CHAINS && Columns(cols) && |sel| == |h| == 4 && w <= 4
    ensures |o.cols| == w && forall v :: 0 <= v < w ==> |o.cols[v]| == CHAINS
    decreases |masks|, w
  {
    hide UpdateWordNet;
    if w == 0 then Nodes(n, [])
    else
      var o := UpdateNet(n, masks, cols, sel, h, w - 1);
      var d := o.net.Xor(sel[w - 1], h[w - 1]);
      var c := UpdateWordNet(d.net, masks, cols[w - 1], d.id, CHAINS);
      Nodes(c.net, o.cols + [c.ids])
  }

  lemma XorBack(a: Word, b: Word)
    ensures Words.Xor(a, Words.Xor(a, b)) == b
  {
  }

  lemma ReplacedColumn(ns: seq<Node>, i: nat, h: Node, w: nat)
    requires w < 4
    ensures Updated(WordColumn(ns, w), i, Words.Xor(Selected(ns, i)[w], h[w])) == WordColumn(Replaced(ns, i, h), w)
  {
    if i < |ns| { XorBack(ns[i][w], h[w]); }
  }

  lemma UpdateColumnIs(n: Net, masks: seq<nat>, col: seq<nat>, sel: nat, h: nat, w: nat, env: seq<Word>, i: nat, ns: seq<Node>, hv: Node)
    requires Ready(n, env) && |masks| == |col| == |ns| == CHAINS && w < 4
    requires AreWords(On(n, env), masks, MaskWords(i)) && AreWords(On(n, env), col, WordColumn(ns, w))
    requires Is(On(n, env), sel, Selected(ns, i)[w]) && Is(On(n, env), h, hv[w])
    ensures var d := n.Xor(sel, h);
            var o := UpdateWordNet(d.net, masks, col, d.id, CHAINS);
            Grows(n, o.net, env, 42) && AreWords(On(o.net, env), o.ids, WordColumn(Replaced(ns, i, hv), w))
  {
    hide PlainRun, Legal, Cost, On, Ready, UpdateWordNet, Words.Xor, MaskWords, Replaced, Selected;
    var d, dw := n.Xor(sel, h), Words.Xor(Selected(ns, i)[w], hv[w]);
    XorIs(n, sel, h, env, Selected(ns, i)[w], hv[w]);
    WordsKept(On(n, env), On(d.net, env), masks, MaskWords(i));
    UpdateWordIs(d.net, masks, col, d.id, CHAINS, env, i, WordColumn(ns, w), dw);
    ReplacedColumn(ns, i, hv, w);
    assert Updated(WordColumn(ns, w), i, dw)[..CHAINS] == Updated(WordColumn(ns, w), i, dw);
  }

  lemma {:induction false} UpdateIs(n: Net, masks: seq<nat>, cols: seq<seq<nat>>, sel: seq<nat>, h: seq<nat>, w: nat, env: seq<Word>,
                                    i: nat, ns: seq<Node>, hv: Node)
    requires Ready(n, env) && |masks| == |ns| == CHAINS && |sel| == |h| == 4 && w <= 4 && Columns(cols)
    requires AreWords(On(n, env), masks, MaskWords(i)) && NodesHold(On(n, env), cols, ns)
    requires AreWords(On(n, env), sel, Selected(ns, i)) && AreWords(On(n, env), h, hv)
    ensures var o := UpdateNet(n, masks, cols, sel, h, w);
            && Grows(n, o.net, env, 42 * w)
            && forall v :: 0 <= v < w ==> AreWords(On(o.net, env), o.cols[v], WordColumn(Replaced(ns, i, hv), v))
  {
    hide PlainRun, Legal, Cost, On, Ready, UpdateWordNet, MaskWords, Replaced, Selected, WordColumn;
    if w > 0 {
      UpdateIs(n, masks, cols, sel, h, w - 1, env, i, ns, hv);
      var o := UpdateNet(n, masks, cols, sel, h, w - 1);
      WordsKept(On(n, env), On(o.net, env), masks, MaskWords(i));
      WordsKept(On(n, env), On(o.net, env), cols[w - 1], WordColumn(ns, w - 1));
      UpdateColumnIs(o.net, masks, cols[w - 1], sel[w - 1], h[w - 1], w - 1, env, i, ns, hv);
    }
  }

  method EmitUpdate(n: Net, masks: seq<nat>, cols: seq<seq<nat>>, sel: seq<nat>, h: seq<nat>) returns (o: Nodes)
    requires |masks| == CHAINS && Columns(cols) && |sel| == |h| == 4
    ensures o == UpdateNet(n, masks, cols, sel, h, 4)
  {
    o := Nodes(n, []);
    for w := 0 to 4
      invariant o == UpdateNet(n, masks, cols, sel, h, w)
    {
      var d := o.net.Xor(sel[w], h[w]);
      var c := Bundle(d.net, []);
      for k := 0 to CHAINS
        invariant c == UpdateWordNet(d.net, masks, cols[w], d.id, k)
      {
        var t := c.net.And(masks[k], d.id);
        var z := t.net.Xor(cols[w][k], t.id);
        c := Bundle(z.net, c.ids + [z.id]);
      }
      o := Nodes(c.net, o.cols + [c.ids]);
    }
  }

  // ---- one step of the schedule --------------------------------------------

  /** Every index among the first k names a chain. */
  predicate ValidTo(s: seq<nat>, k: nat)
    requires k <= |s|
  {
    forall i :: 0 <= i < k ==> s[i] < CHAINS
  }

  function PositionsAt(coords: seq<nat>, s: seq<nat>, k: nat): (r: seq<nat>)
    requires |coords| == CHAINS && k <= |s|
    ensures |r| == CHAINS
  {
    seq(CHAINS, c requires 0 <= c < CHAINS => PositionAt(coords, s, c, k))
  }

  datatype Wires = Wires(cols: seq<seq<nat>>, positions: seq<nat>, check: nat)
  {
    predicate Shape() { Columns(cols) && |positions| == GROUPS }
  }

  datatype Stage = Stage(net: Net, st: Wires)

  /** The gadget's state after k steps: chained nodes, packed positions, sticky failure bit. */
  predicate StateHolds(vs: seq<Word>, st: Wires, key: ChainKey, tips: seq<Node>, coords: seq<nat>, s: seq<nat>, k: nat)
    requires |tips| == CHAINS && |coords| == CHAINS && k <= |s|
  {
    && NodesHold(vs, st.cols, NodesAt(key, tips, coords, s, k))
    && AreWords(vs, st.positions, PosWords(PositionsAt(coords, s, k)))
    && Is(vs, st.check, BitWord(!ValidTo(s, k)))
  }

  lemma NodesStep(key: ChainKey, tips: seq<Node>, coords: seq<nat>, s: seq<nat>, k: nat, i: Byte, hv: Node)
    requires |tips| == CHAINS && |coords| == CHAINS && k < |s| && s[k] == ToNat(i)
    requires s[k] < CHAINS ==>
               hv == ChainStep(key, NodesAt(key, tips, coords, s, k)[s[k]], i, Byte8(PositionsAt(coords, s, k + 1)[s[k]]))
    ensures NodesAt(key, tips, coords, s, k + 1) == Replaced(NodesAt(key, tips, coords, s, k), s[k], hv)
  {
    hide ChainStep, ToNat, Byte8, PAt;
    if s[k] < CHAINS {
      ByteValue(s[k]);
      ToNatInjective(i, Byte8(s[k]));
    }
    var a, b := NodesAt(key, tips, coords, s, k + 1), Replaced(NodesAt(key, tips, coords, s, k), s[k], hv);
    forall c | 0 <= c < CHAINS
      ensures a[c] == b[c]
    {
      CountNext(s, c, k);
    }
  }

  lemma CountNext(s: seq<nat>, c: nat, k: nat)
    requires k < |s|
    ensures Count(s, c, k + 1) == Count(s, c, k) + if s[k] == c then 1 else 0
  {
  }

  lemma PositionsStep(coords: seq<nat>, s: seq<nat>, k: nat)
    requires |coords| == CHAINS && k < |s|
    ensures PositionsAt(coords, s, k + 1) == Bumped(PositionsAt(coords, s, k), s[k])
  {
  }

  lemma ValidStep(s: seq<nat>, k: nat)
    requires k < |s|
    ensures ValidTo(s, k + 1) == (ValidTo(s, k) && s[k] < CHAINS)
  {
  }

  /** One step: selector, selected node, stepped position, hash, node written back. */
  function StepNet(n: Net, st: Wires, idx: nat, seed: seq<nat>, epoch: seq<nat>): (o: Stage)
    requires st.Shape() && |seed| == 16 && |epoch| == 4
    ensures o.st.Shape()
  {
    hide SelectorNet, SelectNodeNet, PositionNet, ChainStepNet, UpdateNet;
    var r := SelectorNet(n, idx, st.check);
    var sel := SelectNodeNet(r.net, r.masks, st.cols, 4);
    var p := PositionNet(sel.net, r.masks, st.positions, idx);
    var h := ChainStepNet(p.net, sel.ids, seed, epoch, idx, p.position);
    var u := UpdateNet(h.net, r.masks, st.cols, sel.ids, h.ids, 4);
    Stage(u.net, Wires(u.cols, p.positions, r.check))
  }

  /** What the step makes of any nodes, positions and failure bit. */
  lemma StepMakes(n: Net, st: Wires, idx: nat, seed: seq<nat>, epoch: seq<nat>, env: seq<Word>, key: ChainKey,
                  ns: seq<Node>, p: seq<nat>, bad: bool, x: Byte)
    requires Ready(n, env) && st.Shape() && |ns| == |p| == CHAINS && (forall k :: 0 <= k < CHAINS ==> p[k] < 255)
    requires NodesHold(On(n, env), st.cols, ns) && AreWords(On(n, env), st.positions, PosWords(p)) && Is(On(n, env), st.check, BitWord(bad))
    requires Is(On(n, env), idx, Ext(x)) && Carries(On(n, env), seed, key.seed) && Carries(On(n, env), epoch, key.epoch) && |seed| == 16 && |epoch| == 4
    ensures var o, i := StepNet(n, st, idx, seed, epoch), ToNat(x);
            var pb := ByteOf(GroupWord(Bumped(p, i), i), Bit(x[0]) + 2 * Bit(x[1]));
            && Grows(n, o.net, env, 711)
            && NodesHold(On(o.net, env), o.st.cols, Replaced(ns, i, ChainStep(key, Selected(ns, i), x, pb)))
            && AreWords(On(o.net, env), o.st.positions, PosWords(Bumped(p, i)))
            && Is(On(o.net, env), o.st.check, BitWord(bad || i >= CHAINS))
  {
    hide PlainRun, Legal, Cost, On, Ready, SelectorNet, SelectNodeNet, PositionNet, ChainStepNet, UpdateNet, MaskWords, PosWords, GroupWord,
      ToNat, Ext, BitWord, ByteOf, Selected, Replaced, Bumped, ChainStep, Carries, WordColumn, AreWords;
    var i := ToNat(x);
    var pb := ByteOf(GroupWord(Bumped(p, i), i), Bit(x[0]) + 2 * Bit(x[1]));
    var hv := ChainStep(key, Selected(ns, i), x, pb);
    var r := SelectorNet(n, idx, st.check);
    SelectorIs(n, idx, st.check, env, x, bad);
    NodesKept(On(n, env), On(r.net, env), st.cols, ns);
    var sel := SelectNodeNet(r.net, r.masks, st.cols, 4);
    SelectNodeIs(r.net, r.masks, st.cols, 4, env, i, ns);
    assert Selected(ns, i)[..4] == Selected(ns, i);
    WordsKept(On(n, env), On(sel.net, env), st.positions, PosWords(p));
    WordsKept(On(r.net, env), On(sel.net, env), r.masks, MaskWords(i));
    var q := PositionNet(sel.net, r.masks, st.positions, idx);
    PositionIs(sel.net, r.masks, st.positions, idx, env, x, p);
    WordsKept(On(sel.net, env), On(q.net, env), sel.ids, Selected(ns, i));
    CarriesKept(On(n, env), On(q.net, env), seed, key.seed);
    CarriesKept(On(n, env), On(q.net, env), epoch, key.epoch);
    var h := ChainStepNet(q.net, sel.ids, seed, epoch, idx, q.position);
    ChainStepIs(q.net, sel.ids, seed, epoch, idx, q.position, env, key, Selected(ns, i), x, pb);
    WordsKept(On(r.net, env), On(h.net, env), r.masks, MaskWords(i));
    NodesKept(On(n, env), On(h.net, env), st.cols, ns);
    WordsKept(On(sel.net, env), On(h.net, env), sel.ids, Selected(ns, i));
    var u := UpdateNet(h.net, r.masks, st.cols, sel.ids, h.ids, 4);
    UpdateIs(h.net, r.masks, st.cols, sel.ids, h.ids, 4, env, i, ns, hv);
    WordsKept(On(q.net, env), On(u.net, env), q.positions, PosWords(Bumped(p, i)));
  }

  /** One step of the schedule: 711 non-linear gates take the state after k steps to the state after k + 1. */
  lemma StepIs(n: Net, st: Wires, idx: nat, seed: seq<nat>, epoch: seq<nat>, env: seq<Word>, key: ChainKey,
               tips: seq<Node>, coords: seq<nat>, s: seq<nat>, k: nat, x: Byte)
    requires Ready(n, env) && st.Shape() && |tips| == CHAINS && |coords| == CHAINS && k < |s| < 248
    requires forall j :: 0 <= j < CHAINS ==> coords[j] <= MAX_STEPS
    requires StateHolds(On(n, env), st, key, tips, coords, s, k) && Is(On(n, env), idx, Ext(x)) && s[k] == ToNat(x)
    requires Carries(On(n, env), seed, key.seed) && Carries(On(n, env), epoch, key.epoch) && |seed| == 16 && |epoch| == 4
    ensures var o := StepNet(n, st, idx, seed, epoch);
            Grows(n, o.net, env, 711) && StateHolds(On(o.net, env), o.st, key, tips, coords, s, k + 1)
  {
    hide PlainRun, Legal, Cost, On, Ready, StepNet, NodesAt, PositionsAt, ValidTo, NodesHold, PosWords, GroupWord, ByteOf, Bumped, Replaced,
      Selected, ChainStep, Ext, BitWord, AreWords, Carries, ToNat, Grows;
    var i, ns, p := s[k], NodesAt(key, tips, coords, s, k), PositionsAt(coords, s, k);
    PositionsBound(coords, s, k);
    StepMakes(n, st, idx, seed, epoch, env, key, ns, p, !ValidTo(s, k), x);
    PickedPosition(coords, s, k, x);
    SelectedIs(ns, i);
    NodesStep(key, tips, coords, s, k, x, ChainStep(key, Selected(ns, i), x, ByteOf(GroupWord(Bumped(p, i), i), Bit(x[0]) + 2 * Bit(x[1]))));
    PositionsStep(coords, s, k);
    ValidStep(s, k);
  }

  method EmitStep(n: Net, st: Wires, idx: nat, seed: seq<nat>, epoch: seq<nat>) returns (o: Stage)
    requires st.Shape() && |seed| == 16 && |epoch| == 4
    ensures o == StepNet(n, st, idx, seed, epoch)
  {
    hide SelectorNet, SelectNodeNet, PositionNet, ChainStepNet, UpdateNet;
    var r := EmitSelector(n, idx, st.check);
    var sel := EmitSelectNode(r.net, r.masks, st.cols);
    var p := EmitPosition(sel.net, r.masks, st.positions, idx);
    var h := EmitChainStep(p.net, sel.ids, seed, epoch, idx, p.position);
    var u := EmitUpdate(h.net, r.masks, st.cols, sel.ids, h.ids);
    o := Stage(u.net, Wires(u.cols, p.positions, r.check));
  }

  lemma SelectedIs(ns: seq<Node>, i: nat)
    ensures i < |ns| ==> Selected(ns, i) == ns[i]
  {
  }

  lemma PositionsBound(coords: seq<nat>, s: seq<nat>, k: nat)
    requires |coords| == CHAINS && k < |s| < 248 && forall j :: 0 <= j < CHAINS ==> coords[j] <= MAX_STEPS
    ensures forall j :: 0 <= j < CHAINS ==> PositionsAt(coords, s, k)[j] < 255
  {
  }

  lemma PickedPosition(coords: seq<nat>, s: seq<nat>, k: nat, x: Byte)
    requires |coords| == CHAINS && k < |s| && s[k] == ToNat(x)
    ensures s[k] < CHAINS ==>
      ByteOf(GroupWord(Bumped(PositionsAt(coords, s, k), s[k]), s[k]), Bit(x[0]) + 2 * Bit(x[1]))
      == Byte8(PositionsAt(coords, s, k + 1)[s[k]])
  {
    if s[k] < CHAINS {
      LaneOf(x);
      var p := Bumped(PositionsAt(coords, s, k), s[k]);
      assert p == PositionsAt(coords, s, k + 1);
      PickedByte(p, s[k]);
    }
  }

  // ---- coordinates on wires ------------------------------------------------

  lemma ThreeBits(b: Bits)
    requires |b| == 3
    ensures ToNat(b) == Bit(b[0]) + 2 * Bit(b[1]) + 4 * Bit(b[2])
  {
    var c, d := b[1..], b[2..];
    assert c[1..] == d && d[1..] == [];
    assert ToNat(d) == Bit(b[2]);
  }

  lemma CoordByte(d: Digest, i: nat)
    requires i < CHAINS
    ensures forall j :: 0 <= j < 32 ==> Ext(Byte8(Coord(d, i)))[j] == (j < 3 && CoordBits(d, i)[j])
  {
    hide ToNat, CoordBits, Byte8;
    var b: Bits := CoordBits(d, i);
    var w: Byte := b + Zeros(5);
    ToNatAppend(b, Zeros(5));
    ToNatZeros(5);
    ThreeBits(b);
    ByteValue(Coord(d, i));
    ToNatInjective(w, Byte8(Coord(d, i)));
  }

  lemma CoordBitIs(d: Digest, i: nat, k: nat)
    requires i < CHAINS && k < 3
    ensures CoordBits(d, i)[k] == DigestBit(d, BitPos(i) + k)
  {
  }

  /** Digest bit j, at place k of a word. */
  function BitAtNet(n: Net, mh: seq<nat>, j: nat, k: nat): Wired
    requires j < 128 && |mh| >= 16
  {
    var t := n.Map(ShiftRight(j % 8), mh[j / 8]);
    var u := t.net.Map(KeepBits(BitWord(true)), t.id);
    u.net.Map(ShiftLeft(k), u.id)
  }

  function BitAt(d: Digest, j: nat, k: nat): Word
    requires j < 128
  {
    Shl(Words.And(BitWord(true), Shr(Ext(d[j / 8]), j % 8)), k)
  }

  lemma BitAtIs(n: Net, mh: seq<nat>, j: nat, k: nat, env: seq<Word>, d: Digest)
    requires Ready(n, env) && Carries(On(n, env), mh, d) && j < 128
    ensures MakesWord(n, BitAtNet(n, mh, j, k), env, 0, BitAt(d, j, k))
  {
    hide PlainRun, Legal, Cost, On, Ready, Ext, BitWord, Words.And, Shr, Shl;
    var x := Ext(d[j / 8]);
    var t := n.Map(ShiftRight(j % 8), mh[j / 8]);
    MapIs(n, ShiftRight(j % 8), mh[j / 8], env, x);
    var u := t.net.Map(KeepBits(BitWord(true)), t.id);
    MapIs(t.net, KeepBits(BitWord(true)), t.id, env, Shr(x, j % 8));
    MapIs(u.net, ShiftLeft(k), u.id, env, Words.And(BitWord(true), Shr(x, j % 8)));
  }

  /** The first k bits of coordinate i as a word, from the digest bits. */
  function CoordNet(n: Net, mh: seq<nat>, i: nat, k: nat): Wired
    requires i < CHAINS && k <= 3 && |mh| >= 16
    decreases |mh|, k
  {
    if k == 0 then n.Const(ZERO)
    else
      var o := CoordNet(n, mh, i, k - 1);
      var t := BitAtNet(o.net, mh, BitPos(i) + k - 1, k - 1);
      t.net.Xor(o.id, t.id)
  }

  function PartCoord(d: Digest, i: nat, k: nat): Word
    requires i < CHAINS && k <= 3
    decreases |d|, k
  {
    if k == 0 then ZERO else Words.Xor(PartCoord(d, i, k - 1), BitAt(d, BitPos(i) + k - 1, k - 1))
  }

  lemma BitAtBits(d: Digest, j: nat, k: nat)
    requires j < 128 && k < 32
    ensures forall m :: 0 <= m < 32 ==> BitAt(d, j, k)[m] == (m == k && DigestBit(d, j))
  {
    hide Ext;
    assert Ext(d[j / 8])[j % 8] == DigestBit(d, j);
  }

  lemma {:induction false} PartCoordBits(d: Digest, i: nat, k: nat)
    requires i < CHAINS && k <= 3
    ensures forall m :: 0 <= m < 32 ==> PartCoord(d, i, k)[m] == (m < k && CoordBits(d, i)[m])
  {
    hide BitPos, CoordBits, BitAt;
    if k > 0 {
      PartCoordBits(d, i, k - 1);
      BitAtBits(d, BitPos(i) + k - 1, k - 1);
      CoordBitIs(d, i, k - 1);
    }
  }

  lemma {:induction false} CoordTo(n: Net, mh: seq<nat>, i: nat, k: nat, env: seq<Word>, d: Digest)
    requires Ready(n, env) && Carries(On(n, env), mh, d) && i < CHAINS && k <= 3
    ensures MakesWord(n, CoordNet(n, mh, i, k), env, 0, PartCoord(d, i, k))
  {
    hide PlainRun, Legal, Cost, On, Ready, Words.Xor, BitAt, BitAtNet, BitPos, Ext;
    if k == 0 {
      ConstIs(n, ZERO, env);
    } else {
      CoordTo(n, mh, i, k - 1, env, d);
      var o := CoordNet(n, mh, i, k - 1);
      BitAtIs(o.net, mh, BitPos(i) + k - 1, k - 1, env, d);
      var t := BitAtNet(o.net, mh, BitPos(i) + k - 1, k - 1);
      XorIs(t.net, o.id, t.id, env, PartCoord(d, i, k - 1), BitAt(d, BitPos(i) + k - 1, k - 1));
    }
  }

  lemma CoordIs(n: Net, mh: seq<nat>, i: nat, env: seq<Word>, d: Digest)
    requires Ready(n, env) && Carries(On(n, env), mh, d) && i < CHAINS
    ensures |mh| == |d|
    ensures MakesWord(n, CoordNet(n, mh, i, 3), env, 0, Ext(Byte8(Coord(d, i))))
  {
    hide PlainRun, Legal, Cost, On, Ready, CoordNet, PartCoord, Coord, Byte8;
    CoordTo(n, mh, i, 3, env, d);
    PartCoordBits(d, i, 3);
    CoordByte(d, i);
    assert PartCoord(d, i, 3) == Ext(Byte8(Coord(d, i)));
  }

  method EmitCoord(n: Net, mh: seq<nat>, i: nat) returns (o: Wired)
    requires i < CHAINS && |mh| >= 16
    ensures o == CoordNet(n, mh, i, 3)
  {
    hide BitAtNet, BitPos;
    o := n.Const(ZERO);
    for k := 0 to 3
      invariant o == CoordNet(n, mh, i, k)
    {
      var t := BitAtNet(o.net, mh, BitPos(i) + k, k);
      o := t.net.Xor(o.id, t.id);
    }
  }

  lemma PlacePosition(acc: Word, p: seq<nat>, g: nat, lane: nat)
    requires lane < 4 && forall k :: 0 <= k < 32 ==> acc[k] == (k < 8 * lane && PosWord(p, g)[k])
    ensures forall k :: 0 <= k < 32 ==>
              Words.Xor(acc, Shl(Ext(Byte8(PAt(p, 4 * g + lane))), 8 * lane))[k] == (k < 8 * lane + 8 && PosWord(p, g)[k])
  {
    var x := Ext(Byte8(PAt(p, 4 * g + lane)));
    forall k | 0 <= k < 32
      ensures Words.Xor(acc, Shl(x, 8 * lane))[k] == (k < 8 * lane + 8 && PosWord(p, g)[k])
    {
      if 8 * lane <= k < 8 * lane + 8 {
        assert PosWord(p, g)[k] == Byte8(PAt(p, 4 * g + lane))[k - 8 * lane];
      }
    }
  }

  lemma UnusedLanes(p: seq<nat>, g: nat, lane: nat, k: nat)
    requires |p| == CHAINS && 4 * g + lane == CHAINS && lane == 2 && 16 <= k < 32
    ensures !PosWord(p, g)[k]
  {
    PackedZero();
    assert Packed(0, 0, 0, 0)[k] == PosWord(p, g)[k];
  }

  /** Group g's start positions, packed: its first lanes in place. */
  function StartNet(n: Net, mh: seq<nat>, g: nat, lane: nat): Wired
    requires |mh| >= 16 && lane <= 4 && 4 * g + lane <= CHAINS
    decreases |mh|, lane
  {
    hide CoordNet;
    if lane == 0 then n.Const(ZERO)
    else
      var o := StartNet(n, mh, g, lane - 1);
      var t := CoordNet(o.net, mh, 4 * g + lane - 1, 3);
      var u := t.net.Map(ShiftLeft(8 * (lane - 1)), t.id);
      u.net.Xor(o.id, u.id)
  }

  function PartStart(p: seq<nat>, g: nat, lane: nat): Word
    decreases |p|, lane
  {
    if lane == 0 then ZERO else Words.Xor(PartStart(p, g, lane - 1), Shl(Ext(Byte8(PAt(p, 4 * g + lane - 1))), 8 * (lane - 1)))
  }

  lemma {:induction false} PartStartBits(p: seq<nat>, g: nat, lane: nat)
    requires lane <= 4
    ensures forall k :: 0 <= k < 32 ==> PartStart(p, g, lane)[k] == (k < 8 * lane && PosWord(p, g)[k])
  {
    hide PosWord, PAt, Byte8;
    if lane > 0 {
      PartStartBits(p, g, lane - 1);
      PlacePosition(PartStart(p, g, lane - 1), p, g, lane - 1);
    }
  }

  lemma {:induction false} StartTo(n: Net, mh: seq<nat>, g: nat, lane: nat, env: seq<Word>, d: Digest)
    requires Ready(n, env) && Carries(On(n, env), mh, d) && lane <= 4 && 4 * g + lane <= CHAINS
    ensures MakesWord(n, StartNet(n, mh, g, lane), env, 0, PartStart(Coords(d), g, lane))
  {
    hide PlainRun, Legal, Cost, On, Ready, CoordNet, Coord, Byte8, Words.Xor, Shl, Ext;
    if lane == 0 {
      ConstIs(n, ZERO, env);
    } else {
      StartTo(n, mh, g, lane - 1, env, d);
      var o, i := StartNet(n, mh, g, lane - 1), 4 * g + lane - 1;
      var t, b := CoordNet(o.net, mh, i, 3), Byte8(Coord(d, i));
      CarriesKept(On(n, env), On(o.net, env), mh, d);
      CoordIs(o.net, mh, i, env, d);
      var u := t.net.Map(ShiftLeft(8 * (lane - 1)), t.id);
      MapIs(t.net, ShiftLeft(8 * (lane - 1)), t.id, env, Ext(b));
      XorIs(u.net, o.id, u.id, env, PartStart(Coords(d), g, lane - 1), Shl(Ext(b), 8 * (lane - 1)));
    }
  }

  lemma StartIs(n: Net, mh: seq<nat>, g: nat, env: seq<Word>, d: Digest)
    requires Ready(n, env) && Carries(On(n, env), mh, d) && g < GROUPS
    ensures |mh| == |d|
    ensures MakesWord(n, StartNet(n, mh, g, LanesOf(g)), env, 0, PosWord(Coords(d), g))
  {
    hide PlainRun, Legal, Cost, On, Ready, StartNet, PartStart, PosWord, Coord;
    var lane, p := LanesOf(g), Coords(d);
    StartTo(n, mh, g, lane, env, d);
    PartStartBits(p, g, lane);
    forall k | 0 <= k < 32
      ensures PartStart(p, g, lane)[k] == PosWord(p, g)[k]
    {
      if k >= 8 * lane { UnusedLanes(p, g, lane, k); }
    }
    assert PartStart(p, g, lane) == PosWord(p, g);
  }

  /** The packed start positions of the first g groups. */
  function PositionsNet(n: Net, mh: seq<nat>, g: nat): (o: Bundle)
    requires |mh| >= 16 && g <= GROUPS
    ensures |o.ids| == g
    decreases |mh|, g
  {
    hide StartNet;
    if g == 0 then Bundle(n, [])
    else
      var o := PositionsNet(n, mh, g - 1);
      var z := StartNet(o.net, mh, g - 1, LanesOf(g - 1));
      Bundle(z.net, o.ids + [z.id])
  }

  lemma {:induction false} PositionsAre(n: Net, mh: seq<nat>, g: nat, env: seq<Word>, d: Digest)
    requires Ready(n, env) && Carries(On(n, env), mh, d) && g <= GROUPS
    ensures |mh| == |d|
    ensures MakesWords(n, PositionsNet(n, mh, g), env, 0, PosWords(Coords(d))[..g])
  {
    hide PlainRun, Legal, Cost, On, Ready, StartNet, PosWord, Coords, Ext;
    if g > 0 {
      PositionsAre(n, mh, g - 1, env, d);
      var o := PositionsNet(n, mh, g - 1);
      CarriesKept(On(n, env), On(o.net, env), mh, d);
      StartIs(o.net, mh, g - 1, env, d);
    }
  }

  method EmitPositions(n: Net, mh: seq<nat>) returns (o: Bundle)
    requires |mh| >= 16
    ensures o == PositionsNet(n, mh, GROUPS)
  {
    hide CoordNet;
    o := Bundle(n, []);
    for g := 0 to GROUPS
      invariant o == PositionsNet(n, mh, g)
    {
      var a, lane := o.net.Const(ZERO), 0;
      while lane < 4 && 4 * g + lane < CHAINS
        invariant 0 <= lane <= 4 && 4 * g + lane <= CHAINS && a == StartNet(o.net, mh, g, lane)
      {
        var t := EmitCoord(a.net, mh, 4 * g + lane);
        var u := t.net.Map(ShiftLeft(8 * lane), t.id);
        a := u.net.Xor(a.id, u.id);
        lane := lane + 1;
      }
      o := Bundle(a.net, o.ids + [a.id]);
    }
  }

  // ---- the final check -----------------------------------------------------

  function Sevens(): (r: seq<nat>)
    ensures |r| == CHAINS
  {
    seq(CHAINS, _ => MAX_STEPS)
  }

  lemma PosWordEqual(p: seq<nat>, q: seq<nat>, g: nat)
    requires |p| == |q| == CHAINS && g < GROUPS
    requires forall k :: 0 <= k < CHAINS ==> p[k] < 256 && q[k] < 256
    ensures PosWord(p, g) == PosWord(q, g) <==> forall k :: 4 * g <= k < 4 * g + 4 && k < CHAINS ==> p[k] == q[k]
  {
    hide Packed, ToNat;
    var a, b, d, e := PAt(p, 4 * g), PAt(p, 4 * g + 1), PAt(p, 4 * g + 2), PAt(p, 4 * g + 3);
    var a', b', d', e' := PAt(q, 4 * g), PAt(q, 4 * g + 1), PAt(q, 4 * g + 2), PAt(q, 4 * g + 3);
    PackedValue(a, b, d, e);
    PackedValue(a', b', d', e');
    if PosWord(p, g) == PosWord(q, g) {
      assert a == a' && b == b' && d == d' && e == e';
    }
  }

  lemma OrIsZero(a: Word, b: Word)
    ensures Or(a, b) == ZERO <==> a == ZERO && b == ZERO
  {
    if Or(a, b) == ZERO {
      assert forall i :: 0 <= i < 32 ==> !Or(a, b)[i];
      assert a == ZERO && b == ZERO;
    }
  }

  lemma XorIsZero(a: Word, b: Word)
    ensures Words.Xor(a, b) == ZERO <==> a == b
  {
    if Words.Xor(a, b) == ZERO {
      assert forall i :: 0 <= i < 32 ==> !Words.Xor(a, b)[i];
      assert a == b;
    }
  }

  predicate SevensTo(p: seq<nat>, k: nat)
    requires k <= |p|
  {
    forall j :: 0 <= j < k ==> p[j] == MAX_STEPS
  }

  function ChainsIn(g: nat): (n: nat)
    ensures n <= CHAINS
  {
    if 4 * g <= CHAINS then 4 * g else CHAINS
  }

  /** Every counter of the first g groups must have reached 7. */
  function FinalNet(n: Net, positions: seq<nat>, check: nat, g: nat): Wired
    requires |positions| == GROUPS && g <= GROUPS
    decreases |positions|, g
  {
    hide PosWord;
    if g == 0 then Wired(n, check)
    else
      var o := FinalNet(n, positions, check, g - 1);
      var t := o.net.XorConst(positions[g - 1], PosWord(Sevens(), g - 1));
      OrNet(t.net, o.id, t.id)
  }

  function FinalWord(p: seq<nat>, w: Word, g: nat): Word
    decreases |p|, g
  {
    if g == 0 then w else Or(FinalWord(p, w, g - 1), Words.Xor(PosWord(p, g - 1), PosWord(Sevens(), g - 1)))
  }

  lemma {:induction false} FinalZero(p: seq<nat>, w: Word, g: nat)
    requires |p| == CHAINS && g <= GROUPS && forall k :: 0 <= k < CHAINS ==> p[k] < 256
    ensures FinalWord(p, w, g) == ZERO <==> w == ZERO && SevensTo(p, ChainsIn(g))
  {
    hide PosWord, Or, Words.Xor;
    if g > 0 {
      FinalZero(p, w, g - 1);
      XorIsZero(PosWord(p, g - 1), PosWord(Sevens(), g - 1));
      PosWordEqual(p, Sevens(), g - 1);
      OrIsZero(FinalWord(p, w, g - 1), Words.Xor(PosWord(p, g - 1), PosWord(Sevens(), g - 1)));
    }
  }

  lemma {:induction false} FinalTo(n: Net, positions: seq<nat>, check: nat, g: nat, env: seq<Word>, p: seq<nat>, w: Word)
    requires Ready(n, env) && |positions| == GROUPS && g <= GROUPS && AreWords(On(n, env), positions, PosWords(p)) && Is(On(n, env), check, w)
    ensures MakesWord(n, FinalNet(n, positions, check, g), env, g, FinalWord(p, w, g))
  {
    hide PlainRun, Legal, Cost, On, Ready, PosWord, Words.Xor, Or, OrNet;
    if g > 0 {
      FinalTo(n, positions, check, g - 1, env, p, w);
      var o, k := FinalNet(n, positions, check, g - 1), PosWord(Sevens(), g - 1);
      var t := o.net.XorConst(positions[g - 1], k);
      XorConstIs(o.net, positions[g - 1], k, env, PosWord(p, g - 1));
      OrIs(t.net, o.id, t.id, env, FinalWord(p, w, g - 1), Words.Xor(PosWord(p, g - 1), k));
    }
  }

  method EmitFinal(n: Net, positions: seq<nat>, check: nat) returns (o: Wired)
    requires |positions| == GROUPS
    ensures o == FinalNet(n, positions, check, GROUPS)
  {
    hide PosWord, OrNet;
    o := Wired(n, check);
    for g := 0 to GROUPS
      invariant o == FinalNet(n, positions, check, g)
    {
      var t := o.net.XorConst(positions[g], PosWord(Sevens(), g));
      o := OrNet(t.net, o.id, t.id);
    }
  }

  // ---- the whole gadget ----------------------------------------------------

  lemma StartState(key: ChainKey, tips: seq<Node>, coords: seq<nat>, s: seq<nat>)
    requires |tips| == CHAINS && |coords| == CHAINS
    ensures NodesAt(key, tips, coords, s, 0) == tips && PositionsAt(coords, s, 0) == coords && ValidTo(s, 0)
  {
  }

  lemma EndState(coords: seq<nat>, s: seq<nat>)
    requires |coords| == CHAINS
    ensures ValidTo(s, |s|) && SevensTo(PositionsAt(coords, s, |s|), CHAINS) <==> Complete(coords, s)
  {
    var p := PositionsAt(coords, s, |s|);
    assert forall c :: 0 <= c < CHAINS ==> p[c] == coords[c] + Count(s, c, |s|);
  }

  lemma BitWordZero()
    ensures forall b :: BitWord(b) == ZERO <==> !b
  {
    assert BitWord(false) == ZERO;
    assert BitWord(true)[0];
  }

  lemma PositionsEnd(coords: seq<nat>, s: seq<nat>)
    requires |coords| == CHAINS && |s| < 248 && forall j :: 0 <= j < CHAINS ==> coords[j] <= MAX_STEPS
    ensures forall j :: 0 <= j < CHAINS ==> PositionsAt(coords, s, |s|)[j] < 256
  {
  }

  function StartWires(n: Net, cols: seq<seq<nat>>, mh: seq<nat>): (o: Stage)
    requires Columns(cols) && |mh| >= 16
    ensures o.st.Shape()
  {
    hide PositionsNet;
    var z := n.Const(ZERO);
    var p := PositionsNet(z.net, mh, GROUPS);
    Stage(p.net, Wires(cols, p.ids, z.id))
  }

  lemma StartWiresHold(n: Net, cols: seq<seq<nat>>, mh: seq<nat>, env: seq<Word>, key: ChainKey, tips: seq<Node>, d: Digest, s: seq<nat>)
    requires Ready(n, env) && |tips| == CHAINS && Columns(cols) && NodesHold(On(n, env), cols, tips) && Carries(On(n, env), mh, d)
    ensures |mh| == |d|
    ensures var o := StartWires(n, cols, mh);
            Grows(n, o.net, env, 0) && StateHolds(On(o.net, env), o.st, key, tips, Coords(d), s, 0)
  {
    hide PlainRun, Legal, Cost, On, Ready, PositionsNet, Carries, NodesHold, NodesAt, PositionsAt, ValidTo, BitWord, PosWords, Coords;
    var z := n.Const(ZERO);
    ConstIs(n, ZERO, env);
    BitWordZero();
    CarriesKept(On(n, env), On(z.net, env), mh, d);
    PositionsAre(z.net, mh, GROUPS, env, d);
    assert PosWords(Coords(d))[..GROUPS] == PosWords(Coords(d));
    var o := StartWires(n, cols, mh);
    NodesKept(On(n, env), On(o.net, env), cols, tips);
    StartState(key, tips, Coords(d), s);
  }

  /** The first k steps of the schedule. */
  function StepsNet(n: Net, st: Wires, sched: seq<nat>, seed: seq<nat>, epoch: seq<nat>, k: nat): (o: Stage)
    requires st.Shape() && |seed| == 16 && |epoch| == 4 && k <= |sched|
    ensures o.st.Shape()
    decreases |sched|, k
  {
    hide StepNet;
    if k == 0 then Stage(n, st)
    else
      var o := StepsNet(n, st, sched, seed, epoch, k - 1);
      StepNet(o.net, o.st, sched[k - 1], seed, epoch)
  }

  lemma {:induction false} StepsAre(n: Net, st: Wires, sched: seq<nat>, seed: seq<nat>, epoch: seq<nat>, k: nat, env: seq<Word>,
                                    key: ChainKey, tips: seq<Node>, coords: seq<nat>, schedB: seq<Byte>)
    requires Ready(n, env) && st.Shape() && |tips| == CHAINS && |coords| == CHAINS && k <= |sched| < 248
    requires forall j :: 0 <= j < CHAINS ==> coords[j] <= MAX_STEPS
    requires Carries(On(n, env), sched, schedB) && StateHolds(On(n, env), st, key, tips, coords, Indices(schedB), 0)
    requires Carries(On(n, env), seed, key.seed) && Carries(On(n, env), epoch, key.epoch) && |seed| == 16 && |epoch| == 4
    ensures |sched| == |schedB|
    ensures var o := StepsNet(n, st, sched, seed, epoch, k);
            Grows(n, o.net, env, 711 * k) && StateHolds(On(o.net, env), o.st, key, tips, coords, Indices(schedB), k)
  {
    hide PlainRun, Legal, Cost, On, Ready, StepNet, StateHolds, Ext, ToNat;
    if k > 0 {
      StepsAre(n, st, sched, seed, epoch, k - 1, env, key, tips, coords, schedB);
      var o := StepsNet(n, st, sched, seed, epoch, k - 1);
      CarriesKept(On(n, env), On(o.net, env), seed, key.seed);
      CarriesKept(On(n, env), On(o.net, env), epoch, key.epoch);
      StepIs(o.net, o.st, sched[k - 1], seed, epoch, env, key, tips, coords, Indices(schedB), k - 1, schedB[k - 1]);
    }
  }

  datatype Pooled = Pooled(net: Net, cols: seq<seq<nat>>, check: nat)

  function ChainsNet(n: Net, cols: seq<seq<nat>>, mh: seq<nat>, sched: seq<nat>, seed: seq<nat>, epoch: seq<nat>): (o: Pooled)
    requires Columns(cols) && |mh| >= 16 && |seed| == 16 && |epoch| == 4
    ensures Columns(o.cols)
  {
    hide StartWires, StepsNet, FinalNet;
    var a := StartWires(n, cols, mh);
    var b := StepsNet(a.net, a.st, sched, seed, epoch, |sched|);
    var c := FinalNet(b.net, b.st.positions, b.st.check, GROUPS);
    Pooled(c.net, b.st.cols, c.id)
  }

  /** The check word after the last step. */
  function CheckWord(coords: seq<nat>, s: seq<nat>): Word
    requires |coords| == CHAINS
  {
    FinalWord(PositionsAt(coords, s, |s|), BitWord(!ValidTo(s, |s|)), GROUPS)
  }

  lemma CheckIsComplete(coords: seq<nat>, s: seq<nat>)
    requires |coords| == CHAINS && |s| < 248 && forall j :: 0 <= j < CHAINS ==> coords[j] <= MAX_STEPS
    ensures CheckWord(coords, s) == ZERO <==> Complete(coords, s)
  {
    hide PositionsAt, ValidTo, Complete, FinalWord, BitWord, SevensTo;
    PositionsEnd(coords, s);
    FinalZero(PositionsAt(coords, s, |s|), BitWord(!ValidTo(s, |s|)), GROUPS);
    BitWordZero();
    EndState(coords, s);
  }

  /** The pooled chains: the check word is zero exactly when the schedule, in whatever order, names only
      chains and steps chain c exactly 7 - coord(c) times; the nodes are the chains at the counted positions. */
  lemma ChainsAre(n: Net, cols: seq<seq<nat>>, mh: seq<nat>, sched: seq<nat>, seed: seq<nat>, epoch: seq<nat>, env: seq<Word>,
                  key: ChainKey, tips: seq<Node>, d: Digest, schedB: seq<Byte>)
    requires Ready(n, env) && |tips| == CHAINS && Columns(cols) && NodesHold(On(n, env), cols, tips) && Carries(On(n, env), mh, d)
    requires Carries(On(n, env), sched, schedB) && |sched| < 248
    requires Carries(On(n, env), seed, key.seed) && Carries(On(n, env), epoch, key.epoch) && |seed| == 16 && |epoch| == 4
    ensures |mh| == |d|
    ensures var o, s := ChainsNet(n, cols, mh, sched, seed, epoch), Indices(schedB);
            && Grows(n, o.net, env, 711 * |sched| + 11)
            && NodesHold(On(o.net, env), o.cols, NodesAt(key, tips, Coords(d), s, |s|))
            && Is(On(o.net, env), o.check, CheckWord(Coords(d), s)) && (CheckWord(Coords(d), s) == ZERO <==> Complete(Coords(d), s))
  {
    hide PlainRun, Legal, Cost, On, Ready, StartWires, StepsNet, FinalNet, FinalWord, Carries, NodesHold, NodesAt, PositionsAt, PosWords, ValidTo,
      BitWord, Coords, Indices, Complete;
    var s, coords := Indices(schedB), Coords(d);
    CarriesLength(On(n, env), mh, d);
    var a := StartWires(n, cols, mh);
    StartWiresHold(n, cols, mh, env, key, tips, d, s);
    CarriesKept(On(n, env), On(a.net, env), sched, schedB);
    CarriesKept(On(n, env), On(a.net, env), seed, key.seed);
    CarriesKept(On(n, env), On(a.net, env), epoch, key.epoch);
    var b := StepsNet(a.net, a.st, sched, seed, epoch, |sched|);
    CoordsBound(d);
    StepsAre(a.net, a.st, sched, seed, epoch, |sched|, env, key, tips, coords, schedB);
    IndicesLength(schedB);
    FinalTo(b.net, b.st.positions, b.st.check, GROUPS, env, PositionsAt(coords, s, |s|), BitWord(!ValidTo(s, |s|)));
    var c := FinalNet(b.net, b.st.positions, b.st.check, GROUPS);
    NodesKept(On(b.net, env), On(c.net, env), b.st.cols, NodesAt(key, tips, coords, s, |s|));
    CheckIsComplete(coords, s);
  }

  lemma CoordsBound(d: Digest)
    ensures forall j :: 0 <= j < CHAINS ==> Coords(d)[j] <= MAX_STEPS
  {
  }

  lemma IndicesLength(b: seq<Byte>)
    ensures |Indices(b)| == |b|
  {
  }

  method EmitChains(n: Net, cols: seq<seq<nat>>, mh: seq<nat>, sched: seq<nat>, seed: seq<nat>, epoch: seq<nat>) returns (o: Pooled)
    requires Columns(cols) && |mh| >= 16 && |seed| == 16 && |epoch| == 4
    ensures o == ChainsNet(n, cols, mh, sched, seed, epoch)
  {
    hide PositionsNet, StepNet, FinalNet;
    var z := n.Const(ZERO);
    var p := EmitPositions(z.net, mh);
    var a := Stage(p.net, Wires(cols, p.ids, z.id));
    var b := a;
    for k := 0 to |sched|
      invariant b == StepsNet(a.net, a.st, sched, seed, epoch, k)
    {
      b := EmitStep(b.net, b.st, sched[k], seed, epoch);
    }
    var c := EmitFinal(b.net, b.st.positions, b.st.check);
    o := Pooled(c.net, b.st.cols, c.id);
  }

  /** What a zero check word means: every endpoint is the native chain from its tip to position 7, and the
      coordinates leave exactly the schedule's length to walk (195 in all for 99 steps). */
  lemma CompleteMeaning(key: ChainKey, tips: seq<Node>, coords: seq<nat>, s: seq<nat>)
    requires |tips| == CHAINS && |coords| == CHAINS && forall j :: 0 <= j < CHAINS ==> coords[j] <= MAX_STEPS
    requires Complete(coords, s)
    ensures forall c :: 0 <= c < CHAINS ==>
              NodesAt(key, tips, coords, s, |s|)[c] == Chain(key, tips[c], c, coords[c], MAX_STEPS - coords[c])
    ensures Sum(coords) + |s| == 294
  {
    hide Chain;
    CountsTotal(s, |s|);
    assert Counts(s, |s|) == Remaining(coords);
    RemainingTotal(coords);
  }
}
