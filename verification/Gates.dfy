/** The two non-linear gates on masked words. One formula, Share, gives every party's broadcast;
    the AND gate uses it on its operands and the 32-bit ADD gate on its operands masked by the carry. */
module Gates {
  import opened Words
  import opened Sharing

  /** A party's broadcast word. Only the first party adds the public product and the correction. */
  function Share(xh: Word, yh: Word, xl: Word, yl: Word, t: Word, r: Word, first: bool, corr: Word): Word
  {
    var s := Xor(Xor(Xor(And(xh, yl), And(yh, xl)), t), r);
    if first then Xor(s, Xor(And(xh, yh), corr)) else s
  }

  lemma ShareBit(xh: Word, yh: Word, xl: Word, yl: Word, t: Word, r: Word, first: bool, corr: Word, b: BitIndex)
    ensures Share(xh, yh, xl, yl, t, r, first, corr)[b]
         == (((((xh[b] && yl[b]) != (yh[b] && xl[b])) != t[b]) != r[b]) != (first && ((xh[b] && yh[b]) != corr[b])))
  {
  }

  /** The broadcasts of all the parties at hand; first is the slot of party 0, or -1 when it is hidden. */
  function Shares(x: Mw, y: Mw, t: seq<Word>, r: seq<Word>, first: int, corr: Word): (s: seq<Word>)
    requires |x.l| == |y.l| == |t| == |r|
    ensures |s| == |t|
    ensures forall j :: 0 <= j < |t| ==> s[j] == Share(x.h, y.h, x.l[j], y.l[j], t[j], r[j], j == first, corr)
  {
    seq(|t|, j requires 0 <= j < |t| => Share(x.h, y.h, x.l[j], y.l[j], t[j], r[j], j == first, corr))
  }

  function FirstSlot(e: nat): int { if e == 0 then -1 else 0 }

  function SharesTotal(x: Mw, y: Mw, t: seq<Word>, r: seq<Word>, first: bool, corr: Word): Word
  {
    Share(x.h, y.h, XorAll(x.l), XorAll(y.l), XorAll(t), XorAll(r), first, corr)
  }

  function Front(x: Mw, k: nat): Mw
    requires k <= |x.l|
  {
    Mw(x.h, x.l[..k])
  }

  /** The XOR of all broadcasts is the same formula on the XORs of the shares. */
  lemma {:induction false} SumShares(x: Mw, y: Mw, t: seq<Word>, r: seq<Word>, first: int, corr: Word)
    requires |x.l| == |y.l| == |t| == |r|
    ensures XorAll(Shares(x, y, t, r, first, corr)) == SharesTotal(x, y, t, r, 0 <= first < |t|, corr)
    decreases |t|
  {
    hide Share, Xor;
    if t == [] {
      NoShares(x.h, y.h, corr);
    } else {
      var k := |t| - 1;
      SumShares(Front(x, k), Front(y, k), t[..k], r[..k], first, corr);
      FrontShares(x, y, t, r, first, corr);
      var a, b := XorAll(x.l[..k]), XorAll(y.l[..k]);
      var c, d := XorAll(t[..k]), XorAll(r[..k]);
      ShareSplits(x.h, y.h, a, b, c, d, x.l[k], y.l[k], t[k], r[k], 0 <= first < k, k == first, corr);
    }
  }

  lemma NoShares(xh: Word, yh: Word, corr: Word)
    ensures Share(xh, yh, ZERO, ZERO, ZERO, ZERO, false, corr) == ZERO
  {
  }

  lemma FrontShares(x: Mw, y: Mw, t: seq<Word>, r: seq<Word>, first: int, corr: Word)
    requires |x.l| == |y.l| == |t| == |r| > 0
    ensures var k := |t| - 1;
            Shares(x, y, t, r, first, corr)[..k] == Shares(Front(x, k), Front(y, k), t[..k], r[..k], first, corr)
  {
    hide Share;
  }

  lemma ShareSplits(xh: Word, yh: Word, a: Word, b: Word, c: Word, d: Word,
                    xl: Word, yl: Word, t: Word, r: Word, f: bool, g: bool, corr: Word)
    requires !(f && g)
    ensures Xor(Share(xh, yh, a, b, c, d, f, corr), Share(xh, yh, xl, yl, t, r, g, corr))
         == Share(xh, yh, Xor(a, xl), Xor(b, yl), Xor(c, t), Xor(d, r), f || g, corr)
  {
  }

  lemma HideShares(x: Mw, y: Mw, t: seq<Word>, r: seq<Word>, corr: Word, e: nat)
    requires |x.l| == |y.l| == |t| == |r| && e < |t|
    ensures Without(Shares(x, y, t, r, 0, corr), e)
         == Shares(Hide(x, e), Hide(y, e), Without(t, e), Without(r, e), FirstSlot(e), corr)
  {
  }

  // ---- AND -----------------------------------------------------------------

  function AndCorrection(x: Mw, y: Mw, t: seq<Word>): Word
  {
    Xor(And(XorAll(x.l), XorAll(y.l)), XorAll(t))
  }

  /** The public word of the product: the XOR of all broadcasts. Its fresh mask shares are r. */
  function ProveAnd(x: Mw, y: Mw, t: seq<Word>, r: seq<Word>): Mw
    requires |x.l| == |y.l| == |t| == |r|
  {
    Mw(XorAll(Shares(x, y, t, r, 0, AndCorrection(x, y, t))), r)
  }

  function VerifyAnd(x: Mw, y: Mw, t: seq<Word>, r: seq<Word>, e: nat, msg: Word, corr: Word): Mw
    requires |x.l| == |y.l| == |t| == |r|
  {
    Mw(Xor(msg, XorAll(Shares(x, y, t, r, FirstSlot(e), corr))), r)
  }

  /** The masked product unmasks to the AND of the unmasked operands. */
  lemma AndUnmasks(x: Mw, y: Mw, t: seq<Word>, r: seq<Word>)
    requires |x.l| == |y.l| == |t| == |r| > 0
    ensures Unmask(ProveAnd(x, y, t, r)) == And(Unmask(x), Unmask(y))
  {
    SumShares(x, y, t, r, 0, AndCorrection(x, y, t));
  }

  /** The verifier of an AND gate, given the hidden party's broadcast, computes the prover's public word. */
  lemma AndVerifierAgrees(x: Mw, y: Mw, t: seq<Word>, r: seq<Word>, e: nat, corr: Word)
    requires |x.l| == |y.l| == |t| == |r| && e < |t|
    requires e != 0 ==> corr == AndCorrection(x, y, t)
    ensures VerifyAnd(Hide(x, e), Hide(y, e), Without(t, e), Without(r, e), e,
                      Shares(x, y, t, r, 0, AndCorrection(x, y, t))[e], corr)
         == Hide(ProveAnd(x, y, t, r), e)
    ensures Shares(Hide(x, e), Hide(y, e), Without(t, e), Without(r, e), FirstSlot(e), corr)
         == Without(Shares(x, y, t, r, 0, AndCorrection(x, y, t)), e)
  {
    var s := Shares(x, y, t, r, 0, AndCorrection(x, y, t));
    HideShares(x, y, t, r, AndCorrection(x, y, t), e);
    var v := Shares(Hide(x, e), Hide(y, e), Without(t, e), Without(r, e), FirstSlot(e), corr);
    assert v == Without(s, e);
    XorAllWithout(s, e);
    assert Xor(s[e], XorAll(v)) == XorAll(s);
  }

  /** A column of broadcasts that two verifiers hiding different parties both reproduce is the honest one. */
  lemma AndExtracts(x: Mw, y: Mw, t: seq<Word>, r: seq<Word>, e1: nat, e2: nat, corr1: Word, corr2: Word, col: seq<Word>)
    requires |x.l| == |y.l| == |t| == |r| == |col| && e1 < |t| && e2 < |t| && e1 != e2
    requires e1 != 0 ==> corr1 == AndCorrection(x, y, t)
    requires e2 != 0 ==> corr2 == AndCorrection(x, y, t)
    requires Shares(Hide(x, e1), Hide(y, e1), Without(t, e1), Without(r, e1), FirstSlot(e1), corr1) == Without(col, e1)
    requires Shares(Hide(x, e2), Hide(y, e2), Without(t, e2), Without(r, e2), FirstSlot(e2), corr2) == Without(col, e2)
    ensures col == Shares(x, y, t, r, 0, AndCorrection(x, y, t))
  {
    var s := Shares(x, y, t, r, 0, AndCorrection(x, y, t));
    AndVerifierAgrees(x, y, t, r, e1, corr1);
    AndVerifierAgrees(x, y, t, r, e2, corr2);
    SameColumn(col, s, e1, e2);
  }

  lemma SameColumn(a: seq<Word>, b: seq<Word>, e1: nat, e2: nat)
    requires |a| == |b| && e1 < |a| && e2 < |a| && e1 != e2
    requires Without(a, e1) == Without(b, e1) && Without(a, e2) == Without(b, e2)
    ensures a == b
  {
    forall p | 0 <= p < |a|
      ensures a[p] == b[p]
    {
      var e := if p == e1 then e2 else e1;
      SlotOf(p, e, |a|);
      var j := if p < e then p else p - 1;
      assert Without(a, e)[j] == Without(b, e)[j];
    }
  }

  // ---- ADD -----------------------------------------------------------------

  /** 0x7FFFFFFF: the carry out of bit 31 is not used. */
  const LOW31: Word := Ones(31) + [false]

  /** The carry's mask shares are derived from the tape, so ch = carry XOR their XOR. */
  function CarryShares(r: seq<Word>): seq<Word> { ApplyAll(PrefixXor, r) }

  function MaskedCarry(x: Mw, y: Mw, r: seq<Word>): Word
  {
    var xv, yv := Unmask(x), Unmask(y);
    Xor(Xor(Xor(Add(xv, yv), xv), yv), XorAll(CarryShares(r)))
  }

  /** An operand of the addition with the masked carry folded in. */
  function Carried(x: Mw, ch: Word, r: seq<Word>): Mw
    requires |x.l| == |r|
  {
    Mw(Xor(x.h, ch), XorEach(x.l, CarryShares(r)))
  }

  function AddCorrection(x: Mw, y: Mw, t: seq<Word>, r: seq<Word>): Word
  {
    And(Xor(And(Xor(XorAll(x.l), XorAll(CarryShares(r))), Xor(XorAll(y.l), XorAll(CarryShares(r)))), XorAll(t)), LOW31)
  }

  function AddShares(x: Mw, y: Mw, t: seq<Word>, r: seq<Word>, ch: Word, first: int, corr: Word): (s: seq<Word>)
    requires |x.l| == |y.l| == |t| == |r|
    ensures |s| == |t|
  {
    Shares(Carried(x, ch, r), Carried(y, ch, r), t, r, first, corr)
  }

  function AddOutput(x: Mw, y: Mw, ch: Word, r: seq<Word>): Mw
    requires |x.l| == |y.l| == |r|
  {
    Mw(Xor(Xor(x.h, y.h), ch), XorEach(XorEach(x.l, y.l), CarryShares(r)))
  }

  function ProveAdd(x: Mw, y: Mw, t: seq<Word>, r: seq<Word>): Mw
    requires |x.l| == |y.l| == |t| == |r|
  {
    AddOutput(x, y, MaskedCarry(x, y, r), r)
  }

  /** The honest broadcasts of an addition. */
  function AddColumn(x: Mw, y: Mw, t: seq<Word>, r: seq<Word>): (s: seq<Word>)
    requires |x.l| == |y.l| == |t| == |r|
    ensures |s| == |t|
  {
    AddShares(x, y, t, r, MaskedCarry(x, y, r), 0, AddCorrection(x, y, t, r))
  }

  /** Bit b of the revealed word, from the masked carry's bit b and the visible parties' totals. */
  function Revealed(x: Mw, y: Mw, t: seq<Word>, r: seq<Word>, e: nat, msg: Word, corr: Word, b: BitIndex, c: bool): bool
    requires |x.l| == |y.l| == |t| == |r|
  {
    var lp := XorAll(XorEach(x.l, CarryShares(r)));
    var lq := XorAll(XorEach(y.l, CarryShares(r)));
    var p, q := x.h[b] != c, y.h[b] != c;
    var srev := (((p && lq[b]) != (q && lp[b])) != XorAll(t)[b]) != XorAll(r)[b];
    msg[b] != (srev != (e != 0 && ((p && q) != corr[b])))
  }

  /** The masked carry after k rounds of the verifier's bit loop; bits above k are still clear. */
  function RebuiltCarry(x: Mw, y: Mw, t: seq<Word>, r: seq<Word>, e: nat, msg: Word, corr: Word, k: BitIndex): (ch: Word)
    requires |x.l| == |y.l| == |t| == |r|
    ensures forall i :: k < i < 32 ==> !ch[i]
  {
    if k == 0 then ZERO
    else
      var ch := RebuiltCarry(x, y, t, r, e, msg, corr, k - 1);
      Or(ch, Shl(BitWord(ch[k - 1] != Revealed(x, y, t, r, e, msg, corr, k - 1, ch[k - 1])), k))
  }

  function VerifierCarry(x: Mw, y: Mw, t: seq<Word>, r: seq<Word>, e: nat, msg: Word, corr: Word): Word
    requires |x.l| == |y.l| == |t| == |r|
  {
    RebuiltCarry(x, y, t, r, e, msg, corr, |msg| - 1)
  }

  function VerifyAdd(x: Mw, y: Mw, t: seq<Word>, r: seq<Word>, e: nat, msg: Word, corr: Word): Mw
    requires |x.l| == |y.l| == |t| == |r|
  {
    AddOutput(x, y, VerifierCarry(x, y, t, r, e, msg, corr), r)
  }

  function VerifyAddShares(x: Mw, y: Mw, t: seq<Word>, r: seq<Word>, e: nat, msg: Word, corr: Word): (s: seq<Word>)
    requires |x.l| == |y.l| == |t| == |r|
    ensures |s| == |t|
  {
    AddShares(x, y, t, r, VerifierCarry(x, y, t, r, e, msg, corr), FirstSlot(e), corr)
  }

  /** ch is a carry word fed, one bit up, by the word rev: ch = (ch ^ rev) << 1. */
  predicate Follows(ch: Word, rev: Word)
  {
    !ch[0] && forall b :: 0 <= b < 31 ==> ch[b + 1] == (ch[b] != rev[b])
  }

  lemma {:induction false} FollowsBits(c: Word, d: Word, rc: Word, rd: Word, b: nat)
    requires Follows(c, rc) && Follows(d, rd) && b < 32
    requires forall i :: 0 <= i < 31 && c[i] == d[i] ==> rc[i] == rd[i]
    ensures c[b] == d[b]
  {
    if b > 0 { FollowsBits(c, d, rc, rd, b - 1); }
  }

  /** Two carry words are equal when every revealed bit depends only on the carry bit below it. */
  lemma FollowsUnique(c: Word, d: Word, rc: Word, rd: Word)
    requires Follows(c, rc) && Follows(d, rd)
    requires forall i :: 0 <= i < 31 && c[i] == d[i] ==> rc[i] == rd[i]
    ensures c == d
  {
    forall b | 0 <= b < 32
      ensures c[b] == d[b]
    {
      FollowsBits(c, d, rc, rd, b);
    }
  }

  /** The carry word of an addition follows the recurrence c' = (x^c)(y^c) ^ c. */
  lemma CarryRecurrence(x: Word, y: Word)
    ensures var c := Xor(Xor(Add(x, y), x), y);
            c == CarryWord(x, y) && Follows(c, And(Xor(x, c), Xor(y, c)))
  {
    var c := Xor(Xor(Add(x, y), x), y);
    assert c == CarryWord(x, y);
    forall b | 0 <= b < 31
      ensures c[b + 1] == (c[b] != And(Xor(x, c), Xor(y, c))[b])
    {
      assert c[b + 1] == Carry(x, y, b + 1);
      assert c[b] == Carry(x, y, b);
    }
  }

  /** The XOR of prefix-shifted shares follows the XOR of the tape words they come from. */
  lemma CarryMaskRecurrence(r: seq<Word>)
    ensures Follows(XorAll(CarryShares(r)), XorAll(r))
  {
    XorAllApply(PrefixXor, r);
    PrefixXorShiftBits(XorAll(r));
  }

  /** (x^c)(y^c), masked by a tape bit. */
  predicate RevealedProduct(x: bool, y: bool, c: bool, r: bool)
  {
    ((x != c) && (y != c)) != r
  }

  lemma RevealBit(xh: Word, yh: Word, lx: Word, ly: Word, t: Word, r: Word, lc: Word, ch: Word, b: nat)
    requires b < 31
    ensures Share(Xor(xh, ch), Xor(yh, ch), Xor(lx, lc), Xor(ly, lc), t, r, true,
                  And(Xor(And(Xor(lx, lc), Xor(ly, lc)), t), LOW31))[b]
         == RevealedProduct(Xor(xh, lx)[b], Xor(yh, ly)[b], ch[b] != lc[b], r[b])
  {
    var corr := And(Xor(And(Xor(lx, lc), Xor(ly, lc)), t), LOW31);
    ShareBit(Xor(xh, ch), Xor(yh, ch), Xor(lx, lc), Xor(ly, lc), t, r, true, corr, b);
    assert corr[b] == (((lx[b] != lc[b]) && (ly[b] != lc[b])) != t[b]);
  }

  /** What all the broadcasts reveal together: (x^c)(y^c) masked by the tape word, below bit 31. */
  lemma ColumnReveals(x: Mw, y: Mw, t: seq<Word>, r: seq<Word>, ch: Word, b: nat)
    requires |x.l| == |y.l| == |t| == |r| > 0 && b < 31
    ensures XorAll(AddShares(x, y, t, r, ch, 0, AddCorrection(x, y, t, r)))[b]
         == RevealedProduct(Unmask(x)[b], Unmask(y)[b], ch[b] != XorAll(CarryShares(r))[b], XorAll(r)[b])
  {
    SumShares(Carried(x, ch, r), Carried(y, ch, r), t, r, 0, AddCorrection(x, y, t, r));
    XorAllEach(x.l, CarryShares(r));
    XorAllEach(y.l, CarryShares(r));
    RevealBit(x.h, y.h, XorAll(x.l), XorAll(y.l), XorAll(t), XorAll(r), XorAll(CarryShares(r)), ch, b);
  }

  /** The prover's masked carry follows what its own broadcasts reveal. */
  lemma HonestCarryFollows(x: Mw, y: Mw, t: seq<Word>, r: seq<Word>)
    requires |x.l| == |y.l| == |t| == |r| > 0
    ensures Follows(MaskedCarry(x, y, r), XorAll(AddColumn(x, y, t, r)))
  {
    var ch := MaskedCarry(x, y, r);
    var c := Xor(Xor(Add(Unmask(x), Unmask(y)), Unmask(x)), Unmask(y));
    CarryRecurrence(Unmask(x), Unmask(y));
    CarryMaskRecurrence(r);
    assert Xor(ch, XorAll(CarryShares(r))) == c;
    forall b: nat | b < 31
      ensures ch[b + 1] == (ch[b] != XorAll(AddColumn(x, y, t, r))[b])
    {
      ColumnReveals(x, y, t, r, ch, b);
    }
  }

  /** A masked carry that follows what the honest formula reveals under it is the prover's. */
  lemma HonestCarryUnique(x: Mw, y: Mw, t: seq<Word>, r: seq<Word>, ch: Word)
    requires |x.l| == |y.l| == |t| == |r| > 0
    requires Follows(ch, XorAll(AddShares(x, y, t, r, ch, 0, AddCorrection(x, y, t, r))))
    ensures ch == MaskedCarry(x, y, r)
  {
    var s, s' := XorAll(AddShares(x, y, t, r, ch, 0, AddCorrection(x, y, t, r))), XorAll(AddColumn(x, y, t, r));
    var ch' := MaskedCarry(x, y, r);
    HonestCarryFollows(x, y, t, r);
    forall i: nat | i < 31 && ch[i] == ch'[i]
      ensures s[i] == s'[i]
    {
      ColumnReveals(x, y, t, r, ch, i);
      ColumnReveals(x, y, t, r, ch', i);
    }
    FollowsUnique(ch, ch', s, s');
  }

  /** The masked sum unmasks to the sum modulo 2^32 of the unmasked operands. */
  lemma AddUnmasks(x: Mw, y: Mw, t: seq<Word>, r: seq<Word>)
    requires |x.l| == |y.l| == |t| == |r|
    ensures Unmask(ProveAdd(x, y, t, r)) == Add(Unmask(x), Unmask(y))
  {
    XorAllEach(x.l, y.l);
    XorAllEach(XorEach(x.l, y.l), CarryShares(r));
  }

  /** Adding one round of the loop leaves the bits already rebuilt alone. */
  lemma RebuiltStep(x: Mw, y: Mw, t: seq<Word>, r: seq<Word>, e: nat, msg: Word, corr: Word, k: nat)
    requires |x.l| == |y.l| == |t| == |r| && 0 < k < 32
    ensures var ch := RebuiltCarry(x, y, t, r, e, msg, corr, k - 1);
            var ch' := RebuiltCarry(x, y, t, r, e, msg, corr, k);
            && (forall i :: 0 <= i < k ==> ch'[i] == ch[i])
            && ch'[k] == (ch[k - 1] != Revealed(x, y, t, r, e, msg, corr, k - 1, ch[k - 1]))
  {
  }

  lemma {:induction false} RebuiltFollows(x: Mw, y: Mw, t: seq<Word>, r: seq<Word>, e: nat, msg: Word, corr: Word, k: BitIndex)
    requires |x.l| == |y.l| == |t| == |r|
    ensures var ch := RebuiltCarry(x, y, t, r, e, msg, corr, k);
            !ch[0] && forall b: nat :: b < k ==>
              ch[b + 1] == (ch[b] != Revealed(x, y, t, r, e, msg, corr, b, ch[b]))
  {
    if k > 0 {
      RebuiltFollows(x, y, t, r, e, msg, corr, k - 1);
      RebuiltStep(x, y, t, r, e, msg, corr, k);
    }
  }

  /** The word revealed under a candidate carry, bit by bit. */
  lemma RevealedBit(x: Mw, y: Mw, t: seq<Word>, r: seq<Word>, e: nat, msg: Word, corr: Word, ch: Word, b: BitIndex)
    requires |x.l| == |y.l| == |t| == |r|
    requires e == 0 || |t| > 0
    ensures Xor(msg, XorAll(AddShares(x, y, t, r, ch, FirstSlot(e), corr)))[b] == Revealed(x, y, t, r, e, msg, corr, b, ch[b])
  {
    SumShares(Carried(x, ch, r), Carried(y, ch, r), t, r, FirstSlot(e), corr);
    var s := XorAll(AddShares(x, y, t, r, ch, FirstSlot(e), corr));
    assert s == Share(Xor(x.h, ch), Xor(y.h, ch), XorAll(XorEach(x.l, CarryShares(r))),
                      XorAll(XorEach(y.l, CarryShares(r))), XorAll(t), XorAll(r), e != 0, corr);
  }

  /** The verifier's carry follows the XOR of the hidden broadcast and the visible ones it implies. */
  lemma VerifierCarryFollows(x: Mw, y: Mw, t: seq<Word>, r: seq<Word>, e: nat, msg: Word, corr: Word)
    requires |x.l| == |y.l| == |t| == |r|
    requires e == 0 || |t| > 0
    ensures Follows(VerifierCarry(x, y, t, r, e, msg, corr),
                    Xor(msg, XorAll(VerifyAddShares(x, y, t, r, e, msg, corr))))
  {
    var ch := VerifierCarry(x, y, t, r, e, msg, corr);
    RebuiltFollows(x, y, t, r, e, msg, corr, |msg| - 1);
    forall b: nat | b < 31
      ensures ch[b + 1] == (ch[b] != Xor(msg, XorAll(VerifyAddShares(x, y, t, r, e, msg, corr)))[b])
    {
      RevealedBit(x, y, t, r, e, msg, corr, ch, b);
    }
  }

  /** Hiding a party commutes with folding in the carry. */
  lemma HideCarried(x: Mw, ch: Word, r: seq<Word>, e: nat)
    requires |x.l| == |r| && e < |r|
    ensures Hide(Carried(x, ch, r), e) == Carried(Hide(x, e), ch, Without(r, e))
  {
  }

  lemma HideAddShares(x: Mw, y: Mw, t: seq<Word>, r: seq<Word>, ch: Word, e: nat, corr: Word, corr': Word)
    requires |x.l| == |y.l| == |t| == |r| && e < |t|
    requires e != 0 ==> corr' == corr
    ensures Without(AddShares(x, y, t, r, ch, 0, corr), e)
         == AddShares(Hide(x, e), Hide(y, e), Without(t, e), Without(r, e), ch, FirstSlot(e), corr')
  {
    HideCarried(x, ch, r, e);
    HideCarried(y, ch, r, e);
    HideShares(Carried(x, ch, r), Carried(y, ch, r), t, r, corr, e);
  }

  lemma HideAddOutput(x: Mw, y: Mw, ch: Word, r: seq<Word>, e: nat)
    requires |x.l| == |y.l| == |r| && e < |r|
    ensures Hide(AddOutput(x, y, ch, r), e) == AddOutput(Hide(x, e), Hide(y, e), ch, Without(r, e))
  {
  }

  /** If the visible broadcasts the verifier implies are the column's, its carry is the honest one
      as soon as the whole column has the honest form for that carry. */
  lemma ColumnDeterminesCarry(x: Mw, y: Mw, t: seq<Word>, r: seq<Word>, e: nat, corr: Word, col: seq<Word>)
    requires |x.l| == |y.l| == |t| == |r| == |col| && e < |t|
    requires VerifyAddShares(Hide(x, e), Hide(y, e), Without(t, e), Without(r, e), e, col[e], corr) == Without(col, e)
    ensures Follows(VerifierCarry(Hide(x, e), Hide(y, e), Without(t, e), Without(r, e), e, col[e], corr), XorAll(col))
  {
    var v := VerifyAddShares(Hide(x, e), Hide(y, e), Without(t, e), Without(r, e), e, col[e], corr);
    assert v == Without(col, e);
    XorAllWithout(col, e);
    VerifierCarryFollows(Hide(x, e), Hide(y, e), Without(t, e), Without(r, e), e, col[e], corr);
  }

  /** The bit loop's result is the only carry word that follows the word revealed under it. */
  lemma RebuiltUnique(x: Mw, y: Mw, t: seq<Word>, r: seq<Word>, e: nat, msg: Word, corr: Word, ch: Word)
    requires |x.l| == |y.l| == |t| == |r|
    requires e == 0 || |t| > 0
    requires Follows(ch, Xor(msg, XorAll(AddShares(x, y, t, r, ch, FirstSlot(e), corr))))
    ensures ch == VerifierCarry(x, y, t, r, e, msg, corr)
  {
    var v := VerifierCarry(x, y, t, r, e, msg, corr);
    VerifierCarryFollows(x, y, t, r, e, msg, corr);
    var rc := Xor(msg, XorAll(AddShares(x, y, t, r, ch, FirstSlot(e), corr)));
    var rd := Xor(msg, XorAll(AddShares(x, y, t, r, v, FirstSlot(e), corr)));
    forall i: nat | i < 31 && ch[i] == v[i]
      ensures rc[i] == rd[i]
    {
      RevealedBit(x, y, t, r, e, msg, corr, ch, i);
      RevealedBit(x, y, t, r, e, msg, corr, v, i);
    }
    FollowsUnique(ch, v, rc, rd);
  }

  lemma RebuiltIsHonest(x: Mw, y: Mw, t: seq<Word>, r: seq<Word>, e: nat, corr: Word)
    requires |x.l| == |y.l| == |t| == |r| && e < |t|
    requires e != 0 ==> corr == AddCorrection(x, y, t, r)
    ensures VerifierCarry(Hide(x, e), Hide(y, e), Without(t, e), Without(r, e), e, AddColumn(x, y, t, r)[e], corr)
         == MaskedCarry(x, y, r)
  {
    var s := AddColumn(x, y, t, r);
    var ch := MaskedCarry(x, y, r);
    HonestCarryFollows(x, y, t, r);
    HideAddShares(x, y, t, r, ch, e, AddCorrection(x, y, t, r), corr);
    XorAllWithout(s, e);
    RebuiltUnique(Hide(x, e), Hide(y, e), Without(t, e), Without(r, e), e, s[e], corr, ch);
  }

  /** Carry reconstruction: fed the hidden party's broadcast, the verifier's 31-round loop rebuilds the
      prover's masked carry, and with it the public word, every visible output share and every visible
      broadcast. When party 0 is hidden the correction plays no part. */
  lemma AddVerifierAgrees(x: Mw, y: Mw, t: seq<Word>, r: seq<Word>, e: nat, corr: Word)
    requires |x.l| == |y.l| == |t| == |r| && e < |t|
    requires e != 0 ==> corr == AddCorrection(x, y, t, r)
    ensures VerifyAdd(Hide(x, e), Hide(y, e), Without(t, e), Without(r, e), e, AddColumn(x, y, t, r)[e], corr)
         == Hide(ProveAdd(x, y, t, r), e)
    ensures VerifyAddShares(Hide(x, e), Hide(y, e), Without(t, e), Without(r, e), e, AddColumn(x, y, t, r)[e], corr)
         == Without(AddColumn(x, y, t, r), e)
  {
    hide Hide, Without, MaskedCarry, AddCorrection, AddShares, AddOutput, VerifierCarry, FirstSlot;
    var ch := MaskedCarry(x, y, r);
    RebuiltIsHonest(x, y, t, r, e, corr);
    HideAddShares(x, y, t, r, ch, e, AddCorrection(x, y, t, r), corr);
    HideAddOutput(x, y, ch, r, e);
  }

  /** Any column reproduced by two verifiers hiding different parties is the honest one, and both
      verifiers then hold the prover's output. */
  lemma AddExtracts(x: Mw, y: Mw, t: seq<Word>, r: seq<Word>, e1: nat, e2: nat, corr1: Word, corr2: Word, col: seq<Word>)
    requires |x.l| == |y.l| == |t| == |r| == |col| && e1 < |t| && e2 < |t| && e1 != e2
    requires e1 != 0 ==> corr1 == AddCorrection(x, y, t, r)
    requires e2 != 0 ==> corr2 == AddCorrection(x, y, t, r)
    requires VerifyAddShares(Hide(x, e1), Hide(y, e1), Without(t, e1), Without(r, e1), e1, col[e1], corr1) == Without(col, e1)
    requires VerifyAddShares(Hide(x, e2), Hide(y, e2), Without(t, e2), Without(r, e2), e2, col[e2], corr2) == Without(col, e2)
    ensures col == AddColumn(x, y, t, r)
  {
    hide Hide, Without, MaskedCarry, AddCorrection, AddShares, AddOutput, VerifierCarry, FirstSlot, Follows, XorAll;
    var c1 := VerifierCarry(Hide(x, e1), Hide(y, e1), Without(t, e1), Without(r, e1), e1, col[e1], corr1);
    var c2 := VerifierCarry(Hide(x, e2), Hide(y, e2), Without(t, e2), Without(r, e2), e2, col[e2], corr2);
    ColumnDeterminesCarry(x, y, t, r, e1, corr1, col);
    ColumnDeterminesCarry(x, y, t, r, e2, corr2, col);
    FollowsUnique(c1, c2, XorAll(col), XorAll(col));
    var s := AddShares(x, y, t, r, c1, 0, AddCorrection(x, y, t, r));
    HideAddShares(x, y, t, r, c1, e1, AddCorrection(x, y, t, r), corr1);
    HideAddShares(x, y, t, r, c1, e2, AddCorrection(x, y, t, r), corr2);
    SameColumn(col, s, e1, e2);
    HonestCarryUnique(x, y, t, r, c1);
  }
}
