/** What one hidden party hides. Change the masks of the inputs in that party's shares only, and the party's tape can be
    changed to match: every public word, every other share, every correction and every broadcast of the whole run
    stays as it was. */
module Hiding {
  import opened Words
  import opened Sharing
  import opened Gates
  import opened Engine

  /** Equal everywhere but at e. */
  predicate SameBut<T(==)>(a: seq<T>, b: seq<T>, e: nat)
  {
    |a| == |b| && forall i :: 0 <= i < |a| && i != e ==> a[i] == b[i]
  }

  /** Equal to everyone but party e. */
  predicate LooksSame(x: Mw, y: Mw, e: nat)
  {
    x.h == y.h && SameBut(x.l, y.l, e)
  }

  lemma XorAllPatched(l: seq<Word>, e: nat, w: Word)
    requires e < |l|
    ensures XorAll(l[e := w]) == Xor(XorAll(l), Xor(l[e], w))
  {
    hide XorAll;
    var m: seq<Word> := l[e := w];
    assert Without(m, e) == Without(l, e);
    XorAllWithout(l, e);
    XorAllWithout(m, e);
    var a := XorAll(Without(l, e));
    SwapTerm(l[e], a, w);
  }

  lemma SwapTerm(x: Word, a: Word, w: Word)
    ensures Xor(w, a) == Xor(Xor(x, a), Xor(x, w))
  {
  }

  // ---- one AND gate --------------------------------------------------------

  lemma ShareInTape(xh: Word, yh: Word, xl: Word, yl: Word, t: Word, r: Word, first: bool, corr: Word, d: Word)
    ensures Share(xh, yh, xl, yl, Xor(t, d), r, first, corr) == Xor(Share(xh, yh, xl, yl, t, r, first, corr), d)
    ensures Share(xh, yh, xl, yl, t, Xor(r, d), first, corr) == Xor(Share(xh, yh, xl, yl, t, r, first, corr), d)
  {
  }

  lemma BackTo(a: Word, b: Word)
    ensures Xor(b, Xor(a, b)) == a
  {
  }

  lemma SharesPatched(x: Mw, y: Mw, t: seq<Word>, r: seq<Word>, x': Mw, y': Mw, t': seq<Word>, r': seq<Word>, e: nat, corr: Word)
    requires |x.l| == |y.l| == |t| == |r| && e < |t| && LooksSame(x, x', e) && LooksSame(y, y', e) && SameBut(t, t', e) && SameBut(r, r', e)
    requires Share(x.h, y.h, x.l[e], y.l[e], t[e], r[e], e == 0, corr) == Share(x'.h, y'.h, x'.l[e], y'.l[e], t'[e], r'[e], e == 0, corr)
    ensures Shares(x, y, t, r, 0, corr) == Shares(x', y', t', r', 0, corr)
  {
    hide Share;
    var a, b := Shares(x, y, t, r, 0, corr), Shares(x', y', t', r', 0, corr);
    forall i | 0 <= i < |t|
      ensures a[i] == b[i]
    {
    }
  }

  lemma CorrectionKept(lx: Word, ly: Word, lx': Word, ly': Word, t: Word, te: Word)
    ensures Xor(And(lx', ly'), Xor(t, Xor(te, Xor(te, Xor(And(lx, ly), And(lx', ly')))))) == Xor(And(lx, ly), t)
  {
  }

  /** The hidden party's two tape words that make an AND gate look as before. */
  lemma AndHides(x: Mw, y: Mw, t: seq<Word>, r: seq<Word>, x': Mw, y': Mw, e: nat) returns (t': seq<Word>, r': seq<Word>)
    requires |x.l| == |y.l| == |t| == |r| && e < |t| && LooksSame(x, x', e) && LooksSame(y, y', e)
    ensures SameBut(t, t', e) && SameBut(r, r', e)
    ensures AndCorrection(x', y', t') == AndCorrection(x, y, t)
    ensures Shares(x', y', t', r', 0, AndCorrection(x', y', t')) == Shares(x, y, t, r, 0, AndCorrection(x, y, t))
  {
    hide Share, Xor, And;
    var corr := AndCorrection(x, y, t);
    var lx, ly, lx', ly' := XorAll(x.l), XorAll(y.l), XorAll(x'.l), XorAll(y'.l);
    t' := t[e := Xor(t[e], Xor(And(lx, ly), And(lx', ly')))];
    XorAllPatched(t, e, t'[e]);
    CorrectionKept(lx, ly, lx', ly', XorAll(t), t[e]);
    var a := Share(x.h, y.h, x.l[e], y.l[e], t[e], r[e], e == 0, corr);
    var b := Share(x'.h, y'.h, x'.l[e], y'.l[e], t'[e], r[e], e == 0, corr);
    r' := r[e := Xor(r[e], Xor(a, b))];
    ShareInTape(x'.h, y'.h, x'.l[e], y'.l[e], t'[e], r[e], e == 0, corr, Xor(a, b));
    BackTo(a, b);
    SharesPatched(x, y, t, r, x', y', t', r', e, corr);
  }

  // ---- one ADD gate --------------------------------------------------------

  /** The word whose prefix parities are d, if d starts clear. */
  function Unprefixed(d: Word): (w: Word)
    ensures forall i :: 0 <= i < 32 ==> w[i] == (i < 31 && (d[i] != d[i + 1]))
  {
    seq(32, i requires 0 <= i < 32 => i < 31 && (d[i] != d[i + 1]))
  }

  lemma {:induction false} UnprefixedParity(d: Word, n: nat)
    requires !d[0] && n < 32
    ensures ParityTo(Unprefixed(d), n) == d[n]
    decreases n
  {
    if n > 0 { UnprefixedParity(d, n - 1); }
  }

  lemma PrefixOf(d: Word)
    requires !d[0]
    ensures Apply(PrefixXor, Unprefixed(d)) == d
  {
    PrefixXorShiftBits(Unprefixed(d));
    forall i | 0 <= i < 32
      ensures PrefixXorShift(Unprefixed(d))[i] == d[i]
    {
      UnprefixedParity(d, i);
    }
  }

  function CarryOf(x: Mw, y: Mw): Word
  {
    CarryWord(Unmask(x), Unmask(y))
  }

  /** The mask words under which party e's new operands give the old masked carry. */
  function NewMask(x: Mw, y: Mw, r: seq<Word>, x': Mw, y': Mw, e: nat): (r': seq<Word>)
    requires e < |r|
    ensures |r'| == |r|
  {
    r[e := Xor(r[e], Unprefixed(Xor(CarryOf(x, y), CarryOf(x', y'))))]
  }

  lemma CarryStartsClear(x: Mw, y: Mw, x': Mw, y': Mw)
    ensures !Xor(CarryOf(x, y), CarryOf(x', y'))[0]
  {
  }

  lemma CarrySharesPatched(r: seq<Word>, e: nat, w: Word)
    requires e < |r|
    ensures CarryShares(r[e := w]) == CarryShares(r)[e := Apply(PrefixXor, w)]
  {
    hide Apply;
  }

  /** The shares of the carry mask move by exactly the difference of the carries. */
  lemma NewCarryShares(x: Mw, y: Mw, r: seq<Word>, x': Mw, y': Mw, e: nat)
    requires e < |r|
    ensures var d := Xor(CarryOf(x, y), CarryOf(x', y'));
            var r' := NewMask(x, y, r, x', y', e);
            && SameBut(CarryShares(r), CarryShares(r'), e)
            && XorAll(CarryShares(r')) == Xor(XorAll(CarryShares(r)), d)
            && XorAll(r') == Xor(XorAll(r), Unprefixed(d))
  {
    hide Apply, XorAll, Xor, CarryOf, CarryShares;
    var d := Xor(CarryOf(x, y), CarryOf(x', y'));
    var u := Unprefixed(d);
    CarryStartsClear(x, y, x', y');
    PrefixOf(d);
    ApplyXor(PrefixXor, r[e], u);
    CarrySharesPatched(r, e, Xor(r[e], u));
    XorAllPatched(r, e, Xor(r[e], u));
    var c := CarryShares(r);
    CarrySharesAt(r, e);
    XorAllPatched(c, e, Xor(Apply(PrefixXor, r[e]), d));
    Difference(r[e], u);
    Difference(Apply(PrefixXor, r[e]), d);
  }

  lemma CarrySharesAt(r: seq<Word>, e: nat)
    requires e < |r|
    ensures |CarryShares(r)| == |r| && CarryShares(r)[e] == Apply(PrefixXor, r[e])
  {
  }

  lemma Difference(a: Word, d: Word)
    ensures Xor(a, Xor(a, d)) == d
  {
  }

  lemma MaskedCarryIs(x: Mw, y: Mw, r: seq<Word>)
    ensures MaskedCarry(x, y, r) == Xor(CarryOf(x, y), XorAll(CarryShares(r)))
  {
    CarryRecurrence(Unmask(x), Unmask(y));
  }

  lemma SameCarry(c: Word, c': Word, s: Word)
    ensures Xor(c', Xor(s, Xor(c, c'))) == Xor(c, s)
  {
  }

  lemma CarryKept(x: Mw, y: Mw, r: seq<Word>, x': Mw, y': Mw, e: nat)
    requires e < |r|
    ensures MaskedCarry(x', y', NewMask(x, y, r, x', y', e)) == MaskedCarry(x, y, r)
  {
    hide Xor, XorAll, CarryShares, CarryOf, MaskedCarry, NewMask;
    NewCarryShares(x, y, r, x', y', e);
    MaskedCarryIs(x, y, r);
    MaskedCarryIs(x', y', NewMask(x, y, r, x', y', e));
    SameCarry(CarryOf(x, y), CarryOf(x', y'), XorAll(CarryShares(r)));
  }

  lemma CarriedLooksSame(x: Mw, x': Mw, ch: Word, r: seq<Word>, r': seq<Word>, e: nat)
    requires LooksSame(x, x', e) && |x.l| == |r| && SameBut(CarryShares(r), CarryShares(r'), e) && |r| == |r'|
    ensures LooksSame(Carried(x, ch, r), Carried(x', ch, r'), e) && |Carried(x, ch, r).l| == |r|
  {
    CarryLength(r);
    CarryLength(r');
    hide CarryShares;
  }

  lemma CarryLength(r: seq<Word>)
    ensures |CarryShares(r)| == |r|
  {
  }

  /** The sum of all broadcasts moves with the correction. */
  lemma ColumnInCorrection(x: Mw, y: Mw, t: seq<Word>, r: seq<Word>, ch: Word, a: Word, b: Word)
    requires |x.l| == |y.l| == |t| == |r| > 0
    ensures Xor(XorAll(AddShares(x, y, t, r, ch, 0, a)), XorAll(AddShares(x, y, t, r, ch, 0, b))) == Xor(a, b)
  {
    hide XorAll;
    SumShares(Carried(x, ch, r), Carried(y, ch, r), t, r, 0, a);
    SumShares(Carried(x, ch, r), Carried(y, ch, r), t, r, 0, b);
    TotalsDiffer(Carried(x, ch, r).h, Carried(y, ch, r).h, XorAll(Carried(x, ch, r).l), XorAll(Carried(y, ch, r).l), XorAll(t), XorAll(r), a, b);
  }

  lemma TotalsDiffer(xh: Word, yh: Word, xl: Word, yl: Word, t: Word, r: Word, a: Word, b: Word)
    ensures Xor(Share(xh, yh, xl, yl, t, r, true, a), Share(xh, yh, xl, yl, t, r, true, b)) == Xor(a, b)
  {
  }

  /** What the broadcasts of an addition reveal: two neighbouring carries, masked. */
  lemma ColumnCarries(x: Mw, y: Mw, t: seq<Word>, r: seq<Word>, b: nat)
    requires |x.l| == |y.l| == |t| == |r| > 0 && b < 31
    ensures XorAll(AddColumn(x, y, t, r))[b] == ((CarryOf(x, y)[b + 1] != CarryOf(x, y)[b]) != XorAll(r)[b])
  {
    hide XorAll, CarryShares, AddCorrection, AddShares;
    ColumnReveals(x, y, t, r, MaskedCarry(x, y, r), b);
    MaskedCarryIs(x, y, r);
    CarryRecurrence(Unmask(x), Unmask(y));
  }

  lemma CorrectionTop(x: Mw, y: Mw, t: seq<Word>, r: seq<Word>)
    ensures !AddCorrection(x, y, t, r)[31]
  {
  }

  /** With the new mask words, and tape words that keep the column under the old correction, the correction is kept. */
  lemma AddCorrectionKept(x: Mw, y: Mw, t: seq<Word>, r: seq<Word>, x': Mw, y': Mw, t': seq<Word>, e: nat)
    requires |x.l| == |y.l| == |t| == |r| == |x'.l| == |y'.l| == |t'| && e < |t|
    requires var r' := NewMask(x, y, r, x', y', e);
             AddShares(x', y', t', r', MaskedCarry(x, y, r), 0, AddCorrection(x, y, t, r)) == AddColumn(x, y, t, r)
    ensures AddCorrection(x', y', t', NewMask(x, y, r, x', y', e)) == AddCorrection(x, y, t, r)
  {
    hide XorAll, AddShares, AddCorrection, MaskedCarry, CarryOf, NewMask, Xor;
    var r', ch := NewMask(x, y, r, x', y', e), MaskedCarry(x, y, r);
    var old', new' := AddCorrection(x, y, t, r), AddCorrection(x', y', t', r');
    CarryKept(x, y, r, x', y', e);
    NewCarryShares(x, y, r, x', y', e);
    ColumnInCorrection(x', y', t', r', ch, old', new');
    CorrectionTop(x, y, t, r);
    CorrectionTop(x', y', t', r');
    forall b | 0 <= b < 32
      ensures old'[b] == new'[b]
    {
      if b < 31 {
        ColumnCarries(x, y, t, r, b);
        ColumnCarries(x', y', t', r', b);
        CorrectionBit(XorAll(AddColumn(x, y, t, r)), XorAll(AddColumn(x', y', t', r')), old', new', CarryOf(x, y), CarryOf(x', y'), XorAll(r), b);
      }
    }
  }

  lemma CorrectionBit(s: Word, s': Word, a: Word, a': Word, c: Word, c': Word, r: Word, b: nat)
    requires b < 31 && Xor(s, s') == Xor(a, a')
    requires s[b] == ((c[b + 1] != c[b]) != r[b])
    requires s'[b] == ((c'[b + 1] != c'[b]) != Xor(r, Unprefixed(Xor(c, c')))[b])
    ensures a[b] == a'[b]
  {
    assert Xor(s, s')[b] == Xor(a, a')[b];
  }

  lemma AddHides(x: Mw, y: Mw, t: seq<Word>, r: seq<Word>, x': Mw, y': Mw, e: nat) returns (t': seq<Word>, r': seq<Word>)
    requires |x.l| == |y.l| == |t| == |r| && e < |t| && LooksSame(x, x', e) && LooksSame(y, y', e)
    ensures SameBut(t, t', e) && SameBut(r, r', e)
    ensures AddCorrection(x', y', t', r') == AddCorrection(x, y, t, r) && MaskedCarry(x', y', r') == MaskedCarry(x, y, r)
    ensures AddColumn(x', y', t', r') == AddColumn(x, y, t, r) && SameBut(CarryShares(r), CarryShares(r'), e)
  {
    hide Share, Xor, AddCorrection, MaskedCarry, CarryOf, CarryShares, Carried;
    r' := NewMask(x, y, r, x', y', e);
    var ch, corr := MaskedCarry(x, y, r), AddCorrection(x, y, t, r);
    CarryKept(x, y, r, x', y', e);
    NewCarryShares(x, y, r, x', y', e);
    CarriedLooksSame(x, x', ch, r, r', e);
    CarriedLooksSame(y, y', ch, r, r', e);
    t' := TapeFor(Carried(x, ch, r), Carried(y, ch, r), t, r, Carried(x', ch, r'), Carried(y', ch, r'), r', e, corr);
    AddCorrectionKept(x, y, t, r, x', y', t', e);
  }

  /** The tape words under which party e's broadcast stays what it was. */
  lemma TapeFor(x: Mw, y: Mw, t: seq<Word>, r: seq<Word>, x': Mw, y': Mw, r': seq<Word>, e: nat, corr: Word) returns (t': seq<Word>)
    requires |x.l| == |y.l| == |t| == |r| && e < |t| && LooksSame(x, x', e) && LooksSame(y, y', e) && SameBut(r, r', e)
    ensures SameBut(t, t', e) && Shares(x', y', t', r', 0, corr) == Shares(x, y, t, r, 0, corr)
  {
    hide Share, Xor;
    var a := Share(x.h, y.h, x.l[e], y.l[e], t[e], r[e], e == 0, corr);
    var b := Share(x'.h, y'.h, x'.l[e], y'.l[e], t[e], r'[e], e == 0, corr);
    t' := t[e := Xor(t[e], Xor(a, b))];
    ShareInTape(x'.h, y'.h, x'.l[e], y'.l[e], t[e], r'[e], e == 0, corr, Xor(a, b));
    BackTo(a, b);
    SharesPatched(x, y, t, r, x', y', t', r', e, corr);
  }

  // ---- either gate ---------------------------------------------------------

  lemma OutputLooksSame(x: Mw, y: Mw, x': Mw, y': Mw, ch: Word, r: seq<Word>, r': seq<Word>, e: nat)
    requires |x.l| == |y.l| == |r| == |r'| && LooksSame(x, x', e) && LooksSame(y, y', e) && SameBut(CarryShares(r), CarryShares(r'), e)
    ensures LooksSame(AddOutput(x, y, ch, r), AddOutput(x', y', ch, r'), e)
  {
    CarryLength(r);
    CarryLength(r');
    hide CarryShares;
  }

  /** Two tape words for the hidden party make any non-linear gate look as before. */
  lemma GateHides(add: bool, x: Mw, y: Mw, t: seq<Word>, r: seq<Word>, x': Mw, y': Mw, e: nat) returns (t': seq<Word>, r': seq<Word>)
    requires |x.l| == |y.l| == |t| == |r| && e < |t| && LooksSame(x, x', e) && LooksSame(y, y', e)
    ensures SameBut(t, t', e) && SameBut(r, r', e)
    ensures Correction(add, x', y', t', r') == Correction(add, x, y, t, r) && HonestColumn(add, x', y', t', r') == HonestColumn(add, x, y, t, r)
    ensures LooksSame(ProveGate(add, x, y, t, r), ProveGate(add, x', y', t', r'), e)
  {
    hide Shares, AddColumn, AddCorrection, AndCorrection, MaskedCarry, CarryShares, AddOutput;
    if add {
      t', r' := AddHides(x, y, t, r, x', y', e);
      OutputLooksSame(x, y, x', y', MaskedCarry(x, y, r), r, r', e);
    } else {
      t', r' := AndHides(x, y, t, r, x', y', e);
    }
  }

  // ---- the run -------------------------------------------------------------

  predicate AllLookSame(ws: seq<Mw>, vs: seq<Mw>, e: nat)
  {
    |ws| == |vs| && forall k :: 0 <= k < |ws| ==> LooksSame(ws[k], vs[k], e)
  }

  /** The first n words of every tape agree. */
  predicate TapesAgree(a: seq<Tape>, b: seq<Tape>, n: nat)
  {
    && |a| == |b| && TapesCover(a, n) && TapesCover(b, n)
    && forall i :: 0 <= i < |a| ==> a[i].lam[..n] == b[i].lam[..n] && a[i].prod[..n] == b[i].prod[..n]
  }

  lemma AgreeAt(a: seq<Tape>, b: seq<Tape>, n: nat, g: nat)
    requires TapesAgree(a, b, n) && g < n
    ensures LamAt(a, g) == LamAt(b, g) && ProdAt(a, g) == ProdAt(b, g)
  {
    forall i | 0 <= i < |a|
      ensures a[i].lam[g] == b[i].lam[g] && a[i].prod[g] == b[i].prod[g]
    {
      assert a[i].lam[g] == a[i].lam[..n][g] && b[i].lam[g] == b[i].lam[..n][g];
      assert a[i].prod[g] == a[i].prod[..n][g] && b[i].prod[g] == b[i].prod[..n][g];
    }
  }

  lemma AgreeLess(a: seq<Tape>, b: seq<Tape>, n: nat, m: nat)
    requires TapesAgree(a, b, n) && m <= n
    ensures TapesAgree(a, b, m)
  {
    forall i | 0 <= i < |a|
      ensures a[i].lam[..m] == b[i].lam[..m] && a[i].prod[..m] == b[i].prod[..m]
    {
      assert a[i].lam[..m] == a[i].lam[..n][..m] && b[i].lam[..m] == b[i].lam[..n][..m];
      assert a[i].prod[..m] == a[i].prod[..n][..m] && b[i].prod[..m] == b[i].prod[..n][..m];
    }
  }

  lemma LegalPrefix(gs: Program, inputs: nat)
    requires Legal(gs, inputs) && gs != []
    ensures Legal(gs[..|gs| - 1], inputs) && gs[|gs| - 1].Reads(inputs + |gs| - 1)
    ensures Cost(gs) == Cost(gs[..|gs| - 1]) + if gs[|gs| - 1].NonLinear() then 1 else 0
  {
  }

  /** A run reads no tape word past its cost. */
  lemma {:induction false} RunReads(gs: Program, ins: seq<Mw>, a: seq<Tape>, b: seq<Tape>)
    requires Legal(gs, |ins|) && Shared(ins, |a|) && TapesAgree(a, b, Cost(gs))
    ensures ProveRun(gs, ins, a) == ProveRun(gs, ins, b)
  {
    hide TapesAgree, ProveGate, Correction, HonestColumn, LinearWire, LamAt, ProdAt;
    if gs != [] {
      var k := |gs| - 1;
      LegalPrefix(gs, |ins|);
      AgreeLess(a, b, Cost(gs), Cost(gs[..k]));
      RunReads(gs[..k], ins, a, b);
      if gs[k].NonLinear() { AgreeAt(a, b, Cost(gs), Cost(gs[..k])); }
    }
  }

  lemma LinearLooksSame(g: Gate, ws: seq<Mw>, vs: seq<Mw>, n: nat, e: nat)
    requires !g.NonLinear() && g.Reads(|ws|) && Shared(ws, n) && Shared(vs, n) && AllLookSame(ws, vs, e)
    ensures LooksSame(LinearWire(g, ws, n), LinearWire(g, vs, n), e)
  {
    hide Apply;
  }

  lemma SharedToo(ws: seq<Mw>, vs: seq<Mw>, n: nat, e: nat)
    requires Shared(ws, n) && AllLookSame(ws, vs, e)
    ensures Shared(vs, n) && |vs| == |ws|
  {
    forall k | 0 <= k < |vs|
      ensures |vs[k].l| == n
    {
      assert LooksSame(ws[k], vs[k], e);
    }
  }

  /** What everyone but party e sees of two runs is the same. */
  predicate ViewsLookSame(v: View, w: View, e: nat)
  {
    v.aux == w.aux && v.cols == w.cols && AllLookSame(v.wires, w.wires, e)
  }

  lemma LinearStep(v: View, w: View, g: Gate, a: seq<Tape>, b: seq<Tape>, e: nat)
    requires |a| == |b| && ValidView(v, |a|, |v.aux|) && ValidView(w, |a|, |w.aux|) && ViewsLookSame(v, w, e)
    requires !g.NonLinear() && g.Reads(|v.wires|)
    ensures ViewsLookSame(ProveStep(v, g, a), ProveStep(w, g, b), e)
  {
    hide LinearWire, LooksSame;
    LinearLooksSame(g, v.wires, w.wires, |a|, e);
  }

  /** The tape of party e after one more gate. */
  lemma NonLinearStep(v: View, w: View, g: Gate, a: seq<Tape>, tape: Tape, e: nat) returns (next: Tape)
    requires ValidView(v, |a|, |v.aux|) && ValidView(w, |a|, |w.aux|) && ViewsLookSame(v, w, e) && e < |a|
    requires g.NonLinear() && g.Reads(|v.wires|) && TapesCover(a, |v.aux| + 1) && |tape.lam| == |tape.prod| == |v.aux|
    ensures |next.lam| == |next.prod| == |v.aux| + 1 && next.lam[..|v.aux|] == tape.lam && next.prod[..|v.aux|] == tape.prod
    ensures TapesCover(a[e := next], |v.aux| + 1) && ViewsLookSame(ProveStep(v, g, a), ProveStep(w, g, a[e := next]), e)
  {
    hide ProveGate, Correction, HonestColumn, LooksSame;
    var c := |v.aux|;
    var t, r := ProdAt(a, c), LamAt(a, c);
    assert LooksSame(v.wires[g.x], w.wires[g.x], e) && LooksSame(v.wires[g.y], w.wires[g.y], e);
    var t', r' := GateHides(g.AddGate?, v.wires[g.x], v.wires[g.y], t, r, w.wires[g.x], w.wires[g.y], e);
    next := Tape(tape.lam + [r'[e]], tape.prod + [t'[e]]);
    var b := a[e := next];
    assert ProdAt(b, c) == t' && LamAt(b, c) == r';
  }

  lemma PatchedCover(a: seq<Tape>, e: nat, tape: Tape, n: nat)
    requires e < |a| && TapesCover(a, n) && |tape.lam| == |tape.prod| == n
    ensures TapesCover(a[e := tape], n)
  {
  }

  lemma PatchedAgree(a: seq<Tape>, e: nat, tape: Tape, next: Tape, n: nat)
    requires e < |a| && TapesCover(a, n) && |tape.lam| == |tape.prod| == n && |next.lam| >= n && |next.prod| >= n
    requires next.lam[..n] == tape.lam && next.prod[..n] == tape.prod
    ensures TapesAgree(a[e := tape], a[e := next], n)
  {
    var x, y := a[e := tape], a[e := next];
    forall i | 0 <= i < |a|
      ensures x[i].lam[..n] == y[i].lam[..n] && x[i].prod[..n] == y[i].prod[..n]
    {
      if i == e { assert tape.lam[..n] == tape.lam && tape.prod[..n] == tape.prod; }
    }
  }

  /** A whole run: whatever party e's shares of the input masks are changed to, it has a tape under which all
      corrections, all broadcasts, all public words and all other shares stay as they were. */
  lemma {:induction false} RunHides(gs: Program, ins: seq<Mw>, vs: seq<Mw>, tapes: seq<Tape>, e: nat) returns (tape: Tape)
    requires Legal(gs, |ins|) && Shared(ins, |tapes|) && TapesCover(tapes, Cost(gs)) && e < |tapes| && AllLookSame(ins, vs, e)
    ensures |tape.lam| == |tape.prod| == Cost(gs) && TapesCover(tapes[e := tape], Cost(gs)) && Shared(vs, |tapes|)
    ensures ViewsLookSame(ProveRun(gs, ins, tapes), ProveRun(gs, vs, tapes[e := tape]), e)
  {
    hide TapesCover, Legal, Cost, ProveStep, LooksSame, AllLookSame, TapesAgree, Shared;
    SharedToo(ins, vs, |tapes|, e);
    if gs == [] {
      tape := Tape([], []);
      NoCost();
      PatchedCover(tapes, e, tape, 0);
    } else {
      var k := |gs| - 1;
      var c, g := Cost(gs[..k]), gs[k];
      LegalPrefix(gs, |ins|);
      CoverLess(tapes, Cost(gs), c);
      var before := RunHides(gs[..k], ins, vs, tapes, e);
      var v, w := ProveRun(gs[..k], ins, tapes), ProveRun(gs[..k], vs, tapes[e := before]);
      if g.NonLinear() {
        tape := NonLinearStep(v, w, g, tapes, before, e);
        PatchedAgree(tapes, e, before, tape, c);
        RunReads(gs[..k], vs, tapes[e := before], tapes[e := tape]);
      } else {
        tape := before;
        LinearStep(v, w, g, tapes, tapes[e := tape], e);
      }
    }
  }

  lemma NoCost()
    ensures Cost([]) == 0
  {
  }

  lemma CoverLess(tapes: seq<Tape>, n: nat, m: nat)
    requires TapesCover(tapes, n) && m <= n
    ensures TapesCover(tapes, m)
  {
  }
}
