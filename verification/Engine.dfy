/** Circuits as gate lists, and their three evaluations: by the prover on N shares, by the verifier on
    N-1 shares and the hidden party's broadcasts, and on plain words. Every gate appends one wire;
    only AND and ADD consume tape, correction and broadcast words, in gate order. */
module Engine {
  import opened Words
  import opened Sharing
  import opened Gates

  datatype Gate =
    | ConstGate(k: Word)
    | XorGate(x: nat, y: nat)
    | XorConstGate(x: nat, k: Word)
    | LinearGate(op: Linear, x: nat)
    | AndGate(x: nat, y: nat)
    | AddGate(x: nat, y: nat)
  {
    predicate NonLinear() { AndGate? || AddGate? }

    /** The operands are earlier wires. */
    predicate Reads(n: nat)
    {
      match this
      case ConstGate(_) => true
      case XorGate(x, y) => x < n && y < n
      case XorConstGate(x, _) => x < n
      case LinearGate(_, x) => x < n
      case AndGate(x, y) => x < n && y < n
      case AddGate(x, y) => x < n && y < n
    }
  }

  type Program = seq<Gate>

  predicate Legal(gs: Program, inputs: nat)
  {
    forall i :: 0 <= i < |gs| ==> gs[i].Reads(inputs + i)
  }

  /** The number of AND and ADD gates: tape, correction and broadcast words used. */
  function Cost(gs: Program): (c: nat)
    ensures c <= |gs|
  {
    if gs == [] then 0 else Cost(gs[..|gs| - 1]) + if gs[|gs| - 1].NonLinear() then 1 else 0
  }

  /** A party's tape: fresh mask words and its shares of the mask products. */
  datatype Tape = Tape(lam: seq<Word>, prod: seq<Word>)

  predicate TapesCover(tapes: seq<Tape>, n: nat)
  {
    forall i :: 0 <= i < |tapes| ==> |tapes[i].lam| >= n && |tapes[i].prod| >= n
  }

  function LamAt(tapes: seq<Tape>, g: nat): (r: seq<Word>)
    requires TapesCover(tapes, g + 1)
    ensures |r| == |tapes| && forall i :: 0 <= i < |r| ==> r[i] == tapes[i].lam[g]
  {
    seq(|tapes|, i requires 0 <= i < |tapes| => tapes[i].lam[g])
  }

  function ProdAt(tapes: seq<Tape>, g: nat): (r: seq<Word>)
    requires TapesCover(tapes, g + 1)
    ensures |r| == |tapes| && forall i :: 0 <= i < |r| ==> r[i] == tapes[i].prod[g]
  {
    seq(|tapes|, i requires 0 <= i < |tapes| => tapes[i].prod[g])
  }

  predicate Shared(ws: seq<Mw>, n: nat)
  {
    forall i :: 0 <= i < |ws| ==> |ws[i].l| == n
  }

  /** The free gates act on the public word and on every share alike; constants touch only the public word. */
  function LinearWire(g: Gate, ws: seq<Mw>, n: nat): (z: Mw)
    requires !g.NonLinear() && g.Reads(|ws|) && Shared(ws, n)
    ensures |z.l| == n
  {
    match g
    case ConstGate(k) => Mw(k, ZeroWords(n))
    case XorGate(x, y) => Mw(Xor(ws[x].h, ws[y].h), XorEach(ws[x].l, ws[y].l))
    case XorConstGate(x, k) => Mw(Xor(ws[x].h, k), ws[x].l)
    case LinearGate(op, x) => Mw(Apply(op, ws[x].h), ApplyAll(op, ws[x].l))
  }

  // ---- AND and ADD alike ----------------------------------------------------

  function ProveGate(add: bool, x: Mw, y: Mw, t: seq<Word>, r: seq<Word>): (z: Mw)
    requires |x.l| == |y.l| == |t| == |r|
    ensures |z.l| == |t|
  {
    if add then ProveAdd(x, y, t, r) else ProveAnd(x, y, t, r)
  }

  function Correction(add: bool, x: Mw, y: Mw, t: seq<Word>, r: seq<Word>): Word
    requires |x.l| == |y.l| == |t| == |r|
  {
    if add then AddCorrection(x, y, t, r) else AndCorrection(x, y, t)
  }

  function HonestColumn(add: bool, x: Mw, y: Mw, t: seq<Word>, r: seq<Word>): (c: seq<Word>)
    requires |x.l| == |y.l| == |t| == |r|
    ensures |c| == |t|
  {
    if add then AddColumn(x, y, t, r) else Shares(x, y, t, r, 0, AndCorrection(x, y, t))
  }

  function VerifyGate(add: bool, x: Mw, y: Mw, t: seq<Word>, r: seq<Word>, e: nat, msg: Word, corr: Word): (z: Mw)
    requires |x.l| == |y.l| == |t| == |r|
    ensures |z.l| == |t|
  {
    if add then VerifyAdd(x, y, t, r, e, msg, corr) else VerifyAnd(x, y, t, r, e, msg, corr)
  }

  function VisibleColumn(add: bool, x: Mw, y: Mw, t: seq<Word>, r: seq<Word>, e: nat, msg: Word, corr: Word): (c: seq<Word>)
    requires |x.l| == |y.l| == |t| == |r|
    ensures |c| == |t|
  {
    if add then VerifyAddShares(x, y, t, r, e, msg, corr) else Shares(x, y, t, r, FirstSlot(e), corr)
  }

  /** Either gate unmasks to its plain operation. */
  lemma GateUnmasks(add: bool, x: Mw, y: Mw, t: seq<Word>, r: seq<Word>)
    requires |x.l| == |y.l| == |t| == |r| > 0
    ensures Unmask(ProveGate(add, x, y, t, r)) == if add then Add(Unmask(x), Unmask(y)) else And(Unmask(x), Unmask(y))
  {
    hide Unmask, ProveAdd, ProveAnd;
    if add { AddUnmasks(x, y, t, r); } else { AndUnmasks(x, y, t, r); }
  }

  /** Either gate's verifier, fed party e's broadcast, is the prover with e hidden. */
  lemma GateAgrees(add: bool, x: Mw, y: Mw, t: seq<Word>, r: seq<Word>, e: nat, corr: Word)
    requires |x.l| == |y.l| == |t| == |r| && e < |t|
    requires e != 0 ==> corr == Correction(add, x, y, t, r)
    ensures var col := HonestColumn(add, x, y, t, r);
            && VerifyGate(add, Hide(x, e), Hide(y, e), Without(t, e), Without(r, e), e, col[e], corr) == Hide(ProveGate(add, x, y, t, r), e)
            && VisibleColumn(add, Hide(x, e), Hide(y, e), Without(t, e), Without(r, e), e, col[e], corr) == Without(col, e)
  {
    hide Hide, Without, VerifyAdd, VerifyAnd, VerifyAddShares, Shares, ProveAdd, ProveAnd, AddColumn, AddCorrection, AndCorrection;
    if add { AddVerifierAgrees(x, y, t, r, e, corr); } else { AndVerifierAgrees(x, y, t, r, e, corr); }
  }

  // ---- the prover ----------------------------------------------------------

  /** The wires so far, the corrections, and per non-linear gate the column of all parties' broadcasts. */
  datatype View = View(wires: seq<Mw>, aux: seq<Word>, cols: seq<seq<Word>>)

  predicate ValidView(v: View, n: nat, cost: nat)
  {
    Shared(v.wires, n) && |v.aux| == |v.cols| == cost && forall g :: 0 <= g < cost ==> |v.cols[g]| == n
  }

  function Extended(v: View, z: Mw, corr: Word, col: seq<Word>, n: nat): (v': View)
    requires ValidView(v, n, |v.aux|) && |z.l| == |col| == n
    ensures ValidView(v', n, |v.aux| + 1)
    ensures v'.wires == v.wires + [z] && v'.aux == v.aux + [corr] && v'.cols == v.cols + [col]
  {
    View(v.wires + [z], v.aux + [corr], v.cols + [col])
  }

  function ProveStep(v: View, g: Gate, tapes: seq<Tape>): (v': View)
    requires ValidView(v, |tapes|, |v.aux|) && g.Reads(|v.wires|)
    requires g.NonLinear() ==> TapesCover(tapes, |v.aux| + 1)
    ensures ValidView(v', |tapes|, |v.aux| + if g.NonLinear() then 1 else 0)
    ensures |v'.wires| == |v.wires| + 1
    ensures v.wires <= v'.wires && v.aux <= v'.aux && v.cols <= v'.cols
  {
    hide ProveGate, Correction, HonestColumn, LinearWire;
    if !g.NonLinear() then
      v.(wires := v.wires + [LinearWire(g, v.wires, |tapes|)])
    else
      var x, y := v.wires[g.x], v.wires[g.y];
      var t, r := ProdAt(tapes, |v.aux|), LamAt(tapes, |v.aux|);
      Extended(v, ProveGate(g.AddGate?, x, y, t, r), Correction(g.AddGate?, x, y, t, r), HonestColumn(g.AddGate?, x, y, t, r), |tapes|)
  }

  function ProveRun(gs: Program, ins: seq<Mw>, tapes: seq<Tape>): (v: View)
    requires Legal(gs, |ins|) && Shared(ins, |tapes|) && TapesCover(tapes, Cost(gs))
    ensures ValidView(v, |tapes|, Cost(gs)) && |v.wires| == |ins| + |gs|
  {
    if gs == [] then View(ins, [], [])
    else ProveStep(ProveRun(gs[..|gs| - 1], ins, tapes), gs[|gs| - 1], tapes)
  }

  // ---- the verifier --------------------------------------------------------

  /** slots[g] lists the visible parties' broadcasts at gate g, as the verifier recomputes them. */
  datatype Replay = Replay(wires: seq<Mw>, slots: seq<seq<Word>>)

  predicate ValidReplay(v: Replay, n: nat, cost: nat)
  {
    Shared(v.wires, n) && |v.slots| == cost && forall g :: 0 <= g < cost ==> |v.slots[g]| == n
  }

  function WithGate(v: Replay, z: Mw, slot: seq<Word>, n: nat): (v': Replay)
    requires ValidReplay(v, n, |v.slots|) && |z.l| == |slot| == n
    ensures ValidReplay(v', n, |v.slots| + 1) && v'.wires == v.wires + [z] && v'.slots == v.slots + [slot]
  {
    Replay(v.wires + [z], v.slots + [slot])
  }

  function VerifyStep(v: Replay, g: Gate, tapes: seq<Tape>, e: nat, msgs: seq<Word>, aux: seq<Word>): (v': Replay)
    requires ValidReplay(v, |tapes|, |v.slots|) && g.Reads(|v.wires|)
    requires g.NonLinear() ==> TapesCover(tapes, |v.slots| + 1) && |msgs| > |v.slots| && |aux| > |v.slots|
    ensures ValidReplay(v', |tapes|, |v.slots| + if g.NonLinear() then 1 else 0)
    ensures |v'.wires| == |v.wires| + 1 && v.slots <= v'.slots
  {
    hide VerifyGate, VisibleColumn, LinearWire;
    if !g.NonLinear() then
      v.(wires := v.wires + [LinearWire(g, v.wires, |tapes|)])
    else
      var k := |v.slots|;
      var x, y := v.wires[g.x], v.wires[g.y];
      var t, r := ProdAt(tapes, k), LamAt(tapes, k);
      WithGate(v, VerifyGate(g.AddGate?, x, y, t, r, e, msgs[k], aux[k]),
               VisibleColumn(g.AddGate?, x, y, t, r, e, msgs[k], aux[k]), |tapes|)
  }

  function VerifyRun(gs: Program, ins: seq<Mw>, tapes: seq<Tape>, e: nat, msgs: seq<Word>, aux: seq<Word>): (v: Replay)
    requires Legal(gs, |ins|) && Shared(ins, |tapes|) && TapesCover(tapes, Cost(gs))
    requires |msgs| >= Cost(gs) && |aux| >= Cost(gs)
    ensures ValidReplay(v, |tapes|, Cost(gs)) && |v.wires| == |ins| + |gs|
  {
    if gs == [] then Replay(ins, [])
    else VerifyStep(VerifyRun(gs[..|gs| - 1], ins, tapes, e, msgs, aux), gs[|gs| - 1], tapes, e, msgs, aux)
  }

  // ---- plain words ---------------------------------------------------------

  function PlainWire(g: Gate, ws: seq<Word>): Word
    requires g.Reads(|ws|)
  {
    match g
    case ConstGate(k) => k
    case XorGate(x, y) => Xor(ws[x], ws[y])
    case XorConstGate(x, k) => Xor(ws[x], k)
    case LinearGate(op, x) => Apply(op, ws[x])
    case AndGate(x, y) => And(ws[x], ws[y])
    case AddGate(x, y) => Add(ws[x], ws[y])
  }

  function PlainRun(gs: Program, ins: seq<Word>): (ws: seq<Word>)
    requires Legal(gs, |ins|)
    ensures |ws| == |ins| + |gs|
  {
    if gs == [] then ins
    else
      var ws := PlainRun(gs[..|gs| - 1], ins);
      ws + [PlainWire(gs[|gs| - 1], ws)]
  }

  function UnmaskAll(ws: seq<Mw>): (r: seq<Word>)
    ensures |r| == |ws| && forall i :: 0 <= i < |ws| ==> r[i] == Unmask(ws[i])
  {
    seq(|ws|, i requires 0 <= i < |ws| => Unmask(ws[i]))
  }

  function HideAll(ws: seq<Mw>, e: nat, n: nat): (r: seq<Mw>)
    requires Shared(ws, n) && e < n
    ensures |r| == |ws| && Shared(r, n - 1) && forall i :: 0 <= i < |ws| ==> r[i] == Hide(ws[i], e)
  {
    seq(|ws|, i requires 0 <= i < |ws| => Hide(ws[i], e))
  }

  function HideCols(cols: seq<seq<Word>>, e: nat, n: nat): (r: seq<seq<Word>>)
    requires e < n && forall g :: 0 <= g < |cols| ==> |cols[g]| == n
    ensures |r| == |cols| && forall g :: 0 <= g < |cols| ==> r[g] == Without(cols[g], e)
  {
    seq(|cols|, g requires 0 <= g < |cols| => Without(cols[g], e))
  }

  /** Party e's broadcast stream. */
  function Messages(cols: seq<seq<Word>>, e: nat, n: nat): (r: seq<Word>)
    requires e < n && forall g :: 0 <= g < |cols| ==> |cols[g]| == n
    ensures |r| == |cols| && forall g :: 0 <= g < |cols| ==> r[g] == cols[g][e]
  {
    seq(|cols|, g requires 0 <= g < |cols| => cols[g][e])
  }

  // ---- unmasking -----------------------------------------------------------

  lemma {:induction false} ZeroWordsCancel(n: nat)
    ensures XorAll(ZeroWords(n)) == ZERO
  {
    if n > 0 {
      ZeroWordsCancel(n - 1);
      assert ZeroWords(n)[..n - 1] == ZeroWords(n - 1);
    }
  }

  lemma LinearUnmasks(g: Gate, ws: seq<Mw>, n: nat)
    requires !g.NonLinear() && g.Reads(|ws|) && Shared(ws, n)
    ensures Unmask(LinearWire(g, ws, n)) == PlainWire(g, UnmaskAll(ws))
  {
    match g
    case ConstGate(k) => ZeroWordsCancel(n);
    case XorGate(x, y) => XorAllEach(ws[x].l, ws[y].l);
    case XorConstGate(x, k) =>
    case LinearGate(op, x) =>
      XorAllApply(op, ws[x].l);
      ApplyXor(op, ws[x].h, XorAll(ws[x].l));
  }

  lemma StepUnmasks(v: View, g: Gate, tapes: seq<Tape>)
    requires ValidView(v, |tapes|, |v.aux|) && g.Reads(|v.wires|) && |tapes| > 0
    requires g.NonLinear() ==> TapesCover(tapes, |v.aux| + 1)
    ensures UnmaskAll(ProveStep(v, g, tapes).wires) == UnmaskAll(v.wires) + [PlainWire(g, UnmaskAll(v.wires))]
  {
    hide Unmask, ProveGate, Correction, HonestColumn, LinearWire;
    var z := ProveStep(v, g, tapes).wires[|v.wires|];
    if !g.NonLinear() {
      LinearUnmasks(g, v.wires, |tapes|);
    } else {
      GateUnmasks(g.AddGate?, v.wires[g.x], v.wires[g.y], ProdAt(tapes, |v.aux|), LamAt(tapes, |v.aux|));
    }
    assert Unmask(z) == PlainWire(g, UnmaskAll(v.wires));
    assert ProveStep(v, g, tapes).wires == v.wires + [z];
  }

  /** The prover computes the circuit: every wire unmasks to the plain evaluation of the unmasked inputs. */
  lemma {:induction false} ProverUnmasks(gs: Program, ins: seq<Mw>, tapes: seq<Tape>)
    requires Legal(gs, |ins|) && Shared(ins, |tapes|) && TapesCover(tapes, Cost(gs)) && |tapes| > 0
    ensures UnmaskAll(ProveRun(gs, ins, tapes).wires) == PlainRun(gs, UnmaskAll(ins))
  {
    hide ProveStep, ProveRun, Legal, Cost, PlainWire, Unmask;
    ProveUnfold(gs, ins, tapes);
    if gs != [] {
      var gs', g := gs[..|gs| - 1], gs[|gs| - 1];
      LastReads(gs, |ins|);
      ProverUnmasks(gs', ins, tapes);
      StepUnmasks(ProveRun(gs', ins, tapes), g, tapes);
    }
  }

  // ---- the verifier replays the prover -------------------------------------

  lemma WithoutColumns(tapes: seq<Tape>, e: nat, g: nat)
    requires e < |tapes| && TapesCover(tapes, g + 1)
    ensures LamAt(Without(tapes, e), g) == Without(LamAt(tapes, g), e)
    ensures ProdAt(Without(tapes, e), g) == Without(ProdAt(tapes, g), e)
  {
  }

  lemma HideLinear(g: Gate, ws: seq<Mw>, n: nat, e: nat)
    requires !g.NonLinear() && g.Reads(|ws|) && Shared(ws, n) && e < n
    ensures LinearWire(g, HideAll(ws, e, n), n - 1) == Hide(LinearWire(g, ws, n), e)
  {
    var a, b := LinearWire(g, HideAll(ws, e, n), n - 1), Hide(LinearWire(g, ws, n), e);
    assert a.h == b.h;
    assert forall j :: 0 <= j < n - 1 ==> a.l[j] == b.l[j];
  }

  /** The corrections a verifier holds are the prover's, unless party 0 is hidden: then they are not used. */
  predicate AuxKnown(e: nat, aux: seq<Word>, honest: seq<Word>)
  {
    |aux| >= |honest| && (e != 0 ==> forall g :: 0 <= g < |honest| ==> aux[g] == honest[g])
  }

  lemma HideGrown(ws: seq<Mw>, z: Mw, n: nat, e: nat)
    requires Shared(ws, n) && |z.l| == n && e < n
    ensures HideAll(ws + [z], e, n) == HideAll(ws, e, n) + [Hide(z, e)]
  {
  }

  lemma HideColsGrown(cols: seq<seq<Word>>, c: seq<Word>, n: nat, e: nat)
    requires e < n && |c| == n && forall g :: 0 <= g < |cols| ==> |cols[g]| == n
    ensures HideCols(cols + [c], e, n) == HideCols(cols, e, n) + [Without(c, e)]
  {
  }

  /** What the verifier is given for the next gate matches what the prover did there. */
  predicate StepFed(v: View, g: Gate, tapes: seq<Tape>, e: nat, msgs: seq<Word>, aux: seq<Word>)
    requires ValidView(v, |tapes|, |v.aux|) && g.Reads(|v.wires|) && e < |tapes|
    requires g.NonLinear() ==> TapesCover(tapes, |v.aux| + 1)
  {
    var v' := ProveStep(v, g, tapes);
    AuxKnown(e, aux, v'.aux) && |msgs| >= |v'.cols| && (g.NonLinear() ==> msgs[|v.cols|] == v'.cols[|v.cols|][e])
  }

  function Hidden(v: View, n: nat, e: nat): (r: Replay)
    requires ValidView(v, n, |v.aux|) && e < n
    ensures ValidReplay(r, n - 1, |v.aux|) && |r.wires| == |v.wires|
  {
    Replay(HideAll(v.wires, e, n), HideCols(v.cols, e, n))
  }

  /** The verifier's step from v with e hidden is v' with e hidden. */
  predicate ReplaysStep(v: View, v': View, n: nat, g: Gate, seen: seq<Tape>, e: nat, msgs: seq<Word>, aux: seq<Word>)
    requires ValidView(v, n, |v.aux|) && ValidView(v', n, |v'.aux|) && e < n && |seen| == n - 1 && g.Reads(|v.wires|)
    requires g.NonLinear() ==> TapesCover(seen, |v.aux| + 1) && |msgs| > |v.aux| && |aux| > |v.aux|
  {
    VerifyStep(Hidden(v, n, e), g, seen, e, msgs, aux) == Hidden(v', n, e)
  }

  lemma LinearReplays(v: View, g: Gate, tapes: seq<Tape>, e: nat, msgs: seq<Word>, aux: seq<Word>)
    requires ValidView(v, |tapes|, |v.aux|) && g.Reads(|v.wires|) && e < |tapes| && !g.NonLinear()
    ensures ReplaysStep(v, ProveStep(v, g, tapes), |tapes|, g, Without(tapes, e), e, msgs, aux)
  {
    hide LinearWire, Without, Hide;
    var n := |tapes|;
    HideGrown(v.wires, LinearWire(g, v.wires, n), n, e);
    HideLinear(g, v.wires, n, e);
  }

  lemma WithoutCover(tapes: seq<Tape>, e: nat, k: nat)
    requires TapesCover(tapes, k) && e < |tapes|
    ensures TapesCover(Without(tapes, e), k)
  {
  }

  lemma ProveGateStep(v: View, g: Gate, tapes: seq<Tape>)
    requires ValidView(v, |tapes|, |v.aux|) && g.Reads(|v.wires|) && g.NonLinear() && TapesCover(tapes, |v.aux| + 1)
    ensures var x, y, t, r := v.wires[g.x], v.wires[g.y], ProdAt(tapes, |v.aux|), LamAt(tapes, |v.aux|);
            ProveStep(v, g, tapes)
            == Extended(v, ProveGate(g.AddGate?, x, y, t, r), Correction(g.AddGate?, x, y, t, r), HonestColumn(g.AddGate?, x, y, t, r), |tapes|)
  {
    hide ProveGate, Correction, HonestColumn, Extended;
  }

  lemma VerifyGateStep(u: Replay, g: Gate, tapes: seq<Tape>, e: nat, msgs: seq<Word>, aux: seq<Word>)
    requires ValidReplay(u, |tapes|, |u.slots|) && g.NonLinear() && g.Reads(|u.wires|)
    requires TapesCover(tapes, |u.slots| + 1) && |msgs| > |u.slots| && |aux| > |u.slots|
    ensures var k := |u.slots|;
            var x, y, t, r := u.wires[g.x], u.wires[g.y], ProdAt(tapes, k), LamAt(tapes, k);
            VerifyStep(u, g, tapes, e, msgs, aux)
            == WithGate(u, VerifyGate(g.AddGate?, x, y, t, r, e, msgs[k], aux[k]), VisibleColumn(g.AddGate?, x, y, t, r, e, msgs[k], aux[k]), |tapes|)
  {
    hide VerifyGate, VisibleColumn, WithGate;
  }

  lemma GateReplays(v: View, g: Gate, tapes: seq<Tape>, e: nat, seen: seq<Tape>, msgs: seq<Word>, aux: seq<Word>)
    requires ValidView(v, |tapes|, |v.aux|) && g.Reads(|v.wires|) && e < |tapes| && g.NonLinear()
    requires TapesCover(tapes, |v.aux| + 1) && StepFed(v, g, tapes, e, msgs, aux)
    requires seen == Without(tapes, e) && TapesCover(seen, |v.aux| + 1) && |msgs| > |v.aux| && |aux| > |v.aux|
    ensures ReplaysStep(v, ProveStep(v, g, tapes), |tapes|, g, seen, e, msgs, aux)
  {
    hide ProveStep, VerifyStep, ProveGate, Correction, HonestColumn, VerifyGate, VisibleColumn, Without, Hide, HideAll, HideCols, LamAt, ProdAt;
    var n, k := |tapes|, |v.aux|;
    var x, y, t, r := v.wires[g.x], v.wires[g.y], ProdAt(tapes, k), LamAt(tapes, k);
    var z, col := ProveGate(g.AddGate?, x, y, t, r), HonestColumn(g.AddGate?, x, y, t, r);
    ProveGateStep(v, g, tapes);
    VerifyGateStep(Hidden(v, n, e), g, seen, e, msgs, aux);
    WithoutColumns(tapes, e, k);
    GateAgrees(g.AddGate?, x, y, t, r, e, aux[k]);
    HideGrown(v.wires, z, n, e);
    HideColsGrown(v.cols, col, n, e);
  }

  lemma {:induction false} ProvePrefix(gs: Program, ins: seq<Mw>, tapes: seq<Tape>)
    requires Legal(gs, |ins|) && Shared(ins, |tapes|) && TapesCover(tapes, Cost(gs)) && gs != []
    ensures var v, v' := ProveRun(gs[..|gs| - 1], ins, tapes), ProveRun(gs, ins, tapes);
            v.wires <= v'.wires && v.aux <= v'.aux && v.cols <= v'.cols
  {
  }

  /** Verifier agreement: on any circuit, for any hidden party, the verifier fed that party's broadcasts
      holds exactly the prover's wires and every visible broadcast, with the hidden party's share missing. */
  lemma {:induction false} VerifierReplays(gs: Program, ins: seq<Mw>, tapes: seq<Tape>, e: nat, msgs: seq<Word>, aux: seq<Word>)
    requires Legal(gs, |ins|) && Shared(ins, |tapes|) && TapesCover(tapes, Cost(gs)) && e < |tapes|
    requires var v := ProveRun(gs, ins, tapes);
             Messages(v.cols, e, |tapes|) <= msgs && AuxKnown(e, aux, v.aux)
    ensures var v := ProveRun(gs, ins, tapes);
            VerifyRun(gs, HideAll(ins, e, |tapes|), Without(tapes, e), e, msgs, aux)
            == Replay(HideAll(v.wires, e, |tapes|), HideCols(v.cols, e, |tapes|))
  {
    hide ProveStep, VerifyStep, ProveRun, VerifyRun, Without, HideAll, HideCols, LamAt, ProdAt, Legal, Cost;
    ProveUnfold(gs, ins, tapes);
    VerifyUnfold(gs, HideAll(ins, e, |tapes|), Without(tapes, e), e, msgs, aux);
    if gs != [] {
      var gs', g := gs[..|gs| - 1], gs[|gs| - 1];
      LastReads(gs, |ins|);
      var v, v' := ProveRun(gs', ins, tapes), ProveRun(gs, ins, tapes);
      ProvePrefix(gs, ins, tapes);
      assert forall i :: 0 <= i < |v.cols| ==> Messages(v.cols, e, |tapes|)[i] == Messages(v'.cols, e, |tapes|)[i];
      VerifierReplays(gs', ins, tapes, e, msgs, aux);
      if g.NonLinear() {
        assert msgs[|v.cols|] == Messages(v'.cols, e, |tapes|)[|v.cols|];
        WithoutCover(tapes, e, |v.aux| + 1);
        GateReplays(v, g, tapes, e, Without(tapes, e), msgs, aux);
      } else {
        LinearReplays(v, g, tapes, e, msgs, aux);
      }
    }
  }

  lemma LastReads(gs: Program, inputs: nat)
    requires Legal(gs, inputs) && gs != []
    ensures Legal(gs[..|gs| - 1], inputs) && gs[|gs| - 1].Reads(inputs + |gs| - 1)
    ensures Cost(gs) == Cost(gs[..|gs| - 1]) + if gs[|gs| - 1].NonLinear() then 1 else 0
  {
  }

  lemma ProveUnfold(gs: Program, ins: seq<Mw>, tapes: seq<Tape>)
    requires Legal(gs, |ins|) && Shared(ins, |tapes|) && TapesCover(tapes, Cost(gs))
    ensures gs == [] ==> ProveRun(gs, ins, tapes) == View(ins, [], [])
    ensures gs != [] ==> ProveRun(gs, ins, tapes) == ProveStep(ProveRun(gs[..|gs| - 1], ins, tapes), gs[|gs| - 1], tapes)
  {
    hide ProveStep;
  }

  lemma VerifyUnfold(gs: Program, ins: seq<Mw>, tapes: seq<Tape>, e: nat, msgs: seq<Word>, aux: seq<Word>)
    requires Legal(gs, |ins|) && Shared(ins, |tapes|) && TapesCover(tapes, Cost(gs))
    requires |msgs| >= Cost(gs) && |aux| >= Cost(gs)
    ensures gs == [] ==> VerifyRun(gs, ins, tapes, e, msgs, aux) == Replay(ins, [])
    ensures gs != [] ==>
              VerifyRun(gs, ins, tapes, e, msgs, aux)
              == VerifyStep(VerifyRun(gs[..|gs| - 1], ins, tapes, e, msgs, aux), gs[|gs| - 1], tapes, e, msgs, aux)
  {
    hide VerifyStep;
  }

  // ---- preprocessing does not depend on the witness ------------------------

  /** The gates agree except for the public constants of CONST and XOR-constant gates. */
  predicate SameShape(g: Gate, g': Gate)
  {
    match g
    case ConstGate(_) => g'.ConstGate?
    case XorConstGate(x, _) => g'.XorConstGate? && g'.x == x
    case _ => g == g'
  }

  predicate SameMasks(ws: seq<Mw>, ws': seq<Mw>)
  {
    |ws| == |ws'| && forall i :: 0 <= i < |ws| ==> ws[i].l == ws'[i].l
  }

  lemma LinearMasks(g: Gate, g': Gate, ws: seq<Mw>, ws': seq<Mw>, n: nat)
    requires SameShape(g, g') && SameMasks(ws, ws') && !g.NonLinear()
    requires g.Reads(|ws|) && g'.Reads(|ws'|) && Shared(ws, n) && Shared(ws', n)
    ensures LinearWire(g, ws, n).l == LinearWire(g', ws', n).l
  {
  }

  /** Output shares and corrections do not see the public words. */
  lemma GateMasks(add: bool, x: Mw, y: Mw, x': Mw, y': Mw, t: seq<Word>, r: seq<Word>)
    requires |x.l| == |y.l| == |t| == |r| && x'.l == x.l && y'.l == y.l
    ensures ProveGate(add, x, y, t, r).l == ProveGate(add, x', y', t, r).l
    ensures Correction(add, x, y, t, r) == Correction(add, x', y', t, r)
  {
  }

  lemma StepMasks(g: Gate, g': Gate, v: View, v': View, tapes: seq<Tape>)
    requires SameShape(g, g') && SameMasks(v.wires, v'.wires) && v.aux == v'.aux
    requires ValidView(v, |tapes|, |v.aux|) && ValidView(v', |tapes|, |v'.aux|)
    requires g.Reads(|v.wires|) && g'.Reads(|v'.wires|) && (g.NonLinear() ==> TapesCover(tapes, |v.aux| + 1))
    ensures ProveStep(v, g, tapes).aux == ProveStep(v', g', tapes).aux
    ensures SameMasks(ProveStep(v, g, tapes).wires, ProveStep(v', g', tapes).wires)
  {
    hide LinearWire, ProveGate, Correction, HonestColumn;
    var w, w' := ProveStep(v, g, tapes), ProveStep(v', g', tapes);
    var k := |v.wires|;
    if !g.NonLinear() {
      LinearMasks(g, g', v.wires, v'.wires, |tapes|);
    } else {
      GateMasks(g.AddGate?, v.wires[g.x], v.wires[g.y], v'.wires[g.x], v'.wires[g.y], ProdAt(tapes, |v.aux|), LamAt(tapes, |v.aux|));
    }
    assert w.wires[k].l == w'.wires[k].l;
  }

  /** Corrections and mask shares are functions of the tapes and the input masks alone: changing the
      masked witness, the message or the key seed (public constants) changes neither. */
  lemma {:induction false} PreprocessingIndependent(gs: Program, gs': Program, ins: seq<Mw>, ins': seq<Mw>, tapes: seq<Tape>)
    requires |gs| == |gs'| && forall i :: 0 <= i < |gs| ==> SameShape(gs[i], gs'[i])
    requires Legal(gs, |ins|) && Legal(gs', |ins'|) && SameMasks(ins, ins')
    requires Shared(ins, |tapes|) && Shared(ins', |tapes|) && TapesCover(tapes, Cost(gs)) && TapesCover(tapes, Cost(gs'))
    ensures var v, v' := ProveRun(gs, ins, tapes), ProveRun(gs', ins', tapes);
            v.aux == v'.aux && SameMasks(v.wires, v'.wires)
  {
    if gs != [] {
      var k := |gs| - 1;
      PreprocessingIndependent(gs[..k], gs'[..k], ins, ins', tapes);
      assert SameShape(gs[k], gs'[k]);
      StepMasks(gs[k], gs'[k], ProveRun(gs[..k], ins, tapes), ProveRun(gs'[..k], ins', tapes), tapes);
    }
  }

  // ---- extraction ----------------------------------------------------------

  predicate Matrix(cols: seq<seq<Word>>, n: nat, cost: nat)
  {
    |cols| == cost && forall g :: 0 <= g < cost ==> |cols[g]| == n
  }

  /** The verifier hiding e, fed party e's row of the matrix, recomputes the rest of the matrix. */
  predicate Reproduces(gs: Program, ins: seq<Mw>, tapes: seq<Tape>, e: nat, aux: seq<Word>, cols: seq<seq<Word>>)
    requires Legal(gs, |ins|) && Shared(ins, |tapes|) && TapesCover(tapes, Cost(gs)) && e < |tapes|
    requires |aux| >= Cost(gs) && Matrix(cols, |tapes|, Cost(gs))
  {
    VerifyRun(gs, HideAll(ins, e, |tapes|), Without(tapes, e), e, Messages(cols, e, |tapes|), aux).slots
    == HideCols(cols, e, |tapes|)
  }

  lemma VerifyPrefix(gs: Program, ins: seq<Mw>, tapes: seq<Tape>, e: nat, msgs: seq<Word>, msgs': seq<Word>, aux: seq<Word>)
    requires Legal(gs, |ins|) && Shared(ins, |tapes|) && TapesCover(tapes, Cost(gs))
    requires msgs' <= msgs && |msgs'| >= Cost(gs) && |aux| >= Cost(gs)
    ensures VerifyRun(gs, ins, tapes, e, msgs, aux) == VerifyRun(gs, ins, tapes, e, msgs', aux)
  {
    if gs != [] {
      VerifyPrefix(gs[..|gs| - 1], ins, tapes, e, msgs, msgs', aux);
    }
  }

  lemma ReproducesPrefix(gs: Program, gs': Program, ins: seq<Mw>, tapes: seq<Tape>, e: nat, aux: seq<Word>, cols: seq<seq<Word>>, c: nat)
    requires Legal(gs, |ins|) && Shared(ins, |tapes|) && TapesCover(tapes, Cost(gs)) && e < |tapes|
    requires gs != [] && gs' == gs[..|gs| - 1] && Legal(gs', |ins|) && c == Cost(gs') <= Cost(gs) && TapesCover(tapes, c)
    requires |aux| >= Cost(gs) && Matrix(cols, |tapes|, Cost(gs)) && Matrix(cols[..c], |tapes|, c)
    requires Reproduces(gs, ins, tapes, e, aux, cols)
    ensures Reproduces(gs', ins, tapes, e, aux, cols[..c])
  {
    hide VerifyStep, VerifyRun, Without, HideAll, Legal, Cost, LamAt, ProdAt;
    LastReads(gs, |ins|);
    VerifyUnfold(gs, HideAll(ins, e, |tapes|), Without(tapes, e), e, Messages(cols, e, |tapes|), aux);
    var n := |tapes|;
    var m := Messages(cols, e, n);
    assert Messages(cols[..c], e, n) == m[..c];
    VerifyPrefix(gs', HideAll(ins, e, n), Without(tapes, e), e, m, m[..c], aux);
    var s := VerifyRun(gs', HideAll(ins, e, n), Without(tapes, e), e, m, aux).slots;
    assert s == VerifyRun(gs, HideAll(ins, e, n), Without(tapes, e), e, m, aux).slots[..c];
    assert HideCols(cols[..c], e, n) == HideCols(cols, e, n)[..c];
  }

  /** The verifier's slots for one gate on the given (full) operands are the column without party e. */
  predicate HonestSlot(add: bool, x: Mw, y: Mw, t: seq<Word>, r: seq<Word>, e: nat, aux: Word, col: seq<Word>)
    requires |x.l| == |y.l| == |t| == |r| == |col| && e < |t|
  {
    Without(col, e) == VisibleColumn(add, Hide(x, e), Hide(y, e), Without(t, e), Without(r, e), e, col[e], aux)
  }

  lemma GateExtracts(add: bool, x: Mw, y: Mw, t: seq<Word>, r: seq<Word>, e1: nat, e2: nat, a1: Word, a2: Word, col: seq<Word>)
    requires |x.l| == |y.l| == |t| == |r| == |col| && e1 < |t| && e2 < |t| && e1 != e2
    requires e1 != 0 ==> a1 == Correction(add, x, y, t, r)
    requires e2 != 0 ==> a2 == Correction(add, x, y, t, r)
    requires HonestSlot(add, x, y, t, r, e1, a1, col) && HonestSlot(add, x, y, t, r, e2, a2, col)
    ensures col == HonestColumn(add, x, y, t, r)
  {
    hide Hide, Without, VerifyAddShares, Shares, AddColumn, AddCorrection, AndCorrection;
    if add {
      AddExtracts(x, y, t, r, e1, e2, a1, a2, col);
    } else {
      AndExtracts(x, y, t, r, e1, e2, a1, a2, col);
    }
  }

  predicate HonestPrefix(gs: Program, ins: seq<Mw>, tapes: seq<Tape>, e: nat, aux: seq<Word>, cols: seq<seq<Word>>)
    requires Legal(gs, |ins|) && Shared(ins, |tapes|) && TapesCover(tapes, Cost(gs)) && e < |tapes|
  {
    && gs != [] && gs[|gs| - 1].NonLinear() && Matrix(cols, |tapes|, Cost(gs))
    && AuxKnown(e, aux, ProveRun(gs, ins, tapes).aux)
    && cols[..Cost(gs) - 1] == ProveRun(gs[..|gs| - 1], ins, tapes).cols
  }

  lemma PrefixReplays(gs: Program, gs': Program, ins: seq<Mw>, tapes: seq<Tape>, seen: seq<Tape>, e: nat, aux: seq<Word>, cols: seq<seq<Word>>)
    requires Legal(gs, |ins|) && Shared(ins, |tapes|) && TapesCover(tapes, Cost(gs)) && e < |tapes|
    requires HonestPrefix(gs, ins, tapes, e, aux, cols)
    requires gs' == gs[..|gs| - 1] && Legal(gs', |ins|) && Cost(gs') == Cost(gs) - 1 && TapesCover(tapes, Cost(gs'))
    requires seen == Without(tapes, e) && TapesCover(seen, Cost(gs'))
    ensures var v := ProveRun(gs', ins, tapes);
            VerifyRun(gs', HideAll(ins, e, |tapes|), seen, e, Messages(cols, e, |tapes|), aux)
            == Replay(HideAll(v.wires, e, |tapes|), HideCols(v.cols, e, |tapes|))
  {
    hide ProveStep, VerifyStep, ProveRun, VerifyRun, Without, HideAll, Legal, Cost;
    var n, k := |tapes|, Cost(gs) - 1;
    var v := ProveRun(gs', ins, tapes);
    var m := Messages(cols, e, n);
    ProvePrefix(gs, ins, tapes);
    assert Messages(v.cols, e, n) == m[..k];
    VerifierReplays(gs', ins, tapes, e, m, aux);
  }

  /** The last gate's slots, as its verifier formula gives them on the honest prefix, are the column. */
  predicate LastHonest(gs: Program, ins: seq<Mw>, tapes: seq<Tape>, e: nat, a: Word, col: seq<Word>)
    requires Legal(gs, |ins|) && Shared(ins, |tapes|) && TapesCover(tapes, Cost(gs)) && e < |tapes| && |col| == |tapes|
    requires gs != [] && gs[|gs| - 1].NonLinear()
  {
    var k, g, v := Cost(gs) - 1, gs[|gs| - 1], ProveRun(gs[..|gs| - 1], ins, tapes);
    HonestSlot(g.AddGate?, v.wires[g.x], v.wires[g.y], ProdAt(tapes, k), LamAt(tapes, k), e, a, col)
  }

  lemma SlotHonest(v: View, u: Replay, g: Gate, tapes: seq<Tape>, seen: seq<Tape>, e: nat, k: nat, msgs: seq<Word>, aux: seq<Word>, col: seq<Word>)
    requires ValidView(v, |tapes|, k) && g.Reads(|v.wires|) && g.NonLinear() && e < |tapes| && |col| == |tapes|
    requires TapesCover(tapes, k + 1) && seen == Without(tapes, e) && |msgs| > k && |aux| > k && msgs[k] == col[e]
    requires ValidReplay(u, |seen|, k) && TapesCover(seen, k + 1) && u.wires == HideAll(v.wires, e, |tapes|)
    requires VisibleColumn(g.AddGate?, u.wires[g.x], u.wires[g.y], ProdAt(seen, k), LamAt(seen, k), e, msgs[k], aux[k]) == Without(col, e)
    ensures HonestSlot(g.AddGate?, v.wires[g.x], v.wires[g.y], ProdAt(tapes, k), LamAt(tapes, k), e, aux[k], col)
  {
    hide VisibleColumn, Without, Hide, ProdAt, LamAt;
    WithoutColumns(tapes, e, k);
  }

  lemma LastColumn(gs: Program, ins: seq<Mw>, tapes: seq<Tape>, e: nat, aux: seq<Word>, cols: seq<seq<Word>>)
    requires Legal(gs, |ins|) && Shared(ins, |tapes|) && TapesCover(tapes, Cost(gs)) && e < |tapes|
    requires HonestPrefix(gs, ins, tapes, e, aux, cols) && Reproduces(gs, ins, tapes, e, aux, cols)
    ensures LastHonest(gs, ins, tapes, e, aux[Cost(gs) - 1], cols[Cost(gs) - 1])
  {
    hide ProveStep, VerifyStep, HonestSlot, VisibleColumn, Without, Hide, ProveRun, VerifyRun, Legal, Cost, ProdAt, LamAt, HideAll;
    var n, k, gs' := |tapes|, Cost(gs) - 1, gs[..|gs| - 1];
    LastReads(gs, |ins|);
    var m, seen := Messages(cols, e, n), Without(tapes, e);
    WithoutCover(tapes, e, k + 1);
    PrefixReplays(gs, gs', ins, tapes, seen, e, aux, cols);
    VerifyUnfold(gs, HideAll(ins, e, n), seen, e, m, aux);
    assert HideCols(cols, e, n)[k] == Without(cols[k], e);
    var u := VerifyRun(gs', HideAll(ins, e, n), seen, e, m, aux);
    VerifyGateStep(u, gs[|gs| - 1], seen, e, m, aux);
    SlotHonest(ProveRun(gs', ins, tapes), u, gs[|gs| - 1], tapes, seen, e, k, m, aux, cols[k]);
  }

  lemma StepColumn(v: View, g: Gate, tapes: seq<Tape>)
    requires ValidView(v, |tapes|, |v.aux|) && g.Reads(|v.wires|) && g.NonLinear()
    requires TapesCover(tapes, |v.aux| + 1)
    ensures var k, v' := |v.aux|, ProveStep(v, g, tapes);
            && v'.cols == v.cols + [HonestColumn(g.AddGate?, v.wires[g.x], v.wires[g.y], ProdAt(tapes, k), LamAt(tapes, k))]
            && v'.aux[k] == Correction(g.AddGate?, v.wires[g.x], v.wires[g.y], ProdAt(tapes, k), LamAt(tapes, k))
  {
    hide HonestColumn, Correction, ProveGate, ProveStep;
    ProveGateStep(v, g, tapes);
  }

  /** Two-transcript extraction, gate by gate: a broadcast matrix that verifiers hiding two different
      parties both reproduce, with honest corrections, is the honest prover's matrix. */
  lemma {:induction false} TwoTranscripts(gs: Program, ins: seq<Mw>, tapes: seq<Tape>, e1: nat, e2: nat,
                                          aux1: seq<Word>, aux2: seq<Word>, cols: seq<seq<Word>>)
    requires Legal(gs, |ins|) && Shared(ins, |tapes|) && TapesCover(tapes, Cost(gs))
    requires e1 < |tapes| && e2 < |tapes| && e1 != e2 && Matrix(cols, |tapes|, Cost(gs))
    requires AuxKnown(e1, aux1, ProveRun(gs, ins, tapes).aux) && AuxKnown(e2, aux2, ProveRun(gs, ins, tapes).aux)
    requires Reproduces(gs, ins, tapes, e1, aux1, cols) && Reproduces(gs, ins, tapes, e2, aux2, cols)
    ensures cols == ProveRun(gs, ins, tapes).cols
  {
    hide ProveStep, VerifyStep, HonestSlot, HonestColumn, Correction, Reproduces;
    if gs != [] {
      var n, gs', g := |tapes|, gs[..|gs| - 1], gs[|gs| - 1];
      var k := Cost(gs');
      var v := ProveRun(gs', ins, tapes);
      assert AuxKnown(e1, aux1, v.aux) && AuxKnown(e2, aux2, v.aux) by {
        ProvePrefix(gs, ins, tapes);
      }
      LastReads(gs, |ins|);
      ReproducesPrefix(gs, gs', ins, tapes, e1, aux1, cols, k);
      ReproducesPrefix(gs, gs', ins, tapes, e2, aux2, cols, k);
      TwoTranscripts(gs', ins, tapes, e1, e2, aux1, aux2, cols[..k]);
      if g.NonLinear() {
        LastColumn(gs, ins, tapes, e1, aux1, cols);
        LastColumn(gs, ins, tapes, e2, aux2, cols);
        StepColumn(v, g, tapes);
        GateExtracts(g.AddGate?, v.wires[g.x], v.wires[g.y], ProdAt(tapes, k), LamAt(tapes, k), e1, e2, aux1[k], aux2[k], cols[k]);
        assert cols == cols[..k] + [cols[k]];
      } else {
        assert cols == cols[..k];
      }
    }
  }

  /** What extraction gives: both verifiers' wires are the honest ones, so whatever two accepting
      verifiers saw is the masked form of the plain run on masked witness XOR all mask shares. */
  lemma Extraction(gs: Program, ins: seq<Mw>, tapes: seq<Tape>, e1: nat, e2: nat,
                   aux1: seq<Word>, aux2: seq<Word>, cols: seq<seq<Word>>, o: nat, yp: seq<Word>)
    requires Legal(gs, |ins|) && Shared(ins, |tapes|) && TapesCover(tapes, Cost(gs))
    requires e1 < |tapes| && e2 < |tapes| && e1 != e2 && Matrix(cols, |tapes|, Cost(gs))
    requires AuxKnown(e1, aux1, ProveRun(gs, ins, tapes).aux) && AuxKnown(e2, aux2, ProveRun(gs, ins, tapes).aux)
    requires Reproduces(gs, ins, tapes, e1, aux1, cols) && Reproduces(gs, ins, tapes, e2, aux2, cols)
    requires o < |ins| + |gs| && |yp| == |tapes|
    requires VerifyRun(gs, HideAll(ins, e1, |tapes|), Without(tapes, e1), e1, Messages(cols, e1, |tapes|), aux1).wires[o].l == Without(yp, e1)
    requires VerifyRun(gs, HideAll(ins, e2, |tapes|), Without(tapes, e2), e2, Messages(cols, e2, |tapes|), aux2).wires[o].l == Without(yp, e2)
    ensures Xor(VerifyRun(gs, HideAll(ins, e1, |tapes|), Without(tapes, e1), e1, Messages(cols, e1, |tapes|), aux1).wires[o].h, XorAll(yp))
         == PlainRun(gs, UnmaskAll(ins))[o]
  {
    var v := ProveRun(gs, ins, tapes);
    TwoTranscripts(gs, ins, tapes, e1, e2, aux1, aux2, cols);
    VerifierReplays(gs, ins, tapes, e1, Messages(cols, e1, |tapes|), aux1);
    VerifierReplays(gs, ins, tapes, e2, Messages(cols, e2, |tapes|), aux2);
    SameColumn(yp, v.wires[o].l, e1, e2);
    ProverUnmasks(gs, ins, tapes);
    assert PlainRun(gs, UnmaskAll(ins))[o] == Unmask(v.wires[o]);
  }
}
