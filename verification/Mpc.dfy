/** The gate evaluators as the program runs them: a gate counter advanced in place, corrections and
    broadcasts written to per-gate slots, and share totals accumulated in loops. */
module Mpc {
  import opened Words
  import opened Sharing
  import opened Gates
  import opened Engine

  method XorTotal(l: seq<Word>) returns (total: Word)
    ensures total == XorAll(l)
  {
    total := ZERO;
    for i := 0 to |l|
      invariant total == XorAll(l[..i])
    {
      assert l[..i + 1] == l[..i] + [l[i]];
      XorAllSnoc(l[..i], l[i]);
      total := Xor(total, l[i]);
    }
    assert l[..|l|] == l;
  }

  /** The prover's running transcript over all parties. Without sAll (preprocessing) no broadcast is kept. */
  class Prover {
    const n: nat
    const ySize: nat
    const tapes: seq<Tape>
    const aux: array<Word>
    const sAll: array2?<Word>
    var gateCount: nat

    constructor (tapes: seq<Tape>, ySize: nat, record: bool)
      requires TapesCover(tapes, ySize)
      ensures Valid() && gateCount == 0 && this.tapes == tapes && this.ySize == ySize
      ensures fresh(aux) && (sAll != null ==> fresh(sAll)) && (sAll != null <==> record)
    {
      this.tapes, this.ySize, this.n := tapes, ySize, |tapes|;
      aux := new Word[ySize](_ => ZERO);
      if record {
        sAll := new Word[|tapes|, ySize]((_, _) => ZERO);
      } else {
        sAll := null;
      }
      gateCount := 0;
    }

    predicate Valid()
      reads this
    {
      && n == |tapes| && TapesCover(tapes, ySize) && aux.Length == ySize && gateCount <= ySize
      && (sAll != null ==> sAll.Length0 == n && sAll.Length1 == ySize)
    }

    /** The transcript written so far is v's. */
    ghost predicate Records(v: View)
      requires Valid() && ValidView(v, n, |v.aux|)
      reads this, aux, sAll
    {
      && gateCount == |v.aux| && aux[..gateCount] == v.aux
      && (sAll != null ==> forall i, g :: 0 <= i < n && 0 <= g < gateCount ==> sAll[i, g] == v.cols[g][i])
    }

    /** Gate slot g holds this correction and this column; every other slot is as before. */
    twostate predicate Wrote(g: nat, corr: Word, col: seq<Word>)
      requires Valid() && g < ySize && |col| == n
      reads this, aux, sAll
    {
      && gateCount == old(gateCount) + 1
      && aux[..] == old(aux[..])[g := corr]
      && (sAll != null ==> forall i, k :: 0 <= i < n && 0 <= k < ySize ==>
            sAll[i, k] == if k == g then col[i] else old(sAll[i, k]))
    }

    /** Writes the broadcasts of one gate on the given operands and returns their XOR. */
    method Broadcast(x: Mw, y: Mw, t: seq<Word>, r: seq<Word>, corr: Word) returns (total: Word)
      requires Valid() && gateCount < ySize && |x.l| == |y.l| == |t| == |r| == n
      modifies sAll
      ensures total == XorAll(Shares(x, y, t, r, 0, corr))
      ensures sAll != null ==> forall i, k :: 0 <= i < n && 0 <= k < ySize ==>
                sAll[i, k] == if k == gateCount then Shares(x, y, t, r, 0, corr)[i] else old(sAll[i, k])
    {
      hide Xor, And, XorAll;
      ghost var col := Shares(x, y, t, r, 0, corr);
      NoneYet();
      total := ZERO;
      for i := 0 to n
        invariant total == XorAll(col[..i])
        invariant sAll != null ==> forall j, k :: 0 <= j < n && 0 <= k < ySize ==>
                    sAll[j, k] == if k == gateCount && j < i then col[j] else old(sAll[j, k])
      {
        var s := Xor(Xor(Xor(And(x.h, y.l[i]), And(y.h, x.l[i])), t[i]), r[i]);
        if i == 0 {
          s := Xor(s, Xor(And(x.h, y.h), corr));
        }
        if sAll != null {
          sAll[i, gateCount] := s;
        }
        assert col[..i + 1] == col[..i] + [col[i]];
        XorAllSnoc(col[..i], col[i]);
        total := Xor(total, s);
      }
      assert col[..n] == col;
    }

    method MpcAnd(x: Mw, y: Mw) returns (z: Mw)
      requires Valid() && gateCount < ySize && |x.l| == |y.l| == n
      modifies this`gateCount, aux, sAll
      ensures Valid()
      ensures var t, r := ProdAt(tapes, old(gateCount)), LamAt(tapes, old(gateCount));
              && z == ProveAnd(x, y, t, r)
              && Wrote(old(gateCount), AndCorrection(x, y, t), Shares(x, y, t, r, 0, AndCorrection(x, y, t)))
    {
      var g := gateCount;
      var t, r := ProdAt(tapes, g), LamAt(tapes, g);
      var lx := XorTotal(x.l);
      var ly := XorTotal(y.l);
      var tx := XorTotal(t);
      var corr := Xor(And(lx, ly), tx);
      aux[g] := corr;
      var zh := Broadcast(x, y, t, r, corr);
      z := Mw(zh, r);
      gateCount := gateCount + 1;
    }

    method MpcAdd(x: Mw, y: Mw) returns (z: Mw)
      requires Valid() && gateCount < ySize && |x.l| == |y.l| == n
      modifies this`gateCount, aux, sAll
      ensures Valid()
      ensures var t, r := ProdAt(tapes, old(gateCount)), LamAt(tapes, old(gateCount));
              && z == ProveAdd(x, y, t, r)
              && Wrote(old(gateCount), AddCorrection(x, y, t, r), AddColumn(x, y, t, r))
    {
      var g := gateCount;
      var t, r := ProdAt(tapes, g), LamAt(tapes, g);
      var lc := ApplyAll(PrefixXor, r);
      var lx := XorTotal(x.l);
      var ly := XorTotal(y.l);
      var tx := XorTotal(t);
      var lcx := XorTotal(lc);
      var xv, yv := Xor(x.h, lx), Xor(y.h, ly);
      var c := Xor(Xor(Add(xv, yv), xv), yv);
      var ch := Xor(c, lcx);
      var corr := And(Xor(And(Xor(lx, lcx), Xor(ly, lcx)), tx), LOW31);
      aux[g] := corr;
      var total := Broadcast(Mw(Xor(x.h, ch), XorEach(x.l, lc)), Mw(Xor(y.h, ch), XorEach(y.l, lc)), t, r, corr);
      z := Mw(Xor(Xor(x.h, y.h), ch), XorEach(XorEach(x.l, y.l), lc));
      gateCount := gateCount + 1;
    }

    method Step(g: Gate, wires: seq<Mw>, ghost v: View) returns (z: Mw)
      requires Valid() && ValidView(v, n, |v.aux|) && Records(v) && wires == v.wires && g.Reads(|wires|)
      requires g.NonLinear() ==> gateCount < ySize
      modifies this`gateCount, aux, sAll
      ensures Valid()
      ensures v.wires + [z] == ProveStep(v, g, tapes).wires && Records(ProveStep(v, g, tapes))
    {
      hide XorAll, Xor, And, ProveAnd, ProveAdd, AndCorrection, AddCorrection, Shares, AddColumn, LinearWire;
      if g.AndGate? {
        z := MpcAnd(wires[g.x], wires[g.y]);
      } else if g.AddGate? {
        z := MpcAdd(wires[g.x], wires[g.y]);
      } else {
        z := LinearWire(g, wires, n);
      }
    }

    /** Runs a whole circuit: the wires, corrections and broadcasts are those of ProveRun. */
    method Evaluate(gs: Program, ins: seq<Mw>) returns (wires: seq<Mw>)
      requires Valid() && gateCount == 0 && Cost(gs) <= ySize
      requires Legal(gs, |ins|) && Shared(ins, n)
      modifies this`gateCount, aux, sAll
      ensures Valid()
      ensures wires == ProveRun(gs, ins, tapes).wires && Records(ProveRun(gs, ins, tapes))
    {
      hide ProveStep, ProveRun, Legal, Cost;
      wires := ins;
      RunStart(ins, tapes);
      PrefixLegal(gs, |ins|, 0);
      for i := 0 to |gs|
        invariant Valid() && Legal(gs[..i], |ins|)
        invariant Cost(gs[..i]) <= ySize
        invariant wires == ProveRun(gs[..i], ins, tapes).wires && Records(ProveRun(gs[..i], ins, tapes))
      {
        PrefixLegal(gs, |ins|, i + 1);
        PrefixLegal(gs[..i + 1], |ins|, i);
        assert gs[..i + 1][..i] == gs[..i];
        ProveUnfold(gs[..i + 1], ins, tapes);
        ghost var v := ProveRun(gs[..i], ins, tapes);
        var z := Step(gs[i], wires, v);
        wires := wires + [z];
      }
      assert gs[..|gs|] == gs;
    }
  }

  /** The verifier's running transcript: every party but e, with e's broadcasts in msgs. */
  class Verifier {
    const n: nat
    const ySize: nat
    const e: nat
    const tapes: seq<Tape>
    const msgs: seq<Word>
    const aux: seq<Word>
    const sSlots: array2<Word>
    var gateCount: nat

    /** The tapes are those of the n visible parties; hidden is the index of the missing one. */
    constructor (tapes: seq<Tape>, hidden: nat, msgs: seq<Word>, aux: seq<Word>, ySize: nat)
      requires TapesCover(tapes, ySize) && |msgs| >= ySize && |aux| >= ySize
      ensures Valid() && gateCount == 0 && fresh(sSlots)
      ensures this.tapes == tapes && this.e == hidden && this.msgs == msgs && this.aux == aux && this.ySize == ySize
    {
      this.tapes, this.e, this.msgs, this.aux, this.ySize := tapes, hidden, msgs, aux, ySize;
      n := |tapes|;
      sSlots := new Word[|tapes|, ySize]((_, _) => ZERO);
      gateCount := 0;
    }

    predicate Valid()
      reads this
    {
      && n == |tapes| && TapesCover(tapes, ySize) && |msgs| >= ySize && |aux| >= ySize && gateCount <= ySize
      && sSlots.Length0 == n && sSlots.Length1 == ySize
    }

    ghost predicate Records(v: Replay)
      requires Valid() && ValidReplay(v, n, |v.slots|)
      reads this, sSlots
    {
      && gateCount == |v.slots|
      && forall j, g :: 0 <= j < n && 0 <= g < gateCount ==> sSlots[j, g] == v.slots[g][j]
    }

    twostate predicate Wrote(g: nat, col: seq<Word>)
      requires Valid() && g < ySize && |col| == n
      reads this, sSlots
    {
      && gateCount == old(gateCount) + 1
      && forall j, k :: 0 <= j < n && 0 <= k < ySize ==>
           sSlots[j, k] == if k == g then col[j] else old(sSlots[j, k])
    }

    /** The visible broadcasts of one gate; the slot of party 0, if visible, adds the public product. */
    method Broadcast(x: Mw, y: Mw, t: seq<Word>, r: seq<Word>, corr: Word) returns (total: Word)
      requires Valid() && gateCount < ySize && |x.l| == |y.l| == |t| == |r| == n
      modifies sSlots
      ensures total == XorAll(Shares(x, y, t, r, FirstSlot(e), corr))
      ensures forall j, k :: 0 <= j < n && 0 <= k < ySize ==>
                sSlots[j, k] == if k == gateCount then Shares(x, y, t, r, FirstSlot(e), corr)[j] else old(sSlots[j, k])
    {
      hide Xor, And, XorAll;
      ghost var col := Shares(x, y, t, r, FirstSlot(e), corr);
      NoneYet();
      total := ZERO;
      for j := 0 to n
        invariant total == XorAll(col[..j])
        invariant forall i, k :: 0 <= i < n && 0 <= k < ySize ==>
                    sSlots[i, k] == if k == gateCount && i < j then col[i] else old(sSlots[i, k])
      {
        var s := Xor(Xor(Xor(And(x.h, y.l[j]), And(y.h, x.l[j])), t[j]), r[j]);
        if Orig(j, e) == 0 {
          s := Xor(s, Xor(And(x.h, y.h), corr));
        }
        sSlots[j, gateCount] := s;
        assert col[..j + 1] == col[..j] + [col[j]];
        XorAllSnoc(col[..j], col[j]);
        total := Xor(total, s);
      }
      assert col[..n] == col;
    }

    method MpcAndVerify(x: Mw, y: Mw) returns (z: Mw)
      requires Valid() && gateCount < ySize && |x.l| == |y.l| == n
      modifies this`gateCount, sSlots
      ensures Valid()
      ensures var g := old(gateCount);
              var t, r := ProdAt(tapes, g), LamAt(tapes, g);
              && z == VerifyAnd(x, y, t, r, e, msgs[g], aux[g])
              && Wrote(g, Shares(x, y, t, r, FirstSlot(e), aux[g]))
    {
      var g := gateCount;
      var t, r := ProdAt(tapes, g), LamAt(tapes, g);
      var total := Broadcast(x, y, t, r, aux[g]);
      z := Mw(Xor(msgs[g], total), r);
      gateCount := gateCount + 1;
    }

    /** Rebuilds the masked carry bit by bit from the hidden party's broadcast. */
    method RebuildCarry(x: Mw, y: Mw, t: seq<Word>, r: seq<Word>, me: Word, corr: Word) returns (ch: Word)
      requires |x.l| == |y.l| == |t| == |r|
      ensures ch == VerifierCarry(x, y, t, r, e, me, corr)
    {
      var lc := ApplyAll(PrefixXor, r);
      var plp := XorTotal(XorEach(x.l, lc));
      var plq := XorTotal(XorEach(y.l, lc));
      var pt := XorTotal(t);
      var plr := XorTotal(r);
      ch := ZERO;
      for b := 0 to 31
        invariant ch == RebuiltCarry(x, y, t, r, e, me, corr, b)
      {
        var pb, qb := x.h[b] != ch[b], y.h[b] != ch[b];
        var srev := (((pb && plq[b]) != (qb && plp[b])) != pt[b]) != plr[b];
        if e != 0 {
          srev := srev != ((pb && qb) != corr[b]);
        }
        var rb := me[b] != srev;
        ch := Or(ch, Shl(BitWord(ch[b] != rb), b + 1));
      }
    }

    method MpcAddVerify(x: Mw, y: Mw) returns (z: Mw)
      requires Valid() && gateCount < ySize && |x.l| == |y.l| == n
      modifies this`gateCount, sSlots
      ensures Valid()
      ensures var g := old(gateCount);
              var t, r := ProdAt(tapes, g), LamAt(tapes, g);
              && z == VerifyAdd(x, y, t, r, e, msgs[g], aux[g])
              && Wrote(g, VerifyAddShares(x, y, t, r, e, msgs[g], aux[g]))
    {
      var g := gateCount;
      var t, r := ProdAt(tapes, g), LamAt(tapes, g);
      var lc := ApplyAll(PrefixXor, r);
      var ch := RebuildCarry(x, y, t, r, msgs[g], aux[g]);
      var total := Broadcast(Mw(Xor(x.h, ch), XorEach(x.l, lc)), Mw(Xor(y.h, ch), XorEach(y.l, lc)), t, r, aux[g]);
      z := Mw(Xor(Xor(x.h, y.h), ch), XorEach(XorEach(x.l, y.l), lc));
      gateCount := gateCount + 1;
    }

    method Step(g: Gate, wires: seq<Mw>, ghost v: Replay) returns (z: Mw)
      requires Valid() && ValidReplay(v, n, |v.slots|) && Records(v) && wires == v.wires && g.Reads(|wires|)
      requires g.NonLinear() ==> gateCount < ySize
      modifies this`gateCount, sSlots
      ensures Valid()
      ensures v.wires + [z] == VerifyStep(v, g, tapes, e, msgs, aux).wires && Records(VerifyStep(v, g, tapes, e, msgs, aux))
    {
      hide XorAll, Xor, And, VerifyAnd, VerifyAdd, Shares, VerifyAddShares, LinearWire;
      if g.AndGate? {
        z := MpcAndVerify(wires[g.x], wires[g.y]);
      } else if g.AddGate? {
        z := MpcAddVerify(wires[g.x], wires[g.y]);
      } else {
        z := LinearWire(g, wires, n);
      }
    }

    /** Runs a whole circuit: the wires and visible broadcasts are those of VerifyRun. */
    method Evaluate(gs: Program, ins: seq<Mw>) returns (wires: seq<Mw>)
      requires Valid() && gateCount == 0 && Cost(gs) <= ySize
      requires Legal(gs, |ins|) && Shared(ins, n)
      modifies this`gateCount, sSlots
      ensures Valid()
      ensures wires == VerifyRun(gs, ins, tapes, e, msgs, aux).wires && Records(VerifyRun(gs, ins, tapes, e, msgs, aux))
    {
      hide VerifyStep, VerifyRun, Legal, Cost;
      wires := ins;
      ReplayStart(ins, tapes, e, msgs, aux);
      PrefixLegal(gs, |ins|, 0);
      for i := 0 to |gs|
        invariant Valid() && Legal(gs[..i], |ins|)
        invariant Cost(gs[..i]) <= ySize
        invariant wires == VerifyRun(gs[..i], ins, tapes, e, msgs, aux).wires
        invariant Records(VerifyRun(gs[..i], ins, tapes, e, msgs, aux))
      {
        PrefixLegal(gs, |ins|, i + 1);
        PrefixLegal(gs[..i + 1], |ins|, i);
        assert gs[..i + 1][..i] == gs[..i];
        VerifyUnfold(gs[..i + 1], ins, tapes, e, msgs, aux);
        ghost var v := VerifyRun(gs[..i], ins, tapes, e, msgs, aux);
        var z := Step(gs[i], wires, v);
        wires := wires + [z];
      }
      assert gs[..|gs|] == gs;
    }
  }

  lemma RunStart(ins: seq<Mw>, tapes: seq<Tape>)
    requires Shared(ins, |tapes|)
    ensures Legal([], |ins|) && Cost([]) == 0 && ProveRun([], ins, tapes) == View(ins, [], [])
  {
  }

  lemma ReplayStart(ins: seq<Mw>, tapes: seq<Tape>, e: nat, msgs: seq<Word>, aux: seq<Word>)
    requires Shared(ins, |tapes|)
    ensures Legal([], |ins|) && Cost([]) == 0 && VerifyRun([], ins, tapes, e, msgs, aux) == Replay(ins, [])
  {
  }

  /** A prefix of a legal circuit is legal and costs no more; the gate after it reads earlier wires. */
  lemma PrefixLegal(gs: Program, inputs: nat, i: nat)
    requires Legal(gs, inputs) && i <= |gs|
    ensures Legal(gs[..i], inputs) && Cost(gs[..i]) <= Cost(gs)
    ensures i < |gs| ==> gs[i].Reads(inputs + i)
    ensures i > 0 ==> Cost(gs[..i]) == Cost(gs[..i - 1]) + if gs[i - 1].NonLinear() then 1 else 0
  {
    hide Gate.Reads, Gate.NonLinear, Cost;
    CostPrefix(gs, i);
    if i > 0 { CostSnoc(gs, i - 1); }
  }

  lemma CostSnoc(gs: Program, i: nat)
    requires i < |gs|
    ensures Cost(gs[..i + 1]) == Cost(gs[..i]) + if gs[i].NonLinear() then 1 else 0
  {
    assert gs[..i + 1][..i] == gs[..i];
  }

  lemma NoneYet()
    ensures XorAll([]) == ZERO
  {
  }

  lemma {:induction false} CostPrefix(gs: Program, i: nat)
    requires i <= |gs|
    ensures Cost(gs[..i]) <= Cost(gs)
    decreases |gs| - i
  {
    if i == |gs| {
      assert gs[..i] == gs;
    } else {
      CostPrefix(gs, i + 1);
      assert gs[..i + 1][..i] == gs[..i];
    }
  }
}
