/** GF(2^128) modulo x^128 + x^7 + x^2 + x + 1 on 32-bit limbs: coefficient n is bit n%32 of limb n/32. */
module Gf128 {
  import opened Words
  import opened Sharing
  import opened Engine
  import opened Builder

  type Poly = p: Bits | |p| == 128 witness Zeros(128)
  type Wide = p: Bits | |p| == 256 witness Zeros(256)

  function At(p: Bits, n: int): bool
  {
    0 <= n < |p| && p[n]
  }

  function PolyXor(a: Poly, b: Poly): Poly { XorBits(a, b) }

  // ---- the meaning: carry-less product, and its residue ---------------------

  /** Coefficient n of x times the k low coefficients of y. */
  function Conv(x: Poly, y: Poly, n: int, k: nat): bool
    requires k <= 128
  {
    if k == 0 then false else Conv(x, y, n, k - 1) != (y[k - 1] && At(x, n - (k - 1)))
  }

  /** The carry-less product, of degree below 255. */
  function Product(x: Poly, y: Poly): Wide
  {
    seq(256, n requires 0 <= n < 256 => Conv(x, y, n, 128))
  }

  /** Coefficient n of q times the modulus. */
  predicate TimesModulus(q: Poly, n: int)
  {
    (((At(q, n - 128) != At(q, n - 7)) != At(q, n - 2)) != At(q, n - 1)) != At(q, n)
  }

  predicate ResidueBy(a: Wide, r: Poly, q: Poly)
  {
    forall n :: 0 <= n < 256 ==> a[n] == (At(r, n) != TimesModulus(q, n))
  }

  /** r is a polynomial of degree below 128 that differs from a by a multiple of the modulus. */
  ghost predicate Residue(a: Wide, r: Poly)
  {
    exists q: Poly :: ResidueBy(a, r, q)
  }

  lemma ResidueAdds(a: Wide, b: Wide, r: Poly, s: Poly)
    requires Residue(a, r) && Residue(b, s)
    ensures Residue(XorBits(a, b), PolyXor(r, s))
  {
    var q: Poly :| ResidueBy(a, r, q);
    var p: Poly :| ResidueBy(b, s, p);
    var t := PolyXor(q, p);
    hide TimesModulus, At;
    forall n | 0 <= n < 256
      ensures XorBits(a, b)[n] == (At(PolyXor(r, s), n) != TimesModulus(t, n))
    {
      TimesModulusAdds(q, p, n);
      XorAt(r, s, n);
    }
    assert ResidueBy(XorBits(a, b), PolyXor(r, s), t);
  }

  lemma TimesModulusAdds(q: Poly, p: Poly, n: int)
    ensures TimesModulus(PolyXor(q, p), n) == (TimesModulus(q, n) != TimesModulus(p, n))
  {
    hide At;
    XorAt(q, p, n - 128);
    XorAt(q, p, n - 7);
    XorAt(q, p, n - 2);
    XorAt(q, p, n - 1);
    XorAt(q, p, n);
  }

  lemma XorAt(a: Poly, b: Poly, n: int)
    ensures At(PolyXor(a, b), n) == (At(a, n) != At(b, n))
  {
  }

  /** A multiple of the modulus of degree below 128 is zero. */
  lemma NoSmallMultiple(q: Poly)
    requires forall n :: 128 <= n < 256 ==> !TimesModulus(q, n)
    ensures forall n :: 0 <= n < 128 ==> !q[n]
  {
    forall n | 7 <= n < 128
      ensures !q[n]
    {
      assert !TimesModulus(q, n + 128);
    }
    forall n | 0 <= n < 7
      ensures !q[n]
    {
      assert !TimesModulus(q, n + 128);
    }
  }

  /** Residues are unique. */
  lemma ResidueUnique(a: Wide, r: Poly, s: Poly)
    requires Residue(a, r) && Residue(a, s)
    ensures r == s
  {
    ResidueAdds(a, a, r, s);
    var z: Wide := XorBits(a, a);
    var q: Poly :| ResidueBy(z, PolyXor(r, s), q);
    forall n | 128 <= n < 256
      ensures !TimesModulus(q, n)
    {
      assert z[n] == (At(PolyXor(r, s), n) != TimesModulus(q, n));
    }
    NoSmallMultiple(q);
    forall n | 0 <= n < 128
      ensures r[n] == s[n]
    {
      assert !TimesModulus(q, n);
      XorAt(r, s, n);
    }
  }

  // ---- reduction -----------------------------------------------------------

  function Toggle(a: Wide, n: nat, on: bool): (r: Wide)
    requires n < 256
    ensures forall k :: 0 <= k < 256 ==> r[k] == (a[k] != (on && k == n))
  {
    a[n := a[n] != on]
  }

  /** Clearing coefficient t + 128 by subtracting x^t times the modulus. */
  function ReduceStep(a: Wide, t: nat): Wide
    requires t < 128
  {
    var on := a[t + 128];
    Toggle(Toggle(Toggle(Toggle(Toggle(a, t + 128, on), t + 7, on), t + 2, on), t + 1, on), t, on)
  }

  /** a after the coefficients 255, ..., 128 + k have been cleared in that order. */
  function Reduced(a: Wide, k: nat): Wide
    requires k <= 128
    decreases 128 - k
  {
    if k == 128 then a else ReduceStep(Reduced(a, k + 1), k)
  }

  function Reduce(a: Wide): Poly
  {
    Reduced(a, 0)[..128]
  }

  /** The quotient collected while clearing coefficients 255 down to 128 + k. */
  function Quotient(a: Wide, k: nat): Poly
    requires k <= 128
    decreases 128 - k
  {
    if k == 128 then Zeros(128) else Quotient(a, k + 1)[k := Reduced(a, k + 1)[k + 128]]
  }

  /** The exponents of x^k times the modulus. */
  predicate Taps(k: int, n: int)
  {
    n == k + 128 || n == k + 7 || n == k + 2 || n == k + 1 || n == k
  }

  lemma ReduceStepAt(a: Wide, t: nat, n: nat)
    requires t < 128 && n < 256
    ensures ReduceStep(a, t)[n] == (a[n] != (a[t + 128] && Taps(t, n)))
  {
  }

  /** A clear coefficient takes no subtraction. */
  lemma ReduceStepOff(a: Wide, t: nat)
    requires t < 128 && !a[t + 128]
    ensures ReduceStep(a, t) == a
  {
  }

  lemma TimesModulusSet(q: Poly, k: nat, on: bool, n: nat)
    requires k < 128 && !q[k]
    ensures TimesModulus(q[k := on], n) == (TimesModulus(q, n) != (on && Taps(k, n)))
  {
  }

  lemma {:induction false} ReducedInvariant(a: Wide, k: nat)
    requires k <= 128
    ensures forall n :: k + 128 <= n < 256 ==> !Reduced(a, k)[n]
    ensures forall n :: 0 <= n < k ==> !Quotient(a, k)[n]
    ensures forall n :: 0 <= n < 256 ==> a[n] == (Reduced(a, k)[n] != TimesModulus(Quotient(a, k), n))
    decreases 128 - k
  {
    if k < 128 {
      ReducedInvariant(a, k + 1);
      var b, q := Reduced(a, k + 1), Quotient(a, k + 1);
      assert forall n :: k + 128 <= n < 256 ==> !Reduced(a, k)[n] by {
        forall n | k + 128 <= n < 256
          ensures !Reduced(a, k)[n]
        {
          ReduceStepAt(b, k, n);
        }
      }
      forall n | 0 <= n < 256
        ensures a[n] == (Reduced(a, k)[n] != TimesModulus(Quotient(a, k), n))
      {
        ReduceStepAt(b, k, n);
        TimesModulusSet(q, k, b[k + 128], n);
      }
    }
  }

  /** The reduction loop computes the residue modulo the field polynomial. */
  lemma ReduceIsResidue(a: Wide)
    ensures Residue(a, Reduce(a))
  {
    ReducedInvariant(a, 0);
    assert ResidueBy(a, Reduce(a), Quotient(a, 0));
  }

  /** Reduction is linear over XOR. */
  lemma ReduceLinear(a: Wide, b: Wide)
    ensures Reduce(XorBits(a, b)) == PolyXor(Reduce(a), Reduce(b))
  {
    ReduceIsResidue(a);
    ReduceIsResidue(b);
    ReduceIsResidue(XorBits(a, b));
    ResidueAdds(a, b, Reduce(a), Reduce(b));
    ResidueUnique(XorBits(a, b), Reduce(XorBits(a, b)), PolyXor(Reduce(a), Reduce(b)));
  }

  /** Field multiplication: the residue of the carry-less product. */
  function Mul(x: Poly, y: Poly): Poly
  {
    Reduce(Product(x, y))
  }

  /** The product is the only polynomial of degree below 128 congruent to x times y. */
  lemma MulMeaning(x: Poly, y: Poly, r: Poly)
    ensures r == Mul(x, y) <==> Residue(Product(x, y), r)
  {
    ReduceIsResidue(Product(x, y));
    if Residue(Product(x, y), r) {
      ResidueUnique(Product(x, y), r, Mul(x, y));
    }
  }

  // ---- limbs ---------------------------------------------------------------

  /** The coefficients held by a row of limbs. */
  function Flat(acc: seq<Word>): (p: Bits)
    ensures |p| == 32 * |acc|
    ensures forall n :: 0 <= n < 32 * |acc| ==> p[n] == acc[n / 32][n % 32]
  {
    seq(32 * |acc|, n requires 0 <= n < 32 * |acc| => acc[n / 32][n % 32])
  }

  function Limbs(p: Bits): (acc: seq<Word>)
    requires |p| % 32 == 0
    ensures |acc| == |p| / 32
  {
    seq(|p| / 32, k requires 0 <= k < |p| / 32 => p[32 * k..32 * k + 32])
  }

  /** acc with a word XORed in at bit position pos; what leaves the last limb is dropped. */
  function ShiftXor(acc: seq<Word>, word: Word, pos: nat): (r: seq<Word>)
    requires pos / 32 < |acc|
    ensures |r| == |acc|
  {
    var wq, wr := pos / 32, pos % 32;
    var a := acc[wq := Xor(acc[wq], Shl(word, wr))];
    if wq + 1 < |acc| then a[wq + 1 := Xor(a[wq + 1], Shr(word, 32 - wr))] else a
  }

  lemma ShiftXorAt(acc: seq<Word>, word: Word, pos: nat, n: nat)
    requires pos / 32 < |acc| && n < 32 * |acc|
    ensures Flat(ShiftXor(acc, word, pos))[n] == (Flat(acc)[n] != At(word, n - pos))
  {
    var wq, wr := pos / 32, pos % 32;
    assert pos == 32 * wq + wr && n == 32 * (n / 32) + n % 32;
    if n / 32 == wq {
    } else if n / 32 == wq + 1 {
    } else if n / 32 < wq {
      assert n - pos < 0;
    } else {
      assert n - pos >= 32;
    }
  }

  lemma ToggleLimb(acc: seq<Word>, n: nat, on: bool)
    requires |acc| == 8 && n < 256
    ensures Flat(acc[n / 32 := Xor(acc[n / 32], Shl(BitWord(on), n % 32))]) == Toggle(Flat(acc), n, on)
  {
    var a := acc[n / 32 := Xor(acc[n / 32], Shl(BitWord(on), n % 32))];
    forall k | 0 <= k < 256
      ensures Flat(a)[k] == Toggle(Flat(acc), n, on)[k]
    {
      assert k == 32 * (k / 32) + k % 32 && n == 32 * (n / 32) + n % 32;
    }
  }

  /** Coefficient n after the rounds j' < j in full and the first w limbs of round j. */
  predicate Partial(x: seq<Word>, y: Poly, n: int, j: nat, w: nat)
    requires |x| == 4 && j < 128 && w <= 4
  {
    Conv(Flat(x), y, n, j) != (y[j] && 0 <= n - j < 32 * w && Flat(x)[n - j])
  }

  ghost predicate HoldsPartial(acc: seq<Word>, x: seq<Word>, y: Poly, j: nat, w: nat)
    requires |acc| == 8 && |x| == 4 && j < 128 && w <= 4
  {
    forall n :: 0 <= n < 256 ==> Flat(acc)[n] == Partial(x, y, n, j, w)
  }

  ghost predicate HoldsConv(acc: seq<Word>, x: Poly, y: Poly, j: nat)
    requires |acc| == 8 && j <= 128
  {
    forall n :: 0 <= n < 256 ==> Flat(acc)[n] == Conv(x, y, n, j)
  }

  lemma PartialTerm(x: seq<Word>, y: Poly, n: nat, j: nat, w: nat, word: Word)
    requires |x| == 4 && n < 256 && j < 128 && w < 4 && word == if y[j] then x[w] else ZERO
    ensures Partial(x, y, n, j, w + 1) == (Partial(x, y, n, j, w) != At(word, n - (32 * w + j)))
  {
    var d := n - j;
    if 32 * w <= d < 32 * w + 32 {
      assert d / 32 == w && d % 32 == d - 32 * w;
    }
  }

  lemma PartialStep(x: seq<Word>, y: Poly, acc: seq<Word>, j: nat, w: nat, word: Word)
    requires |x| == 4 && j < 128 && w < 4 && |acc| == 8
    requires word == if y[j] then x[w] else ZERO
    requires HoldsPartial(acc, x, y, j, w)
    ensures HoldsPartial(ShiftXor(acc, word, 32 * w + j), x, y, j, w + 1)
  {
    hide ShiftXor, Flat, Partial;
    var r := ShiftXor(acc, word, 32 * w + j);
    forall n | 0 <= n < 256
      ensures Flat(r)[n] == Partial(x, y, n, j, w + 1)
    {
      ShiftXorAt(acc, word, 32 * w + j, n);
      PartialTerm(x, y, n, j, w, word);
    }
  }

  // ---- the native loops ----------------------------------------------------

  method WordShiftXor(acc: array<Word>, word: Word, pos: nat)
    requires acc.Length == 8 && pos < 256
    modifies acc
    ensures acc[..] == ShiftXor(old(acc[..]), word, pos)
  {
    var wq, wr := pos / 32, pos % 32;
    acc[wq] := Xor(acc[wq], Shl(word, wr));
    if wq + 1 < 8 {
      acc[wq + 1] := Xor(acc[wq + 1], Shr(word, 32 - wr));
    }
  }

  method ToggleBit(acc: array<Word>, n: nat, on: bool)
    requires acc.Length == 8 && n < 256
    modifies acc
    ensures Flat(acc[..]) == Toggle(old(Flat(acc[..])), n, on)
  {
    ToggleLimb(acc[..], n, on);
    acc[n / 32] := Xor(acc[n / 32], Shl(BitWord(on), n % 32));
    assert acc[..] == old(acc[..])[n / 32 := acc[n / 32]];
  }

  /** Clears the coefficients 255 down to 128 in place. */
  method ReduceLimbs(acc: array<Word>) returns (out: seq<Word>)
    requires acc.Length == 8
    modifies acc
    ensures |out| == 4 && Flat(out) == Reduce(old(Flat(acc[..])))
  {
    hide Toggle, Flat;
    ghost var a := Flat(acc[..]);
    var i := 255;
    while i >= 128
      invariant 127 <= i <= 255
      invariant Flat(acc[..]) == Reduced(a, i - 127)
    {
      if acc[i / 32][i % 32] {
        ToggleBit(acc, i, true);
        var t := i - 128;
        ToggleBit(acc, t + 7, true);
        ToggleBit(acc, t + 2, true);
        ToggleBit(acc, t + 1, true);
        ToggleBit(acc, t, true);
      } else {
        ReduceStepOff(Flat(acc[..]), i - 128);
      }
      i := i - 1;
    }
    out := acc[..4];
    assert Flat(out) == Flat(acc[..])[..128];
  }

  /** One bit of y: if it is set, x is added in at its place. */
  method MulRound(acc: array<Word>, x: seq<Word>, y: seq<Word>, j: nat)
    requires acc.Length == 8 && |x| == 4 && |y| == 4 && j < 128
    requires HoldsConv(acc[..], Flat(x), Flat(y), j)
    modifies acc
    ensures HoldsConv(acc[..], Flat(x), Flat(y), j + 1)
  {
    hide ShiftXor;
    if y[j / 32][j % 32] {
      for w := 0 to 4
        invariant HoldsPartial(acc[..], x, Flat(y), j, w)
      {
        PartialStep(x, Flat(y), acc[..], j, w, x[w]);
        WordShiftXor(acc, x[w], 32 * w + j);
      }
    }
  }

  /** Shift-and-XOR multiplication over 32-bit limbs computes the field product. */
  method MulWords(x: seq<Word>, y: seq<Word>) returns (out: seq<Word>)
    requires |x| == 4 && |y| == 4
    ensures |out| == 4 && Flat(out) == Mul(Flat(x), Flat(y))
  {
    var acc := new Word[8](_ => ZERO);
    for j := 0 to 128
      invariant HoldsConv(acc[..], Flat(x), Flat(y), j)
    {
      MulRound(acc, x, y, j);
    }
    assert Flat(acc[..]) == Product(Flat(x), Flat(y));
    out := ReduceLimbs(acc);
  }

  // ---- the gadget ----------------------------------------------------------

  /** XORs a mapped word into limb k. */
  function XorAtNet(n: Net, acc: seq<nat>, k: nat, word: nat, op: Linear): (o: Bundle)
    requires k < |acc|
    ensures |o.ids| == |acc|
  {
    var t := n.Map(op, word);
    var u := t.net.Xor(acc[k], t.id);
    Bundle(u.net, acc[k := u.id])
  }

  lemma XorAtIs(n: Net, acc: seq<nat>, k: nat, word: nat, op: Linear, env: seq<Word>, aw: seq<Word>, w: Word)
    requires Ready(n, env) && AreWords(On(n, env), acc, aw) && Is(On(n, env), word, w) && k < |acc|
    ensures MakesWords(n, XorAtNet(n, acc, k, word, op), env, 0, aw[k := Words.Xor(aw[k], Apply(op, w))])
  {
    hide PlainRun, Legal, Cost, On, Ready, Words.Xor, Apply;
    var t := n.Map(op, word);
    MapIs(n, op, word, env, w);
    XorIs(t.net, acc[k], t.id, env, aw[k], Apply(op, w));
  }

  function ShiftXorNet(n: Net, acc: seq<nat>, word: nat, pos: nat): (o: Bundle)
    requires pos / 32 < |acc|
    ensures |o.ids| == |acc|
  {
    var wq, wr := pos / 32, pos % 32;
    var o := XorAtNet(n, acc, wq, word, ShiftLeft(wr));
    if wq + 1 < |acc| then XorAtNet(o.net, o.ids, wq + 1, word, ShiftRight(32 - wr)) else o
  }

  lemma ShiftXorIs(n: Net, acc: seq<nat>, word: nat, pos: nat, env: seq<Word>, aw: seq<Word>, w: Word)
    requires Ready(n, env) && AreWords(On(n, env), acc, aw) && Is(On(n, env), word, w) && pos / 32 < |acc|
    ensures MakesWords(n, ShiftXorNet(n, acc, word, pos), env, 0, ShiftXor(aw, w, pos))
  {
    hide PlainRun, Legal, Cost, On, Ready, Words.Xor, Shl, Shr, XorAtNet;
    var wq, wr := pos / 32, pos % 32;
    var o, ow := XorAtNet(n, acc, wq, word, ShiftLeft(wr)), aw[wq := Words.Xor(aw[wq], Shl(w, wr))];
    XorAtIs(n, acc, wq, word, ShiftLeft(wr), env, aw, w);
    if wq + 1 < |acc| {
      XorAtIs(o.net, o.ids, wq + 1, word, ShiftRight(32 - wr), env, ow, w);
    }
  }

  /** XORs the single-bit wire into coefficient k. */
  function ToggleNet(n: Net, acc: seq<nat>, bit: nat, k: nat): (o: Bundle)
    requires |acc| == 8 && k < 256
    ensures |o.ids| == 8
  {
    XorAtNet(n, acc, k / 32, bit, ShiftLeft(k % 32))
  }

  /** Limbs that hold the polynomial p. */
  ghost predicate Holds(vs: seq<Word>, ids: seq<nat>, p: Bits)
  {
    Within(ids, |vs|) && Flat(Vals(vs, ids)) == p
  }

  ghost predicate MakesPoly(n: Net, o: Bundle, env: seq<Word>, k: nat, p: Bits)
    requires Ready(n, env)
  {
    Grows(n, o.net, env, k) && Holds(On(o.net, env), o.ids, p)
  }

  lemma ToggleIs(n: Net, acc: seq<nat>, bit: nat, k: nat, env: seq<Word>, p: Wide, on: bool)
    requires Ready(n, env) && |acc| == 8 && Holds(On(n, env), acc, p) && Is(On(n, env), bit, BitWord(on)) && k < 256
    ensures MakesPoly(n, ToggleNet(n, acc, bit, k), env, 0, Toggle(p, k, on))
  {
    hide PlainRun, Legal, Cost, On, Ready, Toggle, Flat, XorAtNet, BitWord, Shl;
    var aw := Vals(On(n, env), acc);
    WordsAre(On(n, env), acc);
    XorAtIs(n, acc, k / 32, bit, ShiftLeft(k % 32), env, aw, BitWord(on));
    var o := ToggleNet(n, acc, bit, k);
    AreVals(On(o.net, env), o.ids, aw[k / 32 := Words.Xor(aw[k / 32], Shl(BitWord(on), k % 32))]);
    ToggleLimb(aw, k, on);
  }

  lemma BitByShift(w: Word, n: nat)
    requires n < 32
    ensures Words.And(BitWord(true), Shr(w, n)) == BitWord(w[n])
  {
  }

  /** Bit k of a word as a single-bit wire. */
  function BitNet(n: Net, word: nat, k: nat): Wired
  {
    var t := n.Map(ShiftRight(k), word);
    t.net.Map(KeepBits(BitWord(true)), t.id)
  }

  lemma BitNetIs(n: Net, word: nat, k: nat, env: seq<Word>, w: Word)
    requires Ready(n, env) && Is(On(n, env), word, w) && k < 32
    ensures MakesWord(n, BitNet(n, word, k), env, 0, BitWord(w[k]))
  {
    hide PlainRun, Legal, Cost, On, Ready, Words.And, Shr, BitWord;
    var t := n.Map(ShiftRight(k), word);
    MapIs(n, ShiftRight(k), word, env, w);
    MapIs(t.net, KeepBits(BitWord(true)), t.id, env, Shr(w, k));
    BitByShift(w, k);
  }

  function ReduceRoundNet(n: Net, acc: seq<nat>, i: nat): (o: Bundle)
    requires |acc| == 8 && 128 <= i < 256
    ensures |o.ids| == 8
  {
    hide ToggleNet;
    var t := i - 128;
    var bit := BitNet(n, acc[i / 32], i % 32);
    var a := ToggleNet(bit.net, acc, bit.id, i);
    var b := ToggleNet(a.net, a.ids, bit.id, t + 7);
    var c := ToggleNet(b.net, b.ids, bit.id, t + 2);
    var d := ToggleNet(c.net, c.ids, bit.id, t + 1);
    ToggleNet(d.net, d.ids, bit.id, t)
  }

  lemma HoldsKept(a: seq<Word>, b: seq<Word>, ids: seq<nat>, p: Bits)
    requires a <= b && Holds(a, ids, p)
    ensures Holds(b, ids, p)
  {
    hide Flat;
    assert Vals(a, ids) == Vals(b, ids);
  }

  lemma ReduceRoundIs(n: Net, acc: seq<nat>, i: nat, env: seq<Word>, p: Wide)
    requires Ready(n, env) && |acc| == 8 && Holds(On(n, env), acc, p) && 128 <= i < 256
    ensures MakesPoly(n, ReduceRoundNet(n, acc, i), env, 0, ReduceStep(p, i - 128))
  {
    hide PlainRun, Legal, Cost, On, Ready, Toggle, ToggleNet, BitNet, BitWord;
    var t, on := i - 128, p[i];
    var bit := BitNet(n, acc[i / 32], i % 32);
    BitNetIs(n, acc[i / 32], i % 32, env, On(n, env)[acc[i / 32]]);
    HoldsKept(On(n, env), On(bit.net, env), acc, p);
    hide Holds;
    var a, pa := ToggleNet(bit.net, acc, bit.id, i), Toggle(p, i, on);
    ToggleIs(bit.net, acc, bit.id, i, env, p, on);
    var b, pb := ToggleNet(a.net, a.ids, bit.id, t + 7), Toggle(pa, t + 7, on);
    ToggleIs(a.net, a.ids, bit.id, t + 7, env, pa, on);
    var c, pc := ToggleNet(b.net, b.ids, bit.id, t + 2), Toggle(pb, t + 2, on);
    ToggleIs(b.net, b.ids, bit.id, t + 2, env, pb, on);
    var d, pd := ToggleNet(c.net, c.ids, bit.id, t + 1), Toggle(pc, t + 1, on);
    ToggleIs(c.net, c.ids, bit.id, t + 1, env, pc, on);
    ToggleIs(d.net, d.ids, bit.id, t, env, pd, on);
  }

  /** The reduction loop, as the XOR-linear map it is on every share: coefficients 255 down to 128 + k cleared. */
  function ReduceNet(n: Net, acc: seq<nat>, k: nat): (o: Bundle)
    requires |acc| == 8 && k <= 128
    ensures |o.ids| == 8
    decreases 128 - k
  {
    hide ReduceRoundNet;
    if k == 128 then Bundle(n, acc)
    else
      var o := ReduceNet(n, acc, k + 1);
      ReduceRoundNet(o.net, o.ids, k + 128)
  }

  lemma {:induction false} ReduceIs(n: Net, acc: seq<nat>, k: nat, env: seq<Word>, p: Wide)
    requires Ready(n, env) && |acc| == 8 && Holds(On(n, env), acc, p) && k <= 128
    ensures MakesPoly(n, ReduceNet(n, acc, k), env, 0, Reduced(p, k))
    decreases 128 - k
  {
    hide PlainRun, Legal, Cost, On, Ready, ReduceStep, ReduceRoundNet, Holds;
    if k < 128 {
      ReduceIs(n, acc, k + 1, env, p);
      var o := ReduceNet(n, acc, k + 1);
      ReduceRoundIs(o.net, o.ids, k + 128, env, Reduced(p, k + 1));
    }
  }

  method EmitReduce(n: Net, acc: seq<nat>) returns (o: Bundle)
    requires |acc| == 8
    ensures o == ReduceNet(n, acc, 0)
  {
    hide ReduceRoundNet;
    o := Bundle(n, acc);
    var i := 255;
    while i >= 128
      invariant 127 <= i <= 255 && o == ReduceNet(n, acc, i - 127)
    {
      o := ReduceRoundNet(o.net, o.ids, i);
      i := i - 1;
    }
  }

  lemma MaskedLimb(y: seq<Word>, x: Word, j: nat)
    requires |y| == 4 && j < 128
    ensures Words.And(Broadcast(y[j / 32], j % 32), x) == if Flat(y)[j] then x else ZERO
  {
  }

  /** The first w limbs of x, masked and added in at bit j. */
  function RowNet(n: Net, acc: seq<nat>, x: seq<nat>, mask: nat, j: nat, w: nat): (o: Bundle)
    requires |acc| == 8 && |x| == 4 && j < 128 && w <= 4
    ensures |o.ids| == 8
    decreases |x|, w
  {
    hide ShiftXorNet;
    if w == 0 then Bundle(n, acc)
    else
      var o := RowNet(n, acc, x, mask, j, w - 1);
      var z := o.net.And(mask, x[w - 1]);
      ShiftXorNet(z.net, o.ids, z.id, 32 * (w - 1) + j)
  }

  ghost predicate Sums(vs: seq<Word>, acc: seq<nat>, x: seq<Word>, y: Poly, j: nat, w: nat)
    requires |acc| == 8 && |x| == 4 && j < 128 && w <= 4
  {
    Within(acc, |vs|) && HoldsPartial(Vals(vs, acc), x, y, j, w)
  }

  lemma RowStep(n: Net, acc: seq<nat>, id: nat, mask: nat, j: nat, w: nat, env: seq<Word>, xw: seq<Word>, yw: seq<Word>)
    requires Ready(n, env) && |acc| == 8 && |xw| == |yw| == 4 && j < 128 && w < 4
    requires Is(On(n, env), mask, Broadcast(yw[j / 32], j % 32)) && Is(On(n, env), id, xw[w])
    requires Sums(On(n, env), acc, xw, Flat(yw), j, w)
    ensures var z := n.And(mask, id);
            var o := ShiftXorNet(z.net, acc, z.id, 32 * w + j);
            Grows(n, o.net, env, 1) && Sums(On(o.net, env), o.ids, xw, Flat(yw), j, w + 1)
  {
    hide PlainRun, Legal, Cost, On, Ready, ShiftXor, ShiftXorNet, Words.And, Broadcast, Flat, HoldsPartial;
    var z := n.And(mask, id);
    var aw, zw := Vals(On(n, env), acc), if Flat(yw)[j] then xw[w] else ZERO;
    AndIs(n, mask, id, env, Broadcast(yw[j / 32], j % 32), xw[w]);
    MaskedLimb(yw, xw[w], j);
    WordsAre(On(n, env), acc);
    ShiftXorIs(z.net, acc, z.id, 32 * w + j, env, aw, zw);
    PartialStep(xw, Flat(yw), aw, j, w, zw);
    var o := ShiftXorNet(z.net, acc, z.id, 32 * w + j);
    AreVals(On(o.net, env), o.ids, ShiftXor(aw, zw, 32 * w + j));
  }

  lemma {:induction false} RowIs(n: Net, acc: seq<nat>, x: seq<nat>, mask: nat, j: nat, w: nat, env: seq<Word>, xw: seq<Word>, yw: seq<Word>)
    requires Ready(n, env) && |acc| == 8 && |x| == |yw| == 4 && AreWords(On(n, env), x, xw) && j < 128 && w <= 4
    requires Is(On(n, env), mask, Broadcast(yw[j / 32], j % 32)) && Sums(On(n, env), acc, xw, Flat(yw), j, 0)
    ensures var o := RowNet(n, acc, x, mask, j, w);
            Grows(n, o.net, env, w) && Sums(On(o.net, env), o.ids, xw, Flat(yw), j, w)
  {
    hide PlainRun, Legal, Cost, On, Ready, ShiftXorNet, Broadcast, Flat, Sums;
    if w > 0 {
      RowIs(n, acc, x, mask, j, w - 1, env, xw, yw);
      var o := RowNet(n, acc, x, mask, j, w - 1);
      RowStep(o.net, o.ids, x[w - 1], mask, j, w - 1, env, xw, yw);
    }
  }

  /** The rounds of the first j bits of y. */
  function RowsNet(n: Net, x: seq<nat>, y: seq<nat>, j: nat): (o: Bundle)
    requires |x| == 4 && |y| == 4 && j <= 128
    ensures |o.ids| == 8
    decreases |x|, j
  {
    hide RowNet;
    if j == 0 then
      var z := n.Const(ZERO);
      Bundle(z.net, [z.id, z.id, z.id, z.id, z.id, z.id, z.id, z.id])
    else
      var o := RowsNet(n, x, y, j - 1);
      var mask := o.net.Map(SpreadBit((j - 1) % 32), y[(j - 1) / 32]);
      RowNet(mask.net, o.ids, x, mask.id, j - 1, 4)
  }

  ghost predicate SumsTo(vs: seq<Word>, acc: seq<nat>, x: seq<Word>, y: Poly, j: nat)
    requires |acc| == 8 && |x| == 4 && j <= 128
  {
    Within(acc, |vs|) && HoldsConv(Vals(vs, acc), Flat(x), y, j)
  }

  lemma SumsStart(a: seq<Word>, b: seq<Word>, acc: seq<nat>, x: seq<Word>, y: Poly, j: nat)
    requires |acc| == 8 && |x| == 4 && j < 128 && a <= b && SumsTo(a, acc, x, y, j)
    ensures Sums(b, acc, x, y, j, 0)
  {
    hide Flat, Conv;
    assert Vals(a, acc) == Vals(b, acc);
  }

  lemma SumsEnd(vs: seq<Word>, acc: seq<nat>, x: seq<Word>, y: Poly, j: nat)
    requires |acc| == 8 && |x| == 4 && j < 128 && Sums(vs, acc, x, y, j, 4)
    ensures SumsTo(vs, acc, x, y, j + 1)
  {
    var aw := Vals(vs, acc);
    forall k | 0 <= k < 256
      ensures Flat(aw)[k] == Conv(Flat(x), y, k, j + 1)
    {
      assert Flat(aw)[k] == Partial(x, y, k, j, 4);
    }
  }

  lemma SumsZero(vs: seq<Word>, id: nat, x: seq<Word>, y: Poly)
    requires |x| == 4 && Is(vs, id, ZERO)
    ensures SumsTo(vs, [id, id, id, id, id, id, id, id], x, y, 0)
  {
  }

  lemma {:induction false} RowsAre(n: Net, x: seq<nat>, y: seq<nat>, j: nat, env: seq<Word>, xw: seq<Word>, yw: seq<Word>)
    requires Ready(n, env) && |x| == |y| == 4 && AreWords(On(n, env), x, xw) && AreWords(On(n, env), y, yw) && j <= 128
    ensures var o := RowsNet(n, x, y, j);
            Grows(n, o.net, env, 4 * j) && SumsTo(On(o.net, env), o.ids, xw, Flat(yw), j)
  {
    hide PlainRun, Legal, Cost, On, Ready, RowNet, Broadcast, Flat, Sums, SumsTo;
    if j == 0 {
      ConstIs(n, ZERO, env);
      SumsZero(On(n.Const(ZERO).net, env), n.Const(ZERO).id, xw, Flat(yw));
    } else {
      RowsAre(n, x, y, j - 1, env, xw, yw);
      var o := RowsNet(n, x, y, j - 1);
      var mask := o.net.Map(SpreadBit((j - 1) % 32), y[(j - 1) / 32]);
      MapIs(o.net, SpreadBit((j - 1) % 32), y[(j - 1) / 32], env, yw[(j - 1) / 32]);
      SumsStart(On(o.net, env), On(mask.net, env), o.ids, xw, Flat(yw), j - 1);
      RowIs(mask.net, o.ids, x, mask.id, j - 1, 4, env, xw, yw);
      var r := RowNet(mask.net, o.ids, x, mask.id, j - 1, 4);
      SumsEnd(On(r.net, env), r.ids, xw, Flat(yw), j - 1);
    }
  }

  function MulNet(n: Net, x: seq<nat>, y: seq<nat>): (o: Bundle)
    requires |x| == 4 && |y| == 4
    ensures |o.ids| == 4
  {
    hide RowsNet, ReduceNet;
    var acc := RowsNet(n, x, y, 128);
    var r := ReduceNet(acc.net, acc.ids, 0);
    Bundle(r.net, r.ids[..4])
  }

  lemma LowHalf(vs: seq<Word>, ids: seq<nat>, p: Wide)
    requires |ids| == 8 && Holds(vs, ids, p)
    ensures Holds(vs, ids[..4], p[..128])
  {
  }

  lemma WholeProduct(vs: seq<Word>, ids: seq<nat>, x: seq<Word>, y: seq<Word>)
    requires |ids| == 8 && |x| == |y| == 4 && SumsTo(vs, ids, x, Flat(y), 128)
    ensures Holds(vs, ids, Product(Flat(x), Flat(y)))
  {
    assert Flat(Vals(vs, ids)) == Product(Flat(x), Flat(y));
  }

  /** 128 * 4 AND gates, everything else linear, carry the field product. */
  lemma MulIs(n: Net, x: seq<nat>, y: seq<nat>, env: seq<Word>, xw: seq<Word>, yw: seq<Word>)
    requires Ready(n, env) && |x| == |y| == 4 && AreWords(On(n, env), x, xw) && AreWords(On(n, env), y, yw)
    ensures MakesPoly(n, MulNet(n, x, y), env, 512, Mul(Flat(xw), Flat(yw)))
  {
    hide PlainRun, Legal, Cost, On, Ready, RowsNet, ReduceNet, SumsTo, Holds, Flat, Product, Reduced;
    var acc := RowsNet(n, x, y, 128);
    RowsAre(n, x, y, 128, env, xw, yw);
    WholeProduct(On(acc.net, env), acc.ids, xw, yw);
    var r, p := ReduceNet(acc.net, acc.ids, 0), Product(Flat(xw), Flat(yw));
    ReduceIs(acc.net, acc.ids, 0, env, p);
    LowHalf(On(r.net, env), r.ids, Reduced(p, 0));
  }

  method EmitMul(n: Net, x: seq<nat>, y: seq<nat>) returns (o: Bundle)
    requires |x| == 4 && |y| == 4
    ensures o == MulNet(n, x, y)
  {
    hide ShiftXorNet, ReduceNet;
    var z := n.Const(ZERO);
    o := Bundle(z.net, [z.id, z.id, z.id, z.id, z.id, z.id, z.id, z.id]);
    for j := 0 to 128
      invariant o == RowsNet(n, x, y, j)
    {
      var acc := o.ids;
      var mask := o.net.Map(SpreadBit(j % 32), y[j / 32]);
      o := Bundle(mask.net, acc);
      for w := 0 to 4
        invariant o == RowNet(mask.net, acc, x, mask.id, j, w)
      {
        var t := o.net.And(mask.id, x[w]);
        o := ShiftXorNet(t.net, o.ids, t.id, 32 * w + j);
      }
    }
    o := EmitReduce(o.net, o.ids);
    o := Bundle(o.net, o.ids[..4]);
  }
}
