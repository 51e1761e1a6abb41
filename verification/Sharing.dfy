/** XOR secret sharing of words: a masked word is a public value h together with one mask share
    per party, and stands for h XOR all shares. */
module Sharing {
  import opened Words

  /** h is the public masked value; l[i] is party i's share of its mask. The verifier holds the same
      record with the hidden party's share left out. */
  datatype Mw = Mw(h: Word, l: seq<Word>)

  function ZeroWords(n: nat): (r: seq<Word>)
    ensures |r| == n
  {
    seq(n, _ => ZERO)
  }

  function XorAll(l: seq<Word>): Word
  {
    if l == [] then ZERO else Xor(XorAll(l[..|l| - 1]), l[|l| - 1])
  }

  function Unmask(x: Mw): Word
  {
    Xor(x.h, XorAll(x.l))
  }

  /** s with the element at index e left out. */
  function Without<T>(s: seq<T>, e: nat): (r: seq<T>)
    requires e < |s|
    ensures |r| == |s| - 1
    ensures forall j :: 0 <= j < |r| ==> r[j] == s[Orig(j, e)]
  {
    s[..e] + s[e + 1..]
  }

  /** The party behind the verifier's j-th visible slot when party e is hidden. */
  function Orig(j: nat, e: nat): nat
  {
    if j < e then j else j + 1
  }

  function Hide(x: Mw, e: nat): (r: Mw)
    requires e < |x.l|
    ensures |r.l| == |x.l| - 1
  {
    Mw(x.h, Without(x.l, e))
  }

  /** Each party is hidden or owns exactly one visible slot. */
  lemma SlotOf(p: nat, e: nat, n: nat)
    requires p < n && e < n && p != e
    ensures var j := if p < e then p else p - 1; j < n - 1 && Orig(j, e) == p
  {
  }

  lemma XorAllSnoc(l: seq<Word>, w: Word)
    ensures XorAll(l + [w]) == Xor(XorAll(l), w)
  {
    assert (l + [w])[..|l|] == l;
  }

  lemma XorAssociates(a: Word, b: Word, c: Word)
    ensures Xor(Xor(a, b), c) == Xor(a, Xor(b, c))
  {
  }

  lemma WithoutSnoc<T>(l: seq<T>, e: nat)
    requires e < |l|
    ensures e == |l| - 1 ==> Without(l, e) == l[..|l| - 1]
    ensures e < |l| - 1 ==> Without(l, e) == Without(l[..|l| - 1], e) + [l[|l| - 1]]
  {
  }

  lemma {:induction false} XorAllWithout(l: seq<Word>, e: nat)
    requires e < |l|
    ensures Xor(l[e], XorAll(Without(l, e))) == XorAll(l)
  {
    hide Xor, Without;
    var k := |l| - 1;
    WithoutSnoc(l, e);
    if e == k {
      XorCommutes(l[k], XorAll(l[..k]));
    } else {
      XorAllWithout(l[..k], e);
      var w := Without(l[..k], e);
      XorAllSnoc(w, l[k]);
      XorAssociates(l[e], XorAll(w), l[k]);
    }
  }

  lemma XorCommutes(a: Word, b: Word)
    ensures Xor(a, b) == Xor(b, a)
  {
  }

  // ---- the linear maps -----------------------------------------------------

  type BitIndex = n: nat | n < 32

  /** The XOR-linear word operations, applied share by share. */
  datatype Linear =
    | RotateRight(n: BitIndex)
    | ShiftLeft(places: nat)
    | ShiftRight(places: nat)
    | KeepBits(k: Word)
    | SpreadBit(n: BitIndex)
    | ParityBit
    | PrefixXor

  function Apply(op: Linear, w: Word): Word
  {
    match op
    case RotateRight(n) => Rotr(w, n)
    case ShiftLeft(n) => Shl(w, n)
    case ShiftRight(n) => Shr(w, n)
    case KeepBits(k) => And(k, w)
    case SpreadBit(n) => Broadcast(w, n)
    case ParityBit => BitWord(ParityTo(w, 32))
    case PrefixXor => PrefixXorShift(w)
  }

  lemma {:induction false} ParityXor(a: Word, b: Word, n: nat)
    requires n <= 32
    ensures ParityTo(Xor(a, b), n) == (ParityTo(a, n) != ParityTo(b, n))
  {
    if n > 0 { ParityXor(a, b, n - 1); }
  }

  /** Every operation of Linear distributes over XOR. */
  lemma ApplyXor(op: Linear, a: Word, b: Word)
    ensures Apply(op, Xor(a, b)) == Xor(Apply(op, a), Apply(op, b))
  {
    if op.ParityBit? { ParityXor(a, b, 32); }
    if op.PrefixXor? {
      PrefixXorShiftBits(a);
      PrefixXorShiftBits(b);
      PrefixXorShiftBits(Xor(a, b));
      forall i | 0 <= i < 32
        ensures Apply(op, Xor(a, b))[i] == Xor(Apply(op, a), Apply(op, b))[i]
      {
        ParityXor(a, b, i);
      }
    }
  }

  lemma ApplyZero(op: Linear)
    ensures Apply(op, ZERO) == ZERO
  {
    ApplyXor(op, ZERO, ZERO);
    assert Xor(ZERO, ZERO) == ZERO;
    var z := Apply(op, ZERO);
    assert forall i :: 0 <= i < 32 ==> z[i] == Xor(z, z)[i];
    assert z == ZERO;
  }

  function ApplyAll(op: Linear, l: seq<Word>): (r: seq<Word>)
    ensures |r| == |l| && forall i :: 0 <= i < |l| ==> r[i] == Apply(op, l[i])
  {
    seq(|l|, i requires 0 <= i < |l| => Apply(op, l[i]))
  }

  function XorEach(a: seq<Word>, b: seq<Word>): (r: seq<Word>)
    requires |a| == |b|
    ensures |r| == |a| && forall i :: 0 <= i < |a| ==> r[i] == Xor(a[i], b[i])
  {
    seq(|a|, i requires 0 <= i < |a| => Xor(a[i], b[i]))
  }

  lemma {:induction false} XorAllApply(op: Linear, l: seq<Word>)
    ensures XorAll(ApplyAll(op, l)) == Apply(op, XorAll(l))
  {
    var k := |l| - 1;
    if l == [] {
      ApplyZero(op);
    } else {
      XorAllApply(op, l[..k]);
      var m := ApplyAll(op, l);
      assert m[..k] == ApplyAll(op, l[..k]);
      assert XorAll(m) == Xor(XorAll(m[..k]), m[k]);
      ApplyXor(op, XorAll(l[..k]), l[k]);
      assert l[..k] + [l[k]] == l;
      XorAllSnoc(l[..k], l[k]);
    }
  }

  lemma {:induction false} XorAllEach(a: seq<Word>, b: seq<Word>)
    requires |a| == |b|
    ensures XorAll(XorEach(a, b)) == Xor(XorAll(a), XorAll(b))
  {
    var k := |a| - 1;
    if a != [] {
      XorAllEach(a[..k], b[..k]);
      assert XorEach(a, b)[..k] == XorEach(a[..k], b[..k]);
    }
  }
}
