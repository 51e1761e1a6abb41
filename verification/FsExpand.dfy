/** Expanding the Fiat-Shamir seed into a challenge: rejection sampling from a hash stream, a partial
    Fisher-Yates shuffle in place, a sort, and one hidden party per opened instance. A bound on the number
    of rejections stands for the original's unbounded loops. */
module FsExpand {
  import opened Wrappers
  import opened Words
  import opened KkwCodec
  import opened Kkw

  const WORDS: nat := 0x1_0000_0000

  // ---- sampling below a bound ----------------------------------------------

  /** The largest multiple of bound that fits 32 bits: words from here on are rejected. */
  function Limit(bound: nat): (l: nat)
    requires 0 < bound <= WORDS
    ensures l <= WORDS && l % bound == 0 && l > 0
  {
    Multiple(WORDS, bound);
    WORDS - WORDS % bound
  }

  lemma Multiple(a: nat, m: nat)
    requires 0 < m <= a
    ensures (a - a % m) % m == 0 && a - a % m == (a / m) * m && a / m >= 1
  {
    var q := a / m;
    assert a == q * m + a % m;
    ModOf(0, q, m);
    Times(-q, m);
    Times(q, m);
  }

  /** The numbers below n * bound that give residue r. */
  function Residues(n: nat, bound: nat, r: nat): set<nat>
    requires 0 < bound
  {
    set v: nat | v < n * bound && v % bound == r
  }

  /** The accepted words that give residue r. */
  function Hits(bound: nat, r: nat): set<nat>
    requires 0 < bound <= WORDS && r < bound
  {
    set v: nat | v < Limit(bound) && v % bound == r
  }

  /** The accepted bytes that give party r of n. */
  function ByteHits(n: nat, r: nat): set<nat>
    requires r < n
  {
    set v: nat | v < n * (256 / n) && v % n == r
  }

  function Progression(m: nat, r: nat, n: nat): set<nat>
  {
    set q: nat | q < n :: q * m + r
  }

  lemma {:induction false} ProgressionSize(m: nat, r: nat, n: nat)
    requires r < m
    ensures |Progression(m, r, n)| == n
  {
    if n == 0 {
      assert Progression(m, r, 0) == {};
    } else {
      ProgressionSize(m, r, n - 1);
      var top := (n - 1) * m + r;
      forall q: nat | q < n - 1
        ensures q * m + r != top
      {
        ModOf(r, q, m);
        ModOf(r, n - 1, m);
      }
      assert top !in Progression(m, r, n - 1);
      assert Progression(m, r, n) == Progression(m, r, n - 1) + {top};
    }
  }

  lemma QuotientBelow(q: nat, n: nat, m: nat)
    ensures q * m < n * m ==> q < n
  {
    assert (q - n) * m == q * m - n * m;
    if q >= n { TimesNat(q - n, m); }
  }

  lemma TimesNat(d: nat, m: nat)
    ensures d * m >= 0
  {
  }

  lemma TermBelow(q: nat, n: nat, m: nat, r: nat)
    requires q < n && r < m
    ensures q * m + r < n * m
  {
    assert (n - q) * m == n * m - q * m;
    Times(n - q, m);
  }

  lemma DivMod(v: nat, m: nat)
    requires m > 0
    ensures v == (v / m) * m + v % m
  {
  }

  lemma ResiduesAre(n: nat, bound: nat, r: nat)
    requires r < bound
    ensures Residues(n, bound, r) == Progression(bound, r, n)
  {
    forall v: nat | v in Residues(n, bound, r)
      ensures v in Progression(bound, r, n)
    {
      HitIsTerm(bound, r, n, v);
    }
    forall v: nat | v in Progression(bound, r, n)
      ensures v in Residues(n, bound, r)
    {
      var q: nat :| q < n && v == q * bound + r;
      ModOf(r, q, bound);
      TermBelow(q, n, bound, r);
    }
  }

  lemma HitIsTerm(bound: nat, r: nat, n: nat, v: nat)
    requires 0 < bound && r < bound && v < n * bound && v % bound == r
    ensures v in Progression(bound, r, n)
  {
    var q := v / bound;
    DivMod(v, bound);
    QuotientBelow(q, n, bound);
    assert q < n && v == q * bound + r;
  }

  /** No residue is favoured: as many accepted words give one as any other, and no more would fit. */
  lemma EveryResidueAlike(bound: nat, r: nat)
    requires 0 < bound <= WORDS && r < bound
    ensures |Hits(bound, r)| == WORDS / bound
  {
    var n := WORDS / bound;
    Multiple(WORDS, bound);
    assert Hits(bound, r) == Residues(n, bound, r);
    ResiduesAre(n, bound, r);
    ProgressionSize(bound, r, n);
  }

  /** Nor is any party. */
  lemma EveryPartyAlike(n: nat, r: nat)
    requires r < n
    ensures |ByteHits(n, r)| == 256 / n
  {
    var q := 256 / n;
    assert n * q == q * n;
    assert ByteHits(n, r) == Residues(q, n, r);
    ResiduesAre(q, n, r);
    ProgressionSize(n, r, q);
  }

  datatype Drawn = Drawn(value: nat, at: nat)

  /** Four bytes of the stream, most significant first. */
  function WordAt(f: nat -> Byte, at: nat): nat
  {
    0x100_0000 * ToNat(f(at)) + 0x1_0000 * ToNat(f(at + 1)) + 0x100 * ToNat(f(at + 2)) + ToNat(f(at + 3))
  }

  function Below(f: nat -> Byte, at: nat, bound: nat, tries: nat): (r: Option<Drawn>)
    requires 0 < bound <= WORDS
    ensures r.Some? ==> r.value.value < bound
    decreases tries
  {
    if tries == 0 then None
    else if WordAt(f, at) >= Limit(bound) then Below(f, at + 4, bound, tries - 1)
    else Some(Drawn(WordAt(f, at) % bound, at + 4))
  }

  /** One byte below n, by the same rejection. */
  function ByteBelow(f: nat -> Byte, at: nat, n: nat, tries: nat): (r: Option<Drawn>)
    requires n > 0
    ensures r.Some? ==> r.value.value < n
    decreases tries
  {
    if tries == 0 then None
    else if ToNat(f(at)) >= n * (256 / n) then ByteBelow(f, at + 1, n, tries - 1)
    else Some(Drawn(ToNat(f(at)) % n, at + 1))
  }

  /** The first k words read are rejected and the next one gives v. */
  predicate Accepts(f: nat -> Byte, at: nat, bound: nat, k: nat, v: nat)
    requires 0 < bound <= WORDS && v < bound
  {
    (forall i :: 0 <= i < k ==> Limit(bound) <= Nth(f, at, i)) && Nth(f, at, k) in Hits(bound, v)
  }

  function Nth(f: nat -> Byte, at: nat, i: nat): nat { WordAt(f, at + 4 * i) }

  lemma NthNext(f: nat -> Byte, at: nat, i: nat)
    ensures Nth(f, at, i + 1) == Nth(f, at + 4, i) && Nth(f, at, 0) == WordAt(f, at)
  {
    assert at + 4 * (i + 1) == at + 4 + 4 * i;
  }

  lemma AcceptsNext(f: nat -> Byte, at: nat, bound: nat, k: nat, v: nat)
    requires 0 < bound <= WORDS && v < bound && Limit(bound) <= WordAt(f, at)
    ensures !Accepts(f, at, bound, 0, v)
    ensures Accepts(f, at + 4, bound, k, v) <==> Accepts(f, at, bound, k + 1, v)
  {
    hide WordAt, Limit, Nth;
    NthNext(f, at, k);
    var next := at + 4;
    if Accepts(f, next, bound, k, v) {
      forall i | 0 <= i < k + 1
        ensures Limit(bound) <= Nth(f, at, i)
      {
        if i > 0 { NthNext(f, at, i - 1); } else { NthNext(f, at, 0); }
      }
    }
    if Accepts(f, at, bound, k + 1, v) {
      forall i | 0 <= i < k
        ensures Limit(bound) <= Nth(f, next, i)
      {
        NthNext(f, at, i);
      }
    }
    NthNext(f, at, 0);
  }

  /** Sampling returns v, leaving the stream at q, exactly if some word just before q gives v and all words
      before that one are rejected. */
  lemma {:induction false} SampledExactly(f: nat -> Byte, at: nat, bound: nat, tries: nat, v: nat, q: nat)
    requires 0 < bound <= WORDS && v < bound
    ensures Below(f, at, bound, tries) == Some(Drawn(v, q)) <==>
              exists k :: 0 <= k < tries && q == at + 4 * k + 4 && Accepts(f, at, bound, k, v)
    decreases tries
  {
    hide WordAt, Limit, Accepts;
    if tries > 0 {
      if Limit(bound) <= WordAt(f, at) {
        SampledExactly(f, at + 4, bound, tries - 1, v, q);
        SampledLater(f, at, bound, tries, v, q);
      } else {
        SampledNow(f, at, bound, tries, v, q);
      }
    }
  }

  lemma SampledLater(f: nat -> Byte, at: nat, bound: nat, tries: nat, v: nat, q: nat)
    requires 0 < bound <= WORDS && v < bound && tries > 0 && Limit(bound) <= WordAt(f, at)
    ensures (exists k :: 0 <= k < tries - 1 && q == at + 4 + 4 * k + 4 && Accepts(f, at + 4, bound, k, v)) <==>
              exists k :: 0 <= k < tries && q == at + 4 * k + 4 && Accepts(f, at, bound, k, v)
  {
    hide WordAt, Limit, Accepts;
    if k :| 0 <= k < tries - 1 && q == at + 4 + 4 * k + 4 && Accepts(f, at + 4, bound, k, v) {
      AcceptsNext(f, at, bound, k, v);
      assert q == at + 4 * (k + 1) + 4 && Accepts(f, at, bound, k + 1, v);
    }
    if k :| 0 <= k < tries && q == at + 4 * k + 4 && Accepts(f, at, bound, k, v) {
      AcceptsNext(f, at, bound, 0, v);
      AcceptsNext(f, at, bound, k - 1, v);
      assert q == at + 4 + 4 * (k - 1) + 4 && Accepts(f, at + 4, bound, k - 1, v);
    }
  }

  lemma SampledNow(f: nat -> Byte, at: nat, bound: nat, tries: nat, v: nat, q: nat)
    requires 0 < bound <= WORDS && v < bound && tries > 0 && WordAt(f, at) < Limit(bound)
    ensures Below(f, at, bound, tries) == Some(Drawn(v, q)) <==>
              exists k :: 0 <= k < tries && q == at + 4 * k + 4 && Accepts(f, at, bound, k, v)
  {
    hide WordAt, Limit, Nth;
    NthNext(f, at, 0);
    if WordAt(f, at) % bound == v && q == at + 4 {
      assert q == at + 4 * 0 + 4 && Accepts(f, at, bound, 0, v);
    }
  }

  /** The first k bytes read are rejected and the next one gives party v. */
  predicate AcceptsByte(f: nat -> Byte, at: nat, n: nat, k: nat, v: nat)
    requires v < n
  {
    (forall i :: at <= i < at + k ==> n * (256 / n) <= ToNat(f(i))) && ToNat(f(at + k)) in ByteHits(n, v)
  }

  /** The same for the sampling of a party. */
  lemma {:induction false} PartySampledExactly(f: nat -> Byte, at: nat, n: nat, tries: nat, v: nat, q: nat)
    requires v < n
    ensures ByteBelow(f, at, n, tries) == Some(Drawn(v, q)) <==>
              at < q <= at + tries && AcceptsByte(f, at, n, q - 1 - at, v)
    decreases tries
  {
    hide ToNat;
    if tries > 0 && n * (256 / n) <= ToNat(f(at)) {
      PartySampledExactly(f, at + 1, n, tries - 1, v, q);
      if at + 1 < q {
        assert at + 1 + (q - 1 - (at + 1)) == at + (q - 1 - at);
        assert AcceptsByte(f, at + 1, n, q - 1 - (at + 1), v) <==> AcceptsByte(f, at, n, q - 1 - at, v);
      }
    }
  }

  // ---- the shuffle ---------------------------------------------------------

  /** Draw i picks a position from i on. */
  predicate Draws(ds: seq<nat>, m: nat)
  {
    |ds| <= m && forall i :: 0 <= i < |ds| ==> i <= ds[i] < m
  }

  function Swap(s: seq<nat>, i: nat, j: nat): (r: seq<nat>)
    requires i < |s| && j < |s|
    ensures |r| == |s|
  {
    s[i := s[j]][j := s[i]]
  }

  function Identity(m: nat): (s: seq<nat>)
    ensures |s| == m && forall i :: 0 <= i < m ==> s[i] == i
  {
    seq(m, i => i)
  }

  /** The identity arrangement after the given draws. */
  function Shuffled(ds: seq<nat>, m: nat): (r: seq<nat>)
    requires Draws(ds, m)
    ensures |r| == m
  {
    if ds == [] then Identity(m)
    else Swap(Shuffled(ds[..|ds| - 1], m), |ds| - 1, ds[|ds| - 1])
  }

  predicate Permutes(s: seq<nat>, m: nat)
  {
    |s| == m && (forall i :: 0 <= i < m ==> s[i] < m) && (forall i, j :: 0 <= i < j < m ==> s[i] != s[j])
  }

  lemma {:induction false} ShuffledPermutes(ds: seq<nat>, m: nat)
    requires Draws(ds, m)
    ensures Permutes(Shuffled(ds, m), m)
  {
    if ds != [] { ShuffledPermutes(ds[..|ds| - 1], m); }
  }

  /** The selection: the first |ds| places. */
  function Selection(ds: seq<nat>, m: nat): (r: seq<nat>)
    requires Draws(ds, m)
    ensures |r| == |ds|
  {
    Shuffled(ds, m)[..|ds|]
  }

  predicate Distinct(s: seq<nat>, m: nat)
  {
    (forall i :: 0 <= i < |s| ==> s[i] < m) && (forall i, j :: 0 <= i < j < |s| ==> s[i] != s[j])
  }

  /** Later draws do not touch earlier places. */
  lemma SelectionPrefix(ds: seq<nat>, m: nat)
    requires Draws(ds, m) && ds != []
    ensures var es := ds[..|ds| - 1];
            Selection(ds, m) == Selection(es, m) + [Shuffled(es, m)[ds[|ds| - 1]]]
  {
    var k := |ds| - 1;
    var es := ds[..k];
    var a, b := Shuffled(es, m), Shuffled(ds, m);
    forall i | 0 <= i < k
      ensures b[i] == a[i]
    {
    }
    assert b[k] == a[ds[k]];
  }

  lemma DrawsPrefix(ds: seq<nat>, m: nat)
    requires Draws(ds, m) && ds != []
    ensures Draws(ds[..|ds| - 1], m) && |ds| - 1 <= ds[|ds| - 1] < m
  {
  }

  lemma NoRepeat(a: seq<nat>, m: nat, i: nat, j: nat)
    requires Permutes(a, m) && i < m && j < m && a[i] == a[j]
    ensures i == j
  {
  }

  /** Different draws select differently. */
  lemma {:induction false} SelectionInjective(ds: seq<nat>, es: seq<nat>, m: nat)
    requires Draws(ds, m) && Draws(es, m) && |ds| == |es| && Selection(ds, m) == Selection(es, m)
    ensures ds == es
  {
    if ds != [] {
      hide Selection, Shuffled, Draws, Permutes;
      var k := |ds| - 1;
      DrawsPrefix(ds, m);
      DrawsPrefix(es, m);
      SelectionPrefix(ds, m);
      SelectionPrefix(es, m);
      assert Selection(ds[..k], m) == Selection(ds, m)[..k] && Selection(es[..k], m) == Selection(es, m)[..k];
      SelectionInjective(ds[..k], es[..k], m);
      var a := Shuffled(ds[..k], m);
      assert a[ds[k]] == Selection(ds, m)[k] == Selection(es, m)[k] == a[es[k]];
      ShuffledPermutes(ds[..k], m);
      NoRepeat(a, m, ds[k], es[k]);
      assert ds == ds[..k] + [ds[k]] && es == es[..k] + [es[k]];
    }
  }

  lemma {:induction false} Pigeonhole(s: seq<nat>, m: nat)
    requires Distinct(s, m)
    ensures |s| <= m
    ensures |s| == m ==> forall v :: 0 <= v < m ==> v in s
  {
    var t := set v | v in s;
    SetOfDistinct(s, m, |s|);
    assert t == set i | 0 <= i < |s| :: s[i];
    var u := UpTo(m);
    assert t <= u;
    SubsetSize(t, u);
    if |s| == m {
      forall v | 0 <= v < m
        ensures v in s
      {
        if v !in t {
          assert t <= u - {v};
          SubsetSize(t, u - {v});
        }
      }
    }
  }

  lemma {:induction false} SetOfDistinct(s: seq<nat>, m: nat, k: nat)
    requires Distinct(s, m) && k <= |s|
    ensures |(set i | 0 <= i < k :: s[i])| == k
    decreases k
  {
    var t := set i | 0 <= i < k :: s[i];
    if k > 0 {
      SetOfDistinct(s, m, k - 1);
      var u := set i | 0 <= i < k - 1 :: s[i];
      assert t == u + {s[k - 1]};
      assert s[k - 1] !in u;
    } else {
      assert t == {};
    }
  }

  function UpTo(m: nat): (t: set<nat>)
    ensures |t| == m && forall v: nat :: v in t <==> v < m
  {
    if m == 0 then {} else UpTo(m - 1) + {m - 1}
  }

  lemma {:induction false} SubsetSize(a: set<nat>, b: set<nat>)
    requires a <= b
    ensures |a| <= |b|
  {
    if a != {} {
      var x :| x in a;
      SubsetSize(a - {x}, b - {x});
    }
  }

  /** Every ordered choice of distinct instances is reached by some draws, so the shuffle is a bijection
      from draws to ordered choices. */
  lemma {:induction false} SelectionSurjective(s: seq<nat>, m: nat) returns (ds: seq<nat>)
    requires Distinct(s, m)
    ensures |s| <= m && Draws(ds, m) && |ds| == |s| && Selection(ds, m) == s
  {
    Pigeonhole(s, m);
    if s == [] {
      ds := [];
      assert Selection([], m) == [];
    } else {
      var k := |s| - 1;
      var es := SelectionSurjective(s[..k], m);
      var a := Shuffled(es, m);
      ShuffledPermutes(es, m);
      assert Distinct(a, m);
      Pigeonhole(a, m);
      assert s[k] in a;
      var j :| 0 <= j < m && a[j] == s[k];
      assert forall i :: 0 <= i < k ==> a[i] == Selection(es, m)[i] == s[i];
      ds := es + [j];
      assert ds[..k] == es;
      SelectionPrefix(ds, m);
      assert s == s[..k] + [s[k]];
    }
  }

  // ---- sorting the selection -----------------------------------------------

  function Inserted(s: seq<nat>, v: nat): (r: seq<nat>)
    ensures |r| == |s| + 1 && multiset(r) == multiset(s) + multiset{v}
  {
    if s == [] then [v]
    else if v <= s[0] then [v] + s
    else
      assert s == [s[0]] + s[1..];
      [s[0]] + Inserted(s[1..], v)
  }

  function Sort(s: seq<nat>): (r: seq<nat>)
    ensures |r| == |s| && multiset(r) == multiset(s)
  {
    if s == [] then []
    else
      assert s == s[..|s| - 1] + [s[|s| - 1]];
      Inserted(Sort(s[..|s| - 1]), s[|s| - 1])
  }

  lemma {:induction false} InsertedIncreasing(s: seq<nat>, v: nat)
    requires Increasing(s) && v !in s
    ensures Increasing(Inserted(s, v))
    ensures s != [] ==> Inserted(s, v)[0] == if v < s[0] then v else s[0]
  {
    if s != [] && v > s[0] {
      InsertedIncreasing(s[1..], v);
      var r := Inserted(s[1..], v);
      forall i | 0 <= i < |r|
        ensures s[0] < r[i]
      {
        if i == 0 {
          if s[1..] != [] { assert s[1..][0] == s[1]; }
        } else {
          assert r[0] < r[i];
          if s[1..] != [] { assert s[1..][0] == s[1]; }
        }
      }
    }
  }

  lemma {:induction false} SortIncreasing(s: seq<nat>, m: nat)
    requires Distinct(s, m)
    ensures Increasing(Sort(s)) && forall v :: v in Sort(s) <==> v in s
  {
    if s != [] {
      var k := |s| - 1;
      SortIncreasing(s[..k], m);
      forall v | v in s[..k]
        ensures v != s[k]
      {
      }
      InsertedIncreasing(Sort(s[..k]), s[k]);
    }
    forall v
      ensures v in Sort(s) <==> v in s
    {
      assert v in Sort(s) <==> v in multiset(Sort(s));
      assert v in s <==> v in multiset(s);
    }
  }

  // ---- the whole expansion -------------------------------------------------

  datatype Trail = Trail(values: seq<nat>, at: nat)

  /** The first k draws, and where the stream stands after them. */
  function DrawsFrom(f: nat -> Byte, m: nat, k: nat, tries: nat): (r: Option<Trail>)
    requires k <= m <= WORDS
    ensures r.Some? ==> |r.value.values| == k && Draws(r.value.values, m)
    decreases k
  {
    if k == 0 then Some(Trail([], 0))
    else
      var prev := DrawsFrom(f, m, k - 1, tries);
      if prev.None? then None
      else
        var d := Below(f, prev.value.at, m - (k - 1), tries);
        if d.None? then None else Some(Trail(prev.value.values + [k - 1 + d.value.value], d.value.at))
  }

  function PartiesFrom(f: nat -> Byte, at: nat, n: nat, k: nat, tries: nat): (r: Option<Trail>)
    requires n > 0
    ensures r.Some? ==> |r.value.values| == k && forall i :: 0 <= i < k ==> r.value.values[i] < n
    decreases k
  {
    if k == 0 then Some(Trail([], at))
    else
      var prev := PartiesFrom(f, at, n, k - 1, tries);
      if prev.None? then None
      else
        var d := ByteBelow(f, prev.value.at, n, tries);
        if d.None? then None else Some(Trail(prev.value.values + [d.value.value], d.value.at))
  }

  /** The challenge read off a stream, if no sample takes more than `tries` attempts. */
  function Expand(p: Params, f: nat -> Byte, tries: nat): Option<Challenge>
    requires p.Ok() && p.m <= WORDS
  {
    var ds := DrawsFrom(f, p.m, p.tau, tries);
    if ds.None? then None
    else
      var ps := PartiesFrom(f, ds.value.at, p.n, p.tau, tries);
      if ps.None? then None
      else Some(Challenge(Sort(Selection(ds.value.values, p.m)), ps.value.values))
  }

  /** Whatever is drawn: tau strictly increasing instances below M, and a party below N for each. */
  lemma ExpandGood(p: Params, f: nat -> Byte, tries: nat)
    requires p.Ok() && p.m <= WORDS && Expand(p, f, tries).Some?
    ensures GoodChallenge(p, Expand(p, f, tries).value)
  {
    hide Shuffled, Sort;
    var ds := DrawsFrom(f, p.m, p.tau, tries).value.values;
    ShuffledPermutes(ds, p.m);
    var sel := Selection(ds, p.m);
    assert Distinct(sel, p.m);
    SortIncreasing(sel, p.m);
    var picks := Sort(sel);
    forall k | 0 <= k < |picks|
      ensures picks[k] < p.m
    {
      assert picks[k] in sel;
    }
  }

  lemma {:induction false} BelowStable(f: nat -> Byte, at: nat, bound: nat, t: nat, u: nat)
    requires 0 < bound <= WORDS && t <= u && Below(f, at, bound, t).Some?
    ensures Below(f, at, bound, u) == Below(f, at, bound, t)
    decreases t
  {
    if WordAt(f, at) >= Limit(bound) { BelowStable(f, at + 4, bound, t - 1, u - 1); }
  }

  lemma {:induction false} ByteBelowStable(f: nat -> Byte, at: nat, n: nat, t: nat, u: nat)
    requires n > 0 && t <= u && ByteBelow(f, at, n, t).Some?
    ensures ByteBelow(f, at, n, u) == ByteBelow(f, at, n, t)
    decreases t
  {
    if ToNat(f(at)) >= n * (256 / n) { ByteBelowStable(f, at + 1, n, t - 1, u - 1); }
  }

  lemma {:induction false} DrawsStable(f: nat -> Byte, m: nat, k: nat, t: nat, u: nat)
    requires k <= m <= WORDS && t <= u && DrawsFrom(f, m, k, t).Some?
    ensures DrawsFrom(f, m, k, u) == DrawsFrom(f, m, k, t)
    decreases k
  {
    hide Below;
    if k > 0 {
      DrawsStable(f, m, k - 1, t, u);
      BelowStable(f, DrawsFrom(f, m, k - 1, t).value.at, m - (k - 1), t, u);
    }
  }

  lemma {:induction false} PartiesStable(f: nat -> Byte, at: nat, n: nat, k: nat, t: nat, u: nat)
    requires n > 0 && t <= u && PartiesFrom(f, at, n, k, t).Some?
    ensures PartiesFrom(f, at, n, k, u) == PartiesFrom(f, at, n, k, t)
    decreases k
  {
    hide ByteBelow;
    if k > 0 {
      PartiesStable(f, at, n, k - 1, t, u);
      ByteBelowStable(f, PartiesFrom(f, at, n, k - 1, t).value.at, n, t, u);
    }
  }

  /** Allowing more attempts never changes a challenge that was found: the bound only decides whether the
      sampling is followed to its end. */
  lemma ExpandStable(p: Params, f: nat -> Byte, t: nat, u: nat)
    requires p.Ok() && p.m <= WORDS && t <= u && Expand(p, f, t).Some?
    ensures Expand(p, f, u) == Expand(p, f, t)
  {
    hide DrawsFrom, PartiesFrom, Selection, Sort;
    DrawsStable(f, p.m, p.tau, t, u);
    PartiesStable(f, DrawsFrom(f, p.m, p.tau, t).value.at, p.n, p.tau, t, u);
  }

  /** The stream of a seed: hash blocks under a 32-bit counter. */
  function StreamOf(block: (D32, Word) -> D32, seed: D32): nat -> Byte
  {
    (n: nat) => block(seed, Word32(n / 32))[n % 32]
  }

  /** The expansion the protocol uses: the challenge its unbounded sampling ends with, if it ends. */
  ghost function Expansion(p: Params, block: (D32, Word) -> D32, seed: D32): (c: Option<Challenge>)
    requires p.Ok() && p.m <= WORDS
  {
    if t: nat :| Expand(p, StreamOf(block, seed), t).Some? then Expand(p, StreamOf(block, seed), t) else None
  }

  /** It meets what the protocol demands of its challenge function, and is the challenge that any large
      enough bound finds. */
  lemma ExpansionGood(p: Params, block: (D32, Word) -> D32, seed: D32, t: nat)
    requires p.Ok() && p.m <= WORDS
    ensures Expansion(p, block, seed).Some? ==> GoodChallenge(p, Expansion(p, block, seed).value)
    ensures Expand(p, StreamOf(block, seed), t).Some? ==> Expansion(p, block, seed) == Expand(p, StreamOf(block, seed), t)
  {
    hide Expand;
    var f := StreamOf(block, seed);
    if u: nat :| Expand(p, f, u).Some? && Expansion(p, block, seed) == Expand(p, f, u) {
      ExpandGood(p, f, u);
      if Expand(p, f, t).Some? {
        if t <= u { ExpandStable(p, f, t, u); } else { ExpandStable(p, f, u, t); }
      }
    }
  }

  // ---- the generator and the loops -----------------------------------------

  class Prg {
    const block: (D32, Word) -> D32
    const state: D32
    var ctr: nat
    var buf: D32
    var pos: nat

    predicate Valid()
      reads this
    {
      ctr > 0 && pos <= 32 && buf == block(state, Word32(ctr - 1))
    }

    /** Bytes of the stream consumed so far. */
    function At(): nat
      requires Valid()
      reads this
    {
      32 * (ctr - 1) + pos
    }

    constructor (block: (D32, Word) -> D32, seed: D32)
      ensures Valid() && At() == 0 && this.block == block && this.state == seed
    {
      hide Word32;
      this.block, this.state := block, seed;
      this.buf, this.ctr, this.pos := block(seed, Word32(0)), 1, 0;
    }

    method NextByte() returns (b: Byte)
      requires Valid()
      modifies this
      ensures Valid() && At() == old(At()) + 1 && b == StreamOf(block, state)(old(At()))
    {
      hide Word32;
      ghost var n := At();
      if pos >= 32 {
        buf := block(state, Word32(ctr));
        ctr := ctr + 1;
        pos := 0;
      }
      assert n == 32 * (ctr - 1) + pos;
      assert n / 32 == ctr - 1 && n % 32 == pos;
      b := buf[pos];
      pos := pos + 1;
    }

    method U32() returns (v: nat)
      requires Valid()
      modifies this
      ensures Valid() && At() == old(At()) + 4 && v == WordAt(StreamOf(block, state), old(At()))
    {
      hide ToNat, StreamOf;
      v := 0;
      ghost var f, at := StreamOf(block, state), At();
      var b0 := NextByte();
      var b1 := NextByte();
      var b2 := NextByte();
      var b3 := NextByte();
      v := ((ToNat(b0) * 256 + ToNat(b1)) * 256 + ToNat(b2)) * 256 + ToNat(b3);
    }

    method Sample(bound: nat, tries: nat) returns (v: Option<nat>)
      requires Valid() && 0 < bound <= WORDS
      modifies this
      ensures Valid()
      ensures var d := Below(StreamOf(block, state), old(At()), bound, tries);
              (v.Some? <==> d.Some?) && (v.Some? ==> v.value == d.value.value && At() == d.value.at)
    {
      hide ToNat, StreamOf, WordAt, Limit;
      ghost var f := StreamOf(block, state);
      for t := 0 to tries
        invariant Valid() && Below(f, old(At()), bound, tries) == Below(f, At(), bound, tries - t)
      {
        var r := U32();
        if r < Limit(bound) {
          return Some(r % bound);
        }
      }
      v := None;
    }

    method SampleByte(n: nat, tries: nat) returns (v: Option<nat>)
      requires Valid() && n > 0
      modifies this
      ensures Valid()
      ensures var d := ByteBelow(StreamOf(block, state), old(At()), n, tries);
              (v.Some? <==> d.Some?) && (v.Some? ==> v.value == d.value.value && At() == d.value.at)
    {
      hide ToNat, StreamOf;
      ghost var f := StreamOf(block, state);
      for t := 0 to tries
        invariant Valid() && ByteBelow(f, old(At()), n, tries) == ByteBelow(f, At(), n, tries - t)
      {
        var b := NextByte();
        if ToNat(b) < n * (256 / n) {
          return Some(ToNat(b) % n);
        }
      }
      v := None;
    }
  }

  /** The partial Fisher-Yates shuffle, swapping in place. */
  method ShuffleInPlace(g: Prg, arr: array<nat>, tau: nat, tries: nat) returns (ok: bool)
    requires g.Valid() && g.At() == 0 && arr[..] == Identity(arr.Length) && tau <= arr.Length <= WORDS
    modifies g, arr
    ensures g.Valid()
    ensures var ds := DrawsFrom(StreamOf(g.block, g.state), arr.Length, tau, tries);
            (ok <==> ds.Some?) && (ok ==> arr[..] == Shuffled(ds.value.values, arr.Length) && g.At() == ds.value.at)
  {
    hide StreamOf, Below, DrawsFrom, Shuffled;
    ghost var f := StreamOf(g.block, g.state);
    ghost var m := arr.Length;
    DrawsNone(f, m, tries);
    ghost var ds: seq<nat> := [];
    for i := 0 to tau
      invariant g.Valid() && |ds| == i && Draws(ds, m)
      invariant DrawsFrom(f, m, i, tries) == Some(Trail(ds, g.At())) && arr[..] == Shuffled(ds, m)
    {
      DrawsStep(f, m, i, tries);
      var v := g.Sample(arr.Length - i, tries);
      if v.None? {
        DrawsFail(f, m, i + 1, tau, tries);
        return false;
      }
      var j := i + v.value;
      ghost var es := ds + [j];
      ShuffledStep(ds, j, m);
      arr[i], arr[j] := arr[j], arr[i];
      ds := es;
    }
    ok := true;
  }

  lemma DrawsNone(f: nat -> Byte, m: nat, tries: nat)
    requires m <= WORDS
    ensures DrawsFrom(f, m, 0, tries) == Some(Trail([], 0)) && Shuffled([], m) == Identity(m)
  {
  }

  lemma DrawsStep(f: nat -> Byte, m: nat, i: nat, tries: nat)
    requires i < m <= WORDS && DrawsFrom(f, m, i, tries).Some?
    ensures var prev := DrawsFrom(f, m, i, tries).value;
            var d := Below(f, prev.at, m - i, tries);
            DrawsFrom(f, m, i + 1, tries) == if d.None? then None else Some(Trail(prev.values + [i + d.value.value], d.value.at))
  {
    hide Below;
  }

  lemma ShuffledStep(ds: seq<nat>, j: nat, m: nat)
    requires Draws(ds, m) && |ds| <= j < m
    ensures Draws(ds + [j], m) && Shuffled(ds + [j], m) == Swap(Shuffled(ds, m), |ds|, j)
  {
    assert (ds + [j])[..|ds|] == ds;
  }

  lemma {:induction false} DrawsFail(f: nat -> Byte, m: nat, k: nat, n: nat, tries: nat)
    requires k <= n <= m <= WORDS && DrawsFrom(f, m, k, tries).None?
    ensures DrawsFrom(f, m, n, tries).None?
    decreases n
  {
    hide Below;
    if k < n { DrawsFail(f, m, k, n - 1, tries); }
  }

  lemma {:induction false} PartiesFail(f: nat -> Byte, at: nat, p: nat, k: nat, n: nat, tries: nat)
    requires p > 0 && k <= n && PartiesFrom(f, at, p, k, tries).None?
    ensures PartiesFrom(f, at, p, n, tries).None?
    decreases n
  {
    hide ByteBelow;
    if k < n { PartiesFail(f, at, p, k, n - 1, tries); }
  }

  /** The hidden party of each opened instance. */
  method SampleParties(g: Prg, n: nat, tau: nat, tries: nat) returns (ps: Option<seq<nat>>)
    requires g.Valid() && n > 0
    modifies g
    ensures var r := PartiesFrom(StreamOf(g.block, g.state), old(g.At()), n, tau, tries);
            (ps.Some? <==> r.Some?) && (ps.Some? ==> ps.value == r.value.values)
  {
    hide StreamOf, ByteBelow;
    ghost var f, at := StreamOf(g.block, g.state), g.At();
    var parties: seq<nat> := [];
    for k := 0 to tau
      invariant g.Valid() && PartiesFrom(f, at, n, k, tries) == Some(Trail(parties, g.At()))
    {
      var v := g.SampleByte(n, tries);
      if v.None? {
        PartiesFail(f, at, n, k + 1, tau, tries);
        return None;
      }
      parties := parties + [v.value];
    }
    ps := Some(parties);
  }

  method FsExpand(p: Params, block: (D32, Word) -> D32, seed: D32, tries: nat) returns (c: Option<Challenge>)
    requires p.Ok() && p.m <= WORDS
    ensures c == Expand(p, StreamOf(block, seed), tries)
  {
    hide StreamOf, DrawsFrom, Shuffled, Sort, PartiesFrom;
    var g := new Prg(block, seed);
    var arr := new nat[p.m](i => i);
    assert arr[..] == Identity(p.m);
    var ok := ShuffleInPlace(g, arr, p.tau, tries);
    if !ok { return None; }
    var picks := Sort(arr[..p.tau]);
    var ps := SampleParties(g, p.n, p.tau, tries);
    c := if ps.None? then None else Some(Challenge(picks, ps.value));
  }
}
