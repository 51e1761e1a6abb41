/** Building circuits: a net is a gate list under construction, and a gadget takes a net to a longer one and
    names the wires it made. Each gadget X comes as a function XNet, the gates it adds; a lemma XIs, what its
    wires carry on every input; and where the program has a loop, a method EmitX that builds XNet with it. */
module Builder {
  import opened Words
  import opened Sharing
  import opened Engine

  /** A byte as the word that carries it. */
  function Ext(b: Byte): (w: Word)
    ensures forall i :: 0 <= i < 32 ==> w[i] == (i < 8 && b[i])
  {
    b + Zeros(24)
  }

  function ExtAll(w: seq<Byte>): (r: seq<Word>)
    ensures |r| == |w| && forall i :: 0 <= i < |w| ==> r[i] == Ext(w[i])
  {
    seq(|w|, i requires 0 <= i < |w| => Ext(w[i]))
  }

  // ---- what wires carry ----------------------------------------------------

  predicate Is(vs: seq<Word>, id: nat, w: Word)
  {
    id < |vs| && vs[id] == w
  }

  predicate AreWords(vs: seq<Word>, ids: seq<nat>, ws: seq<Word>)
  {
    |ids| == |ws| && forall i :: 0 <= i < |ids| ==> Is(vs, ids[i], ws[i])
  }

  predicate Carries(vs: seq<Word>, ids: seq<nat>, bytes: seq<Byte>)
  {
    |ids| == |bytes| && forall i :: 0 <= i < |ids| ==> Is(vs, ids[i], Ext(bytes[i]))
  }

  predicate Within(ids: seq<nat>, n: nat)
  {
    forall i :: 0 <= i < |ids| ==> ids[i] < n
  }

  function Vals(vs: seq<Word>, ids: seq<nat>): (r: seq<Word>)
    requires Within(ids, |vs|)
    ensures |r| == |ids| && forall i :: 0 <= i < |ids| ==> r[i] == vs[ids[i]]
  {
    seq(|ids|, i requires 0 <= i < |ids| => vs[ids[i]])
  }

  // ---- nets ----------------------------------------------------------------

  datatype Net = Net(inputs: nat, gates: Program)
  {
    /** One more gate: its wire is the next one. */
    function Put(g: Gate): Wired { Wired(Net(inputs, gates + [g]), inputs + |gates|) }

    function And(x: nat, y: nat): Wired { Put(AndGate(x, y)) }
    function Add(x: nat, y: nat): Wired { Put(AddGate(x, y)) }
    function Xor(x: nat, y: nat): Wired { Put(XorGate(x, y)) }
    function XorConst(x: nat, k: Word): Wired { Put(XorConstGate(x, k)) }
    function Const(k: Word): Wired { Put(ConstGate(k)) }
    function Map(op: Linear, x: nat): Wired { Put(LinearGate(op, x)) }
  }

  datatype Wired = Wired(net: Net, id: nat)
  datatype Bundle = Bundle(net: Net, ids: seq<nat>)

  predicate Ready(n: Net, env: seq<Word>)
  {
    |env| == n.inputs && Legal(n.gates, n.inputs)
  }

  /** The values of all wires on the given inputs. */
  function On(n: Net, env: seq<Word>): (vs: seq<Word>)
    requires Ready(n, env)
  {
    PlainRun(n.gates, env)
  }

  /** On env, n' continues n: the wires so far keep their values, and k gates more cost tape. */
  predicate Grows(n: Net, n': Net, env: seq<Word>, k: nat)
    requires Ready(n, env)
  {
    Ready(n', env) && On(n, env) <= On(n', env) && Cost(n'.gates) == Cost(n.gates) + k
  }

  /** The net grows by k non-linear gates to the new one, whose named wires carry the given values. */
  predicate MakesWord(n: Net, o: Wired, env: seq<Word>, k: nat, w: Word)
    requires Ready(n, env)
  {
    Grows(n, o.net, env, k) && Is(On(o.net, env), o.id, w)
  }

  predicate MakesWords(n: Net, o: Bundle, env: seq<Word>, k: nat, ws: seq<Word>)
    requires Ready(n, env)
  {
    Grows(n, o.net, env, k) && AreWords(On(o.net, env), o.ids, ws)
  }

  predicate MakesBytes(n: Net, o: Bundle, env: seq<Word>, k: nat, bytes: seq<Byte>)
    requires Ready(n, env)
  {
    Grows(n, o.net, env, k) && Carries(On(o.net, env), o.ids, bytes)
  }

  lemma PutIs(n: Net, g: Gate, env: seq<Word>)
    requires Ready(n, env) && g.Reads(|On(n, env)|)
    ensures var o := n.Put(g);
            && Grows(n, o.net, env, if g.NonLinear() then 1 else 0)
            && Is(On(o.net, env), o.id, PlainWire(g, On(n, env)))
  {
    hide PlainWire;
    var gs := n.gates + [g];
    assert gs[..|gs| - 1] == n.gates;
    assert Ready(n.Put(g).net, env);
  }

  lemma AndIs(n: Net, x: nat, y: nat, env: seq<Word>, a: Word, b: Word)
    requires Ready(n, env) && Is(On(n, env), x, a) && Is(On(n, env), y, b)
    ensures MakesWord(n, n.And(x, y), env, 1, Words.And(a, b))
  {
    hide Grows, On, Ready;
    PutIs(n, AndGate(x, y), env);
  }

  lemma AddIs(n: Net, x: nat, y: nat, env: seq<Word>, a: Word, b: Word)
    requires Ready(n, env) && Is(On(n, env), x, a) && Is(On(n, env), y, b)
    ensures MakesWord(n, n.Add(x, y), env, 1, Words.Add(a, b))
  {
    hide Grows, On, Ready;
    PutIs(n, AddGate(x, y), env);
  }

  lemma XorIs(n: Net, x: nat, y: nat, env: seq<Word>, a: Word, b: Word)
    requires Ready(n, env) && Is(On(n, env), x, a) && Is(On(n, env), y, b)
    ensures MakesWord(n, n.Xor(x, y), env, 0, Words.Xor(a, b))
  {
    hide Grows, On, Ready;
    PutIs(n, XorGate(x, y), env);
  }

  lemma XorConstIs(n: Net, x: nat, k: Word, env: seq<Word>, a: Word)
    requires Ready(n, env) && Is(On(n, env), x, a)
    ensures MakesWord(n, n.XorConst(x, k), env, 0, Words.Xor(a, k))
  {
    hide Grows, On, Ready;
    PutIs(n, XorConstGate(x, k), env);
  }

  lemma ConstIs(n: Net, k: Word, env: seq<Word>)
    requires Ready(n, env)
    ensures MakesWord(n, n.Const(k), env, 0, k)
  {
    hide Grows, On, Ready;
    PutIs(n, ConstGate(k), env);
  }

  lemma MapIs(n: Net, op: Linear, x: nat, env: seq<Word>, a: Word)
    requires Ready(n, env) && Is(On(n, env), x, a)
    ensures MakesWord(n, n.Map(op, x), env, 0, Apply(op, a))
  {
    hide Grows, On, Ready, Apply;
    PutIs(n, LinearGate(op, x), env);
  }

  // ---- keeping and joining -------------------------------------------------

  lemma WordsKept(a: seq<Word>, b: seq<Word>, ids: seq<nat>, ws: seq<Word>)
    requires a <= b && AreWords(a, ids, ws)
    ensures AreWords(b, ids, ws)
  {
  }

  lemma CarriesKept(a: seq<Word>, b: seq<Word>, ids: seq<nat>, bytes: seq<Byte>)
    requires a <= b && Carries(a, ids, bytes)
    ensures Carries(b, ids, bytes)
  {
    hide Ext;
  }

  lemma CarriesLength(vs: seq<Word>, ids: seq<nat>, bytes: seq<Byte>)
    requires Carries(vs, ids, bytes)
    ensures |ids| == |bytes|
  {
  }

  lemma CarriesSlice(vs: seq<Word>, ids: seq<nat>, bytes: seq<Byte>, lo: nat, hi: nat)
    requires Carries(vs, ids, bytes) && lo <= hi <= |ids|
    ensures Carries(vs, ids[lo..hi], bytes[lo..hi])
  {
    hide Ext;
  }

  lemma CarriesJoin(vs: seq<Word>, a: seq<nat>, b: seq<nat>, x: seq<Byte>, y: seq<Byte>)
    requires Carries(vs, a, x) && Carries(vs, b, y)
    ensures Carries(vs, a + b, x + y)
  {
    hide Ext;
  }

  lemma CarriesSnoc(vs: seq<Word>, ids: seq<nat>, bytes: seq<Byte>, id: nat, b: Byte)
    requires Carries(vs, ids, bytes) && Is(vs, id, Ext(b))
    ensures Carries(vs, ids + [id], bytes + [b])
  {
    hide Ext;
  }

  lemma NoWords(vs: seq<Word>)
    ensures AreWords(vs, [], []) && Carries(vs, [], [])
  {
  }

  lemma WordsSnoc(vs: seq<Word>, ids: seq<nat>, ws: seq<Word>, id: nat, w: Word)
    requires AreWords(vs, ids, ws) && Is(vs, id, w)
    ensures AreWords(vs, ids + [id], ws + [w])
  {
  }

  lemma OneWord(vs: seq<Word>, ids: seq<nat>, ws: seq<Word>, k: nat)
    requires AreWords(vs, ids, ws) && k < |ids|
    ensures k < |ws| && Is(vs, ids[k], ws[k])
  {
  }

  lemma WordsAre(vs: seq<Word>, ids: seq<nat>)
    requires Within(ids, |vs|)
    ensures AreWords(vs, ids, Vals(vs, ids))
  {
  }

  lemma AreVals(vs: seq<Word>, ids: seq<nat>, ws: seq<Word>)
    requires AreWords(vs, ids, ws)
    ensures Within(ids, |vs|) && Vals(vs, ids) == ws
  {
  }
}
