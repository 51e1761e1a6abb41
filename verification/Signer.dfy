/** The stateful signer: reserve a leaf, persist the advanced key, and only then sign and release. */
module Signer {
  import opened Wrappers
  import opened Words
  import opened Tree

  datatype SecretKey = SecretKey(height: nat, nextLeaf: nat)

  /** validate_key. */
  predicate ValidKey(k: SecretKey)
  {
    1 <= k.height <= 32 && k.nextLeaf <= Pow2(k.height)
  }

  /** What becomes of the call to persist: there is none, it throws before or after the key reached stable
      storage, or it returns. */
  datatype Persist = NotSupplied | ThrewBefore | ThrewAfter | Saved

  datatype Result = Exhausted | PersistFailed | SigningFailed | Released(leaf: nat)

  // ---- one process ---------------------------------------------------------

  /** Stable storage holds the last key that reached it. */
  class Storage {
    var saved: SecretKey

    constructor (k: SecretKey)
      ensures saved == k
    {
      saved := k;
    }
  }

  class SignerProcess {
    var key: SecretKey

    /** Takes valid keys only: Load is how a process comes to be. */
    constructor (k: SecretKey)
      requires ValidKey(k)
      ensures key == k
    {
      key := k;
    }

    /** Signer::sign. The tree's own signing may fail; the leaf is then spent all the same. So it is when persist
        throws, and then nothing is released. */
    method Sign(store: Storage, persist: Persist, treeSigns: bool) returns (r: Result)
      requires ValidKey(key)
      modifies this, store
      ensures ValidKey(key) && key.height == old(key.height)
      ensures (r, key.nextLeaf, store.saved) == SignStep(old(key), old(store.saved), persist, treeSigns)
      ensures r.Exhausted? <==> old(key.nextLeaf) == Pow2(old(key.height))
      ensures key.nextLeaf == if r.Exhausted? then old(key.nextLeaf) else old(key.nextLeaf) + 1
      ensures !r.Exhausted? && (persist.ThrewBefore? || persist.ThrewAfter?) ==> r == PersistFailed
      ensures r.Released? ==> r.leaf == old(key.nextLeaf) && treeSigns && (persist.Saved? ==> store.saved == key)
      ensures persist.NotSupplied? || persist.ThrewBefore? || r.Exhausted? ==> store.saved == old(store.saved)
    {
      if key.nextLeaf == Pow2(key.height) { return Exhausted; }
      var leaf := key.nextLeaf;
      key := key.(nextLeaf := leaf + 1);
      match persist {
        case NotSupplied =>
        case ThrewBefore => return PersistFailed;
        case ThrewAfter =>
          store.saved := key;
          return PersistFailed;
        case Saved =>
          store.saved := key;
      }
      if !treeSigns { return SigningFailed; }
      r := Released(leaf);
    }
  }

  /** The key a process started from storage holds; a stored key that is not valid starts none. */
  function Loaded(saved: SecretKey): Option<SecretKey>
  {
    if ValidKey(saved) then Some(saved) else None
  }

  method Load(store: Storage) returns (p: SignerProcess?)
    ensures p == null <==> Loaded(store.saved).None?
    ensures p != null ==> fresh(p) && Some(p.key) == Loaded(store.saved)
  {
    if !ValidKey(store.saved) { return null; }
    p := new SignerProcess(store.saved);
  }

  /** Result, next leaf in memory, and stored key after one call. */
  function SignStep(k: SecretKey, saved: SecretKey, persist: Persist, treeSigns: bool): (Result, nat, SecretKey)
  {
    if k.nextLeaf == Pow2(k.height) then (Exhausted, k.nextLeaf, saved)
    else
      var k' := k.(nextLeaf := k.nextLeaf + 1);
      var saved' := if persist.ThrewAfter? || persist.Saved? then k' else saved;
      var r := if persist.ThrewBefore? || persist.ThrewAfter? then PersistFailed
               else if treeSigns then Released(k.nextLeaf)
               else SigningFailed;
      (r, k'.nextLeaf, saved')
  }

  // ---- runs ----------------------------------------------------------------

  /** The process in memory if one is running, stable storage, and all leaves ever released. */
  datatype World = World(memory: Option<SecretKey>, saved: SecretKey, released: seq<nat>)

  datatype Event = Sign(persist: Persist, treeSigns: bool) | Crash | Start

  function Step(w: World, e: Event): World
  {
    match e
    case Crash => w.(memory := None)
    case Start => if Loaded(w.saved).Some? then w.(memory := Loaded(w.saved)) else w
    case Sign(persist, treeSigns) =>
      if w.memory.None? then w
      else
        var (r, next, saved) := SignStep(w.memory.value, w.saved, persist, treeSigns);
        World(Some(w.memory.value.(nextLeaf := next)), saved, if r.Released? then w.released + [r.leaf] else w.released)
  }

  function Run(w: World, es: seq<Event>): World
  {
    if es == [] then w else Step(Run(w, es[..|es| - 1]), es[|es| - 1])
  }

  function Fresh(height: nat): World
  {
    World(None, SecretKey(height, 0), [])
  }

  predicate Persisted(es: seq<Event>)
  {
    forall i :: 0 <= i < |es| && es[i].Sign? ==> !es[i].persist.NotSupplied?
  }

  /** Everything released lies below what is stored, and memory is never behind storage. */
  predicate Safe(w: World, height: nat)
  {
    && ValidKey(w.saved) && w.saved.height == height
    && (w.memory.Some? ==> ValidKey(w.memory.value) && w.memory.value.height == height && w.saved.nextLeaf <= w.memory.value.nextLeaf)
    && (forall i :: 0 <= i < |w.released| ==> w.released[i] < w.saved.nextLeaf)
    && (forall i, j :: 0 <= i < j < |w.released| ==> w.released[i] < w.released[j])
  }

  lemma StepSafe(w: World, e: Event, height: nat)
    requires Safe(w, height) && (e.Sign? ==> !e.persist.NotSupplied?)
    ensures Safe(Step(w, e), height)
  {
  }

  lemma {:induction false} RunSafe(w: World, es: seq<Event>, height: nat)
    requires Safe(w, height) && Persisted(es)
    ensures Safe(Run(w, es), height)
  {
    if es != [] {
      RunSafe(w, es[..|es| - 1], height);
      StepSafe(Run(w, es[..|es| - 1]), es[|es| - 1], height);
    }
  }

  /** Leaf uniqueness: with persist supplied, in any interleaving of signing, persist failures, signing
      failures, crashes and restarts from storage, no leaf is released twice and all exist in the tree. */
  lemma LeavesUnique(height: nat, es: seq<Event>)
    requires 1 <= height <= 32 && Persisted(es)
    ensures var released := Run(Fresh(height), es).released;
            && (forall i, j :: 0 <= i < j < |released| ==> released[i] != released[j])
            && (forall i :: 0 <= i < |released| ==> released[i] < Pow2(height))
  {
    RunSafe(Fresh(height), es, height);
  }

  // ---- persist is needed ---------------------------------------------------

  predicate Repeats(s: seq<nat>)
  {
    exists i, j :: 0 <= i < j < |s| && s[i] == s[j]
  }

  /** Crash, restart, and sign n + 1 times. */
  function Replay(n: nat): (es: seq<Event>)
    ensures |es| == n + 3
  {
    if n == 0 then [Crash, Start, Sign(Saved, true)] else Replay(n - 1) + [Sign(Saved, true)]
  }

  lemma {:induction false} ReplayReleases(w: World, height: nat, n: nat)
    requires ValidKey(w.saved) && w.saved.height == height && w.saved.nextLeaf + n < Pow2(height)
    ensures var v := Run(w, Replay(n));
            && v.memory == Some(SecretKey(height, w.saved.nextLeaf + n + 1)) && v.saved == SecretKey(height, w.saved.nextLeaf + n + 1)
            && w.released <= v.released && |v.released| > |w.released|
            && v.released[|v.released| - 1] == w.saved.nextLeaf + n
  {
    hide Pow2, Step, Run;
    if n == 0 {
      StartSigns(w, height);
      RunSnoc(w, [], Crash);
      RunSnoc(w, [Crash], Start);
      RunSnoc(w, [Crash, Start], Sign(Saved, true));
      assert [] + [Crash] == [Crash] && [Crash] + [Start] == [Crash, Start] && [Crash, Start] + [Sign(Saved, true)] == Replay(0);
    } else {
      ReplayReleases(w, height, n - 1);
      RunSnoc(w, Replay(n - 1), Sign(Saved, true));
      SignsNext(Run(w, Replay(n - 1)), height);
    }
  }

  lemma RunSnoc(w: World, es: seq<Event>, e: Event)
    ensures Run(w, []) == w && Run(w, es + [e]) == Step(Run(w, es), e)
  {
    assert (es + [e])[..|es|] == es;
  }

  lemma SignsNext(v: World, height: nat)
    requires v.memory.Some? && v.memory.value.height == height && v.memory.value.nextLeaf != Pow2(height)
    ensures var next := SecretKey(height, v.memory.value.nextLeaf + 1);
            Step(v, Sign(Saved, true)) == World(Some(next), next, v.released + [v.memory.value.nextLeaf])
  {
  }

  lemma StartSigns(w: World, height: nat)
    requires ValidKey(w.saved) && w.saved.height == height && w.saved.nextLeaf != Pow2(height)
    ensures var next := SecretKey(height, w.saved.nextLeaf + 1);
            Step(Step(Step(w, Crash), Start), Sign(Saved, true)) == World(Some(next), next, w.released + [w.saved.nextLeaf])
  {
  }

  lemma {:induction false} RunAppend(w: World, a: seq<Event>, b: seq<Event>)
    ensures Run(w, a + b) == Run(Run(w, a), b)
    decreases |b|
  {
    if b == [] {
      assert a + b == a;
    } else {
      RunAppend(w, a, b[..|b| - 1]);
      assert (a + b)[..|a + b| - 1] == a + b[..|b| - 1];
    }
  }

  /** And persist is what makes it so: after any run with persist supplied, one signature released without
      it can be followed by a crash and a restart that release the same leaf again. */
  lemma UnpersistedRepeats(height: nat, es: seq<Event>)
    requires 1 <= height <= 32 && Persisted(es)
    requires Run(Fresh(height), es).memory.Some? && Run(Fresh(height), es).memory.value.nextLeaf < Pow2(height)
    ensures exists more: seq<Event> :: Persisted(more) && Repeats(Run(Fresh(height), es + [Sign(NotSupplied, true)] + more).released)
  {
    hide Run, Pow2, Replay, Step;
    var w := Run(Fresh(height), es);
    var e := Sign(NotSupplied, true);
    var leaf := w.memory.value.nextLeaf;
    var v := Run(Fresh(height), es + [e]);
    UnpersistedStep(height, es);
    var n := leaf - v.saved.nextLeaf;
    ReplayReleases(v, height, n);
    RunAppend(Fresh(height), es + [e], Replay(n));
    ReplayPersisted(n);
    var u := Run(v, Replay(n)).released;
    assert u[|w.released|] == leaf && u[|u| - 1] == leaf && |w.released| < |u| - 1;
    assert Repeats(Run(Fresh(height), es + [e] + Replay(n)).released);
  }

  lemma UnpersistedStep(height: nat, es: seq<Event>)
    requires 1 <= height <= 32 && Persisted(es)
    requires Run(Fresh(height), es).memory.Some? && Run(Fresh(height), es).memory.value.nextLeaf < Pow2(height)
    ensures var w, v := Run(Fresh(height), es), Run(Fresh(height), es + [Sign(NotSupplied, true)]);
            && v.released == w.released + [w.memory.value.nextLeaf] && v.saved == w.saved
            && ValidKey(v.saved) && v.saved.height == height && v.saved.nextLeaf <= w.memory.value.nextLeaf
  {
    hide Pow2;
    RunSafe(Fresh(height), es, height);
    var e := Sign(NotSupplied, true);
    assert (es + [e])[..|es|] == es;
  }

  /** Every call comes with an outcome of persist from the given ones. */
  predicate Uses(es: seq<Event>, allowed: set<Persist>)
  {
    forall i :: 0 <= i < |es| && es[i].Sign? ==> es[i].persist in allowed
  }

  /** Start, release a leaf without persist, crash, and do it again. */
  function TwiceUnpersisted(): seq<Event>
  {
    [Start, Sign(NotSupplied, true), Crash, Start, Sign(NotSupplied, true)]
  }

  /** One round of it from stable storage at leaf 0. */
  lemma UnpersistedRound(w: World, height: nat)
    requires 1 <= height <= 32 && w.saved == SecretKey(height, 0)
    ensures var v := Run(w, [Start, Sign(NotSupplied, true)]);
            v.saved == w.saved && v.released == w.released + [0]
  {
    hide Run, Step, Pow2;
    RunSnoc(w, [], Start);
    RunSnoc(w, [Start], Sign(NotSupplied, true));
    assert [] + [Start] == [Start] && [Start] + [Sign(NotSupplied, true)] == [Start, Sign(NotSupplied, true)];
    StartUnpersisted(w, height);
  }

  lemma StartUnpersisted(w: World, height: nat)
    requires 1 <= height <= 32 && w.saved == SecretKey(height, 0)
    ensures var v := Step(Step(w, Start), Sign(NotSupplied, true));
            v.saved == w.saved && v.released == w.released + [0]
  {
    assert Pow2(height) >= 1;
  }

  lemma TwiceReleases(height: nat)
    requires 1 <= height <= 32
    ensures Run(Fresh(height), TwiceUnpersisted()).released == [0, 0]
  {
    hide Run;
    var w, once := Fresh(height), [Start, Sign(NotSupplied, true)];
    UnpersistedRound(w, height);
    RunSnoc(w, once, Crash);
    RunAppend(w, once + [Crash], once);
    UnpersistedRound(Run(w, once + [Crash]), height);
    assert once + [Crash] + once == TwiceUnpersisted();
  }

  /** Exactly when leaves are unique: whatever outcomes of persist a deployment can see, no run of any length
      releases a leaf twice iff an empty persist is not among them. */
  lemma UniqueIffPersisted(height: nat, allowed: set<Persist>)
    requires 1 <= height <= 32
    ensures (forall es: seq<Event> :: Uses(es, allowed) ==> !Repeats(Run(Fresh(height), es).released)) <==> NotSupplied !in allowed
  {
    if NotSupplied in allowed {
      var es := TwiceUnpersisted();
      TwiceReleases(height);
      var released := Run(Fresh(height), es).released;
      assert released[0] == released[1];
      assert Uses(es, allowed) && Repeats(released);
    } else {
      forall es: seq<Event> | Uses(es, allowed)
        ensures !Repeats(Run(Fresh(height), es).released)
      {
        LeavesUnique(height, es);
      }
    }
  }

  /** And call by call: a released signature keeps every later persisted run free of repeats iff its own call
      had persist supplied. */
  lemma CallIsSafe(height: nat, es: seq<Event>, p: Persist)
    requires 1 <= height <= 32 && Persisted(es)
    requires Run(Fresh(height), es).memory.Some? && Run(Fresh(height), es).memory.value.nextLeaf < Pow2(height)
    ensures (forall more: seq<Event> :: Persisted(more) ==> !Repeats(Run(Fresh(height), es + [Sign(p, true)] + more).released))
            <==> !p.NotSupplied?
  {
    if p.NotSupplied? {
      UnpersistedRepeats(height, es);
    } else {
      forall more: seq<Event> | Persisted(more)
        ensures !Repeats(Run(Fresh(height), es + [Sign(p, true)] + more).released)
      {
        LeavesUnique(height, es + [Sign(p, true)] + more);
      }
    }
  }

  lemma {:induction false} ReplayPersisted(n: nat)
    ensures Persisted(Replay(n))
  {
    if n > 0 { ReplayPersisted(n - 1); }
  }
}
