/** Downstream deletes that leave the object terminating: an object on its way from
    a target, up to the moment its copy is gone and after it
    (pkg/syncer/spec/spec_process.go, pkg/syncer/status/status_process.go). */
module TerminatingDeletes {
  import opened Kube
  import opened Finalizers
  import opened Syncer
  import opened Ownership
  import opened StaleReads
  import opened Iteration
  import opened Convergence
  import opened HeldObjects

  /** A step of one of the controllers, a spec step whose delete only begins, or the
      end of such a delete. */
  datatype Act = Takes(half: Half) | Begins | Vanishes

  /** A spec step whose delete, if it makes one, only begins. */
  ghost function Begun(s: Setting, w: World, t: Target, u: UpKey): (r: World)
    requires Sound(s) && Consistent(s, w) && t in s.confs
    ensures t in r.down
  {
    SpecKeepsTargets(s.confs[t], s.deps, w, u, FreshReads(w, t, u, DnsReady));
    Terminating(w, t, SpecOnce(s, w, t, u))
  }

  lemma SpecKeepsTargets(c: Conf, deps: Deps, w: World, u: UpKey, input: Reads)
    requires c.target in w.down
    ensures SpecStep(c, deps, w, u, input).world.down.Keys == w.down.Keys
  {
  }

  ghost predicate Acts(s: Setting, w: World, act: Act, w': World, t: Target, u: UpKey, n: string) {
    && Ready(s, w, t, u, n)
    && match act
       case Takes(half) => Convergence.Takes(s, w, half, w', t, u, n)
       case Begins => w' == Begun(s, w, t, u)
       case Vanishes => w' == SetDown(w, t, Remove(w.down[t], KeyOf(s, u, n)))
  }

  /** Acts in any order, and the states between them. */
  ghost predicate IsCourse(s: Setting, worlds: seq<World>, acts: seq<Act>, t: Target, u: UpKey, n: string) {
    && |worlds| == |acts| + 1
    && Ready(s, worlds[0], t, u, n)
    && forall i | 0 <= i < |acts| :: Acts(s, worlds[i], acts[i], worlds[i + 1], t, u, n)
  }

  /** The place of the copy is empty. */
  ghost predicate IsEmptied(s: Setting, w: World, t: Target, u: UpKey, n: string) {
    t in w.down && KeyOf(s, u, n) !in w.down[t].objects
  }

  // ----- one act -----

  lemma TerminatingIs(w: World, t: Target, r: World)
    requires t in w.down && t in r.down
    ensures var w' := Terminating(w, t, r);
            && w'.up == r.up && w'.down[t].namespaces == r.down[t].namespaces
            && (w' == r || w'.down[t].objects == w.down[t].objects)
            && (w' == r || exists k :: k in w.down[t].objects && k !in r.down[t].objects)
  {
  }

  /** A delete that only begins is a spec step that deletes nothing, or leaves
      objects and upstream store as they are. */
  lemma BeginsIs(s: Setting, w: World, t: Target, u: UpKey, n: string)
    requires Ready(s, w, t, u, n)
    ensures var w', r := Begun(s, w, t, u), SpecOnce(s, w, t, u);
            && t in r.down && w'.up == r.up && w'.down[t].namespaces == r.down[t].namespaces
            && (w' == r || (w'.up == w.up && w'.down[t].objects == w.down[t].objects))
  {
    ghost var r := SpecOnce(s, w, t, u);
    SpecKeepsTargets(s.confs[t], s.deps, w, u, FreshReads(w, t, u, DnsReady));
    TerminatingIs(w, t, r);
    if Begun(s, w, t, u) != r {
      var k :| k in w.down[t].objects && k !in r.down[t].objects;
      RemovalLeavesUpstream(s, w, t, u, k);
    }
  }

  lemma RemovalLeavesUpstream(s: Setting, w: World, t: Target, u: UpKey, k: DownKey)
    requires Sound(s) && Consistent(s, w) && t in s.confs && t in SpecOnce(s, w, t, u).down
    requires k in w.down[t].objects && k !in SpecOnce(s, w, t, u).down[t].objects
    ensures SpecOnce(s, w, t, u).up == w.up
  {
    var input := FreshReads(w, t, u, DnsReady);
    assert Removes(s, w, t, u, input, k);
    RemovalIsLocal(s, w, t, u, input, k);
  }

  lemma BeginsReady(s: Setting, w: World, t: Target, u: UpKey, n: string)
    requires Ready(s, w, t, u, n)
    ensures Ready(s, Begun(s, w, t, u), t, u, n)
  {
    var w' := Begun(s, w, t, u);
    BeginsIs(s, w, t, u, n);
    SpecDecreases(s, w, t, u, n);
    SpecTerminatingKeeps(s, w, t, u, DnsReady);
    assert w' == Next(s, w, SpecTerminating(t, u, DnsReady));
    ReadyDownstream(s, SpecOnce(s, w, t, u), t, u, n, w');
  }

  lemma VanishesReady(s: Setting, w: World, t: Target, u: UpKey, n: string)
    requires Ready(s, w, t, u, n)
    ensures Ready(s, SetDown(w, t, Remove(w.down[t], KeyOf(s, u, n))), t, u, n)
  {
    RemoveKeeps(s, w, t, KeyOf(s, u, n));
    ReadyDownstream(s, w, t, u, n, SetDown(w, t, Remove(w.down[t], KeyOf(s, u, n))));
  }

  lemma SameObjectsLeaving(w: World, w': World, t: Target, u: UpKey)
    requires t in w.down && t in w'.down && w'.up == w.up
    requires w'.down[t].objects.Items <= w.down[t].objects.Items
    ensures Gone(w, t, u) ==> Gone(w', t, u)
    ensures Leaving(w, t, u) ==> Leaving(w', t, u)
  {
    forall k | k in w'.down[t].objects ensures k in w.down[t].objects && w.down[t].objects[k] == w'.down[t].objects[k] {
      assert (k, w'.down[t].objects[k]) in w'.down[t].objects.Items;
    }
  }

  lemma VanishesLeaving(s: Setting, w: World, t: Target, u: UpKey, n: string)
    requires Ready(s, w, t, u, n) && Leaving(w, t, u)
    ensures var w' := SetDown(w, t, Remove(w.down[t], KeyOf(s, u, n)));
            Leaving(w', t, u) && (Gone(w, t, u) ==> Gone(w', t, u))
  {
    var d := w.down[t];
    assert Remove(d, KeyOf(s, u, n)).objects.Items <= d.objects.Items;
    SameObjectsLeaving(w, SetDown(w, t, Remove(d, KeyOf(s, u, n))), t, u);
  }

  lemma BeginsLeaving(s: Setting, w: World, t: Target, u: UpKey, n: string)
    requires Ready(s, w, t, u, n) && Leaving(w, t, u)
    ensures var w' := Begun(s, w, t, u);
            Leaving(w', t, u) && (Gone(w, t, u) ==> Gone(w', t, u))
  {
    var w' := Begun(s, w, t, u);
    BeginsIs(s, w, t, u, n);
    if w' == SpecOnce(s, w, t, u) {
      LeavingBySpec(s, w, t, u, n);
      if Gone(w, t, u) { GoneBySpec(s, w, t, u, n); }
    } else {
      SameObjectsLeaving(w, w', t, u);
    }
  }

  /** Whatever is leaving goes on leaving, and what is gone stays gone. */
  lemma ActKeeps(s: Setting, w: World, act: Act, w': World, t: Target, u: UpKey, n: string)
    requires Acts(s, w, act, w', t, u, n) && Leaving(w, t, u)
    ensures Ready(s, w', t, u, n) && Leaving(w', t, u) && (Gone(w, t, u) ==> Gone(w', t, u))
  {
    match act
    case Takes(half) =>
      TakesKeeps(s, w, half, w', t, u, n);
      if Gone(w, t, u) { GoneTakes(s, w, half, w', t, u, n); }
    case Begins =>
      BeginsReady(s, w, t, u, n);
      BeginsLeaving(s, w, t, u, n);
    case Vanishes =>
      VanishesReady(s, w, t, u, n);
      VanishesLeaving(s, w, t, u, n);
  }

  // ----- when the object is given up -----

  predicate IsSpecAct(act: Act) {
    act == Takes(SpecHalf) || act == Begins
  }

  /** A spec step that finds the place of the copy empty, or a status step that comes
      by its key and does not find it listed. */
  ghost predicate LetsGo(s: Setting, w: World, act: Act, t: Target, u: UpKey, n: string) {
    match act
    case Takes(half) => if half.SpecHalf? then IsEmptied(s, w, t, u, n) else t in w.down && LacksCopy(s, w, t, u, n)
    case Begins => IsEmptied(s, w, t, u, n)
    case Vanishes => false
  }

  lemma SyncLetsGoIff(s: Setting, w: World, t: Target, u: UpKey, n: string)
    requires Ready(s, w, t, u, n) && View(w.up, t, u).Some? && ToBeRemoved(w.up[u], t)
    ensures var w' := SyncObject(s.confs[t], s.deps, w, u, n, w.up[u], FreshReads(w, t, u, DnsReady)).world;
            View(w'.up, t, u).None? <==> IsEmptied(s, w, t, u, n)
  {
    NameOfConforming(s, u, w.up[u]);
    ReleasedIsOutOfView(w.up, t, u);
  }

  lemma SpecLetsGoIff(s: Setting, w: World, t: Target, u: UpKey, n: string)
    requires Ready(s, w, t, u, n) && View(w.up, t, u).Some? && ToBeRemoved(w.up[u], t)
    ensures View(SpecOnce(s, w, t, u).up, t, u).None? <==> IsEmptied(s, w, t, u, n)
  {
    var w1 := SetDown(w, t, EnsureNamespace(s.deps, w.down[t], n, Desired(s.confs[t], u)));
    EnsureNamespaceReady(s, w, t, u, n);
    SyncLetsGoIff(s, w1, t, u, n);
    SpecIsSync(s.confs[t], s.deps, w, u, n, DnsReady);
  }

  lemma StatusLetsGoIff(s: Setting, w: World, t: Target, u: UpKey, n: string)
    requires Ready(s, w, t, u, n) && View(w.up, t, u).Some? && ToBeRemoved(w.up[u], t)
    ensures View(StatusOnce(s, w, t, u, n).up, t, u).None? <==> LacksCopy(s, w, t, u, n)
  {
    var d, k := w.down[t], KeyOf(s, u, n);
    KeyLeadsBack(s, w, t, u, n);
    if n in d.namespaces && k in d.seen {
      StatusStepIs(s.confs[t], s.deps, w, k, u, w.up[u]);
      ReleasedIsOutOfView(w.up, t, u);
      if HasStatus(s.confs[t], d, k) {
        StatusWritten(s.confs[t], s.deps, w, u, w.up[u], d.objects[k].status.value);
      }
    } else {
      StatusIsIdle(s, w, t, u, n);
    }
  }

  lemma BegunLetsGoIff(s: Setting, w: World, t: Target, u: UpKey, n: string)
    requires Ready(s, w, t, u, n) && View(w.up, t, u).Some? && ToBeRemoved(w.up[u], t)
    ensures View(Begun(s, w, t, u).up, t, u).None? <==> IsEmptied(s, w, t, u, n)
  {
    SpecLetsGoIff(s, w, t, u, n);
    BeginsIs(s, w, t, u, n);
  }

  lemma TakesViewIff(s: Setting, w: World, half: Half, w': World, t: Target, u: UpKey, n: string)
    requires Acts(s, w, Takes(half), w', t, u, n) && View(w.up, t, u).Some? && ToBeRemoved(w.up[u], t)
    ensures View(w'.up, t, u).None? <==> LetsGo(s, w, Takes(half), t, u, n)
  {
    if half.SpecHalf? { SpecLetsGoIff(s, w, t, u, n); } else { StatusLetsGoIff(s, w, t, u, n); }
  }

  lemma ActViewIff(s: Setting, w: World, act: Act, w': World, t: Target, u: UpKey, n: string)
    requires Acts(s, w, act, w', t, u, n) && View(w.up, t, u).Some? && ToBeRemoved(w.up[u], t)
    ensures View(w'.up, t, u).None? <==> LetsGo(s, w, act, t, u, n)
  {
    match act
    case Takes(half) => TakesViewIff(s, w, half, w', t, u, n);
    case Begins => BegunLetsGoIff(s, w, t, u, n);
    case Vanishes =>
  }

  /** An act takes an object that is leaving away exactly if it lets it go. */
  lemma ActLetsGoIff(s: Setting, w: World, act: Act, w': World, t: Target, u: UpKey, n: string)
    requires Acts(s, w, act, w', t, u, n) && Leaving(w, t, u)
    ensures t in w'.down && (Gone(w', t, u) <==> Gone(w, t, u) || LetsGo(s, w, act, t, u, n))
  {
    ActKeeps(s, w, act, w', t, u, n);
    if View(w.up, t, u).Some? {
      ActViewIff(s, w, act, w', t, u, n);
    }
  }

  // ----- whole courses -----

  ghost predicate WasLetGo(s: Setting, worlds: seq<World>, acts: seq<Act>, t: Target, u: UpKey, n: string, i: nat)
    requires i <= |acts| < |worlds|
  {
    exists j | 0 <= j < i :: LetsGo(s, worlds[j], acts[j], t, u, n)
  }

  ghost predicate LeavingUnless(s: Setting, w: World, gone: bool, t: Target, u: UpKey, n: string) {
    Ready(s, w, t, u, n) && Leaving(w, t, u) && (Gone(w, t, u) <==> gone)
  }

  ghost function LeavingAt(s: Setting, worlds: seq<World>, acts: seq<Act>, gone: bool, t: Target, u: UpKey, n: string): nat -> bool {
    (i: nat) => i <= |acts| < |worlds|
      && LeavingUnless(s, worlds[i], gone || WasLetGo(s, worlds, acts, t, u, n, i), t, u, n)
  }

  lemma LeavingUnlessNext(s: Setting, w: World, act: Act, w': World, gone: bool, t: Target, u: UpKey, n: string)
    requires Acts(s, w, act, w', t, u, n) && LeavingUnless(s, w, gone, t, u, n)
    ensures LeavingUnless(s, w', gone || LetsGo(s, w, act, t, u, n), t, u, n)
  {
    ActKeeps(s, w, act, w', t, u, n);
    ActLetsGoIff(s, w, act, w', t, u, n);
  }

  lemma WasLetGoNext(s: Setting, worlds: seq<World>, acts: seq<Act>, t: Target, u: UpKey, n: string, i: nat)
    requires i < |acts| < |worlds|
    ensures WasLetGo(s, worlds, acts, t, u, n, i + 1)
            <==> WasLetGo(s, worlds, acts, t, u, n, i) || LetsGo(s, worlds[i], acts[i], t, u, n)
  {
    if LetsGo(s, worlds[i], acts[i], t, u, n) { assert WasLetGo(s, worlds, acts, t, u, n, i + 1); }
  }

  lemma CourseGoesOn(s: Setting, worlds: seq<World>, acts: seq<Act>, gone: bool, t: Target, u: UpKey, n: string, i: nat)
    requires IsCourse(s, worlds, acts, t, u, n) && i < |acts| && LeavingAt(s, worlds, acts, gone, t, u, n)(i)
    ensures LeavingAt(s, worlds, acts, gone, t, u, n)(i + 1)
  {
    assert Acts(s, worlds[i], acts[i], worlds[i + 1], t, u, n);
    WasLetGoNext(s, worlds, acts, t, u, n, i);
    LeavingUnlessNext(s, worlds[i], acts[i], worlds[i + 1], gone || WasLetGo(s, worlds, acts, t, u, n, i), t, u, n);
  }

  lemma CourseKeeps(s: Setting, worlds: seq<World>, acts: seq<Act>, t: Target, u: UpKey, n: string, i: nat)
    requires IsCourse(s, worlds, acts, t, u, n) && i < |worlds| && Leaving(worlds[0], t, u)
    ensures LeavingAt(s, worlds, acts, Gone(worlds[0], t, u), t, u, n)(i)
  {
    var p := LeavingAt(s, worlds, acts, Gone(worlds[0], t, u), t, u, n);
    assert p(0);
    forall j: nat | j < |acts| && p(j) ensures p(j + 1) {
      CourseGoesOn(s, worlds, acts, Gone(worlds[0], t, u), t, u, n, j);
    }
    HoldsAlong(p, |acts|, i);
  }

  /** Main result: in every course of steps and of deletes that begin and end at any
      time, an object on its way from a target is gone, with its finalizer, exactly
      from the first step that lets it go: a spec step that finds no copy, or a
      status step that comes by a key that is not listed. */
  lemma LeavingIsGoneIff(s: Setting, worlds: seq<World>, acts: seq<Act>, t: Target, u: UpKey, n: string, i: nat)
    requires IsCourse(s, worlds, acts, t, u, n) && i < |worlds| && Leaving(worlds[0], t, u)
    ensures t in worlds[i].down
    ensures Gone(worlds[i], t, u) <==> Gone(worlds[0], t, u) || WasLetGo(s, worlds, acts, t, u, n, i)
  {
    CourseKeeps(s, worlds, acts, t, u, n, i);
    assert Ready(s, worlds[i], t, u, n);
  }

  // ----- once the copy is gone -----

  lemma SpecKeepsEmptied(s: Setting, w: World, t: Target, u: UpKey, n: string)
    requires Ready(s, w, t, u, n) && Leaving(w, t, u) && IsEmptied(s, w, t, u, n)
    ensures IsEmptied(s, SpecOnce(s, w, t, u), t, u, n)
  {
    if View(w.up, t, u).Some? {
      SpecIsSync(s.confs[t], s.deps, w, u, n, DnsReady);
    }
  }

  lemma ActKeepsEmptied(s: Setting, w: World, act: Act, w': World, t: Target, u: UpKey, n: string)
    requires Acts(s, w, act, w', t, u, n) && Leaving(w, t, u) && IsEmptied(s, w, t, u, n)
    ensures IsEmptied(s, w', t, u, n)
  {
    if IsSpecAct(act) {
      SpecKeepsEmptied(s, w, t, u, n);
      BeginsIs(s, w, t, u, n);
    } else if act == Takes(StatusHalf) {
      KeyLeadsBack(s, w, t, u, n);
    }
  }

  ghost function EmptiedAt(s: Setting, worlds: seq<World>, t: Target, u: UpKey, n: string, from: nat): nat -> bool {
    (i: nat) => from + i < |worlds| && IsEmptied(s, worlds[from + i], t, u, n)
  }

  lemma EmptiedGoesOn(s: Setting, worlds: seq<World>, acts: seq<Act>, t: Target, u: UpKey, n: string, from: nat, i: nat)
    requires IsCourse(s, worlds, acts, t, u, n) && Leaving(worlds[0], t, u)
    requires from + i < |acts| && EmptiedAt(s, worlds, t, u, n, from)(i)
    ensures EmptiedAt(s, worlds, t, u, n, from)(i + 1)
  {
    CourseKeeps(s, worlds, acts, t, u, n, from + i);
    assert Acts(s, worlds[from + i], acts[from + i], worlds[from + i + 1], t, u, n);
    ActKeepsEmptied(s, worlds[from + i], acts[from + i], worlds[from + i + 1], t, u, n);
  }

  lemma EmptiedAlong(s: Setting, worlds: seq<World>, acts: seq<Act>, t: Target, u: UpKey, n: string, from: nat, i: nat)
    requires IsCourse(s, worlds, acts, t, u, n) && Leaving(worlds[0], t, u)
    requires from + i < |worlds| && EmptiedAt(s, worlds, t, u, n, from)(0)
    ensures EmptiedAt(s, worlds, t, u, n, from)(i)
  {
    var p := EmptiedAt(s, worlds, t, u, n, from);
    forall j: nat | j < |acts| - from && p(j) ensures p(j + 1) {
      EmptiedGoesOn(s, worlds, acts, t, u, n, from, j);
    }
    HoldsAlong(p, |acts| - from, i);
  }

  lemma StillEmptied(s: Setting, worlds: seq<World>, acts: seq<Act>, t: Target, u: UpKey, n: string, from: nat, i: nat)
    requires IsCourse(s, worlds, acts, t, u, n) && Leaving(worlds[0], t, u)
    requires from <= i < |worlds| && IsEmptied(s, worlds[from], t, u, n)
    ensures IsEmptied(s, worlds[i], t, u, n)
  {
    EmptiedAlong(s, worlds, acts, t, u, n, from, i - from);
  }

  /** Main result: however long the downstream delete takes, the first spec step
      after the copy is gone takes the object from the target, and nothing brings it
      back. */
  lemma VanishedIsGone(s: Setting, worlds: seq<World>, acts: seq<Act>, t: Target, u: UpKey, n: string, emptied: nat, spec: nat, i: nat)
    requires IsCourse(s, worlds, acts, t, u, n) && Leaving(worlds[0], t, u)
    requires emptied <= spec < i < |worlds| && IsEmptied(s, worlds[emptied], t, u, n) && IsSpecAct(acts[spec])
    ensures t in worlds[i].down && Gone(worlds[i], t, u)
  {
    StillEmptied(s, worlds, acts, t, u, n, emptied, spec);
    assert LetsGo(s, worlds[spec], acts[spec], t, u, n);
    assert WasLetGo(s, worlds, acts, t, u, n, i);
    LeavingIsGoneIff(s, worlds, acts, t, u, n, i);
  }
}
