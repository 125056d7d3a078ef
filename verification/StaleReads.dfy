/** Runs in which the controllers read whatever their listers hold, old or new, and
    outside actors keep to no limits: ownership is kept exactly as far as each step
    meets its own condition. */
module StaleReads {
  import opened Wrappers
  import opened Kube
  import opened Finalizers
  import opened Syncer
  import opened Ownership
  import opened OwnershipLimits

  /** A step of an outside actor, or of a controller with the reads that it made at
      any time before. */
  datatype Move =
    | Outside(step: Step)
    | SpecWith(t: Target, u: UpKey, input: Reads)
    | SpecTerminatingWith(t: Target, u: UpKey, input: Reads)
    | StatusWith(t: Target, k: DownKey, read: Option<KubeObject>)

  predicate IsSyncerStep(step: Step) {
    step.Spec? || step.SpecTerminating? || step.Status?
  }

  /** Outside actors may do anything at all. */
  ghost predicate CanMove(s: Setting, w: World, m: Move) {
    match m
    case Outside(step) => !IsSyncerStep(step) && Possible(s, w, step)
    case SpecWith(t, u, input) => IsSyncer(s, w, t)
    case SpecTerminatingWith(t, u, input) => IsSyncer(s, w, t)
    case StatusWith(t, k, read) => IsSyncer(s, w, t)
  }

  ghost function Moved(s: Setting, w: World, m: Move): World
    requires CanMove(s, w, m)
  {
    match m
    case Outside(step) => Next(s, w, step)
    case SpecWith(t, u, input) => SpecStep(s.confs[t], s.deps, w, u, input).world
    case SpecTerminatingWith(t, u, input) => Terminating(w, t, SpecStep(s.confs[t], s.deps, w, u, input).world)
    case StatusWith(t, k, read) => StatusStep(s.confs[t], s.deps, w, k, read).world
  }

  /** Where a copy is applied the stored object has the finalizer, and where the
      finalizer is given up no copy is left. */
  ghost predicate SafeSpec(s: Setting, w: World, t: Target, u: UpKey, input: Reads)
    requires IsSyncer(s, w, t)
  {
    && (WillApply(s.confs[t], s.deps, w.down[t], u, input) ==> u in w.up && HasFinalizer(w.up[u], t))
    && (WillGiveUp(s.confs[t], s.deps, w, u, input) ==> NoCopyOf(w.down[t], u))
  }

  /** What was read is still good enough, or an edit takes away no finalizer of a
      target that has a copy. */
  ghost predicate IsSafe(s: Setting, w: World, m: Move)
    requires CanMove(s, w, m)
  {
    match m
    case Outside(step) => step.EditUpstream? ==> KeepsNeededFinalizers(s, w, step.u, step.o)
    case SpecWith(t, u, input) => SafeSpec(s, w, t, u, input)
    case SpecTerminatingWith(t, u, input) => SafeSpec(s, w, t, u, input)
    case StatusWith(t, k, read) =>
      var back := WayBack(s.confs[t], s.deps, w.down[t], k);
      back.Some? && !IsListed(t, w.down[t], k) && WillRelease(w.up, back.value, t, read) ==> NoCopyOf(w.down[t], back.value)
  }

  ghost predicate KeepsNeededFinalizers(s: Setting, w: World, u: UpKey, o: KubeObject) {
    forall t | t in s.confs && t in w.down && !NoCopyOf(w.down[t], u) :: HasFinalizer(o, s.confs[t].target)
  }

  /** Storing an object keeps ownership exactly if it has the finalizers of all
      targets with a copy of it. */
  lemma PutOwnedIff(s: Setting, w: World, u: UpKey, o: KubeObject)
    requires Owned(s, w)
    ensures Owned(s, w.(up := Put(w.up, u, o))) <==> KeepsNeededFinalizers(s, w, u, o)
  {
    var up := Put(w.up, u, o);
    var w' := w.(up := up);
    if KeepsNeededFinalizers(s, w, u, o) {
      forall t, k | t in s.confs && t in w.down && k in w.down[t].objects && w.down[t].objects[k].Copy?
        ensures var v := w.down[t].objects[k].origin; v in up && HasFinalizer(up[v], s.confs[t].target)
      {
        var v := w.down[t].objects[k].origin;
        assert v in w.up && HasFinalizer(w.up[v], s.confs[t].target);
        if v == u { assert !NoCopyOf(w.down[t], u); }
      }
    } else {
      var t :| t in s.confs && t in w.down && !NoCopyOf(w.down[t], u) && !HasFinalizer(o, s.confs[t].target);
      var k :| k in w.down[t].objects && w.down[t].objects[k].Copy? && w.down[t].objects[k].origin == u;
      assert t in w'.down && k in w'.down[t].objects && !(u in up && HasFinalizer(up[u], s.confs[t].target));
    }
  }

  /** An object that has a copy anywhere has the finalizer for it. */
  lemma OwnedIsNeeded(s: Setting, w: World, u: UpKey)
    requires Owned(s, w)
    ensures u in w.up ==> KeepsNeededFinalizers(s, w, u, w.up[u])
    ensures u !in w.up ==> forall t | t in s.confs && t in w.down :: NoCopyOf(w.down[t], u)
  {
    forall t, k | t in s.confs && t in w.down && k in w.down[t].objects && w.down[t].objects[k].Copy?
      && w.down[t].objects[k].origin == u ensures u in w.up && HasFinalizer(w.up[u], s.confs[t].target)
    {
    }
  }

  lemma OutsideUpstreamOwned(s: Setting, w: World, step: Step)
    requires Owned(s, w) && Possible(s, w, step)
    requires step.CreateUpstream? || step.EditUpstream? || step.DeleteUpstream?
    ensures Owned(s, Next(s, w, step)) <==> (step.EditUpstream? ==> KeepsNeededFinalizers(s, w, step.u, step.o))
  {
    OwnedIsNeeded(s, w, step.u);
    if step.CreateUpstream? {
      assert Put(w.up, step.u, step.o) == w.up[step.u := step.o];
      PutOwnedIff(s, w, step.u, step.o);
    } else if step.EditUpstream? {
      PutOwnedIff(s, w, step.u, step.o);
    } else {
      PutOwnedIff(s, w, step.u, w.up[step.u].(deleting := true));
    }
  }

  lemma OutsideOwned(s: Setting, w: World, step: Step)
    requires Owned(s, w) && Possible(s, w, step) && !IsSyncerStep(step)
    ensures Owned(s, Next(s, w, step)) <==> (step.EditUpstream? ==> KeepsNeededFinalizers(s, w, step.u, step.o))
  {
    if step.CreateUpstream? || step.EditUpstream? || step.DeleteUpstream? {
      OutsideUpstreamOwned(s, w, step);
    } else {
      SetDownOwned(s, w, step.t, Next(s, w, step).down[step.t]);
    }
  }

  /** The spec step takes the object at `k` away. */
  ghost predicate Removes(s: Setting, w: World, t: Target, u: UpKey, input: Reads, k: DownKey)
    requires IsSyncer(s, w, t)
  {
    k in w.down[t].objects && k !in SpecStep(s.confs[t], s.deps, w, u, input).world.down[t].objects
  }

  /** A spec step that removes an object neither writes upstream nor applies. */
  lemma RemovalIsLocal(s: Setting, w: World, t: Target, u: UpKey, input: Reads, k: DownKey)
    requires IsSyncer(s, w, t) && Removes(s, w, t, u, input, k)
    ensures var r := SpecStep(s.confs[t], s.deps, w, u, input).world; r == SetDown(w, t, r.down[t])
  {
  }

  lemma RemovalIsSafe(s: Setting, w: World, t: Target, u: UpKey, input: Reads, k: DownKey)
    requires IsSyncer(s, w, t) && Removes(s, w, t, u, input, k)
    ensures SafeSpec(s, w, t, u, input)
  {
  }

  lemma PutBackOwned(s: Setting, w: World, t: Target, e: Down)
    requires Owned(s, w) && t in w.down
    ensures Owned(s, SetDown(SetDown(w, t, e), t, e.(objects := w.down[t].objects)))
  {
    var d := e.(objects := w.down[t].objects);
    SetDownOwned(s, w, t, d);
    assert SetDown(SetDown(w, t, e), t, d) == SetDown(w, t, d);
  }

  lemma SpecTerminatingOwnedIff(s: Setting, w: World, t: Target, u: UpKey, input: Reads)
    requires Sound(s) && Owned(s, w) && IsSyncer(s, w, t)
    ensures Owned(s, Terminating(w, t, SpecStep(s.confs[t], s.deps, w, u, input).world)) <==> SafeSpec(s, w, t, u, input)
  {
    ghost var r := SpecStep(s.confs[t], s.deps, w, u, input).world;
    if k :| Removes(s, w, t, u, input, k) {
      RemovalIsLocal(s, w, t, u, input, k);
      RemovalIsSafe(s, w, t, u, input, k);
      PutBackOwned(s, w, t, r.down[t]);
    } else {
      assert forall k :: k in w.down[t].objects && k !in r.down[t].objects ==> Removes(s, w, t, u, input, k);
      SpecStepOwnedIff(s, w, t, u, input);
    }
  }

  lemma MoveOwnedIff(s: Setting, w: World, m: Move)
    requires Sound(s) && Owned(s, w) && CanMove(s, w, m)
    ensures Owned(s, Moved(s, w, m)) <==> IsSafe(s, w, m)
  {
    match m
    case Outside(step) => OutsideOwned(s, w, step);
    case SpecWith(t, u, input) => SpecStepOwnedIff(s, w, t, u, input);
    case SpecTerminatingWith(t, u, input) => SpecTerminatingOwnedIff(s, w, t, u, input);
    case StatusWith(t, k, read) => StatusStepOwnedIff(s, w, t, k, read);
  }

  ghost predicate Makes(s: Setting, w: World, m: Move, w': World) {
    CanMove(s, w, m) && w' == Moved(s, w, m)
  }

  ghost predicate IsStaleRun(s: Setting, worlds: seq<World>, moves: seq<Move>) {
    && |worlds| == |moves| + 1 && Owned(s, worlds[0])
    && forall i | 0 <= i < |moves| :: Makes(s, worlds[i], moves[i], worlds[i + 1])
  }

  ghost predicate SafeAt(s: Setting, w: World, m: Move) {
    CanMove(s, w, m) && IsSafe(s, w, m)
  }

  lemma {:induction false} SafeSoFarIsOwned(s: Setting, worlds: seq<World>, moves: seq<Move>, i: nat)
    requires Sound(s) && IsStaleRun(s, worlds, moves) && i < |worlds|
    requires forall j | 0 <= j < i :: SafeAt(s, worlds[j], moves[j])
    ensures Owned(s, worlds[i])
    decreases i
  {
    if i > 0 {
      SafeSoFarIsOwned(s, worlds, moves, i - 1);
      assert Makes(s, worlds[i - 1], moves[i - 1], worlds[i - 1 + 1]);
      assert SafeAt(s, worlds[i - 1], moves[i - 1]);
      MoveOwnedIff(s, worlds[i - 1], moves[i - 1]);
    }
  }

  /** Main result: over every run with reads of any age and with outside actors that
      may do anything, every copy is owned in every state if and only if each
      controller step met its condition on its reads and no edit took away a
      finalizer that a copy needs. */
  lemma StaleRunIsOwnedIff(s: Setting, worlds: seq<World>, moves: seq<Move>)
    requires Sound(s) && IsStaleRun(s, worlds, moves)
    ensures (forall i | 0 <= i < |worlds| :: Owned(s, worlds[i]))
            <==> (forall i | 0 <= i < |moves| :: SafeAt(s, worlds[i], moves[i]))
  {
    if forall i | 0 <= i < |worlds| :: Owned(s, worlds[i]) {
      forall i | 0 <= i < |moves| ensures SafeAt(s, worlds[i], moves[i]) {
        assert Makes(s, worlds[i], moves[i], worlds[i + 1]);
        assert Owned(s, worlds[i]) && Owned(s, worlds[i + 1]);
        MoveOwnedIff(s, worlds[i], moves[i]);
      }
    }
    if forall i | 0 <= i < |moves| :: SafeAt(s, worlds[i], moves[i]) {
      forall i | 0 <= i < |worlds| ensures Owned(s, worlds[i]) {
        SafeSoFarIsOwned(s, worlds, moves, i);
      }
    }
  }
}
