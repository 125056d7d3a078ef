/** Taking and giving up ownership of an upstream object
    (pkg/syncer/spec/spec_process.go, pkg/syncer/shared/finalizer.go). */
module Finalizers {
  import opened Wrappers
  import opened Kube

  predicate HasFinalizer(o: KubeObject, t: Target) {
    SyncerFinalizer(t) in o.finalizers
  }

  predicate IntendedForRemoval(o: KubeObject, t: Target) {
    Read(o.annotations, DeletionAnn(t)) != ""
  }

  predicate ExternallyOwned(o: KubeObject, t: Target) {
    Read(o.annotations, SoftFinalizerAnn(t)) != ""
  }

  /** The object is to go from the target and nobody holds it back. */
  predicate ToBeRemoved(o: KubeObject, t: Target) {
    IntendedForRemoval(o, t) && !ExternallyOwned(o, t)
  }

  predicate NeedsClaim(o: KubeObject, t: Target) {
    !HasFinalizer(o, t) && !ToBeRemoved(o, t)
  }

  function Claimed(o: KubeObject, t: Target): KubeObject {
    o.(finalizers := o.finalizers + [SyncerFinalizer(t)])
  }

  /** All finalizers but the one of `t`, in the order they had. */
  function Without(fs: seq<Finalizer>, t: Target): seq<Finalizer> {
    if fs == [] then []
    else if fs[0] == SyncerFinalizer(t) then Without(fs[1..], t)
    else [fs[0]] + Without(fs[1..], t)
  }

  function Released(o: KubeObject, t: Target): KubeObject {
    o.(finalizers := Without(o.finalizers, t),
       annotations := o.annotations - {StatusAnn(t), DeletionAnn(t)},
       labels := o.labels - {StateLabel(t)})
  }

  /** The release step: reads the object once more and updates it from what it
      read. */
  function EnsureReleased(up: Upstream, u: UpKey, t: Target, read: Option<KubeObject>): Upstream {
    if read.None? || !IntendedForRemoval(read.value, t) then up
    else Update(up, u, read.value, Released(read.value, t))
  }

  lemma {:induction false} WithoutAppend(a: seq<Finalizer>, b: seq<Finalizer>, t: Target)
    ensures Without(a + b, t) == Without(a, t) + Without(b, t)
  {
    if a == [] {
      assert a + b == b;
    } else {
      WithoutAppend(a[1..], b, t);
      assert (a + b)[1..] == a[1..] + b;
    }
  }

  lemma {:induction false} WithoutMembers(fs: seq<Finalizer>, t: Target)
    ensures forall f :: f in Without(fs, t) <==> f in fs && f != SyncerFinalizer(t)
  {
    if fs != [] {
      WithoutMembers(fs[1..], t);
      assert fs == [fs[0]] + fs[1..];
    }
  }

  lemma {:induction false} WithoutAbsent(fs: seq<Finalizer>, t: Target)
    ensures Without(fs, t) == fs <==> SyncerFinalizer(t) !in fs
  {
    if SyncerFinalizer(t) in fs { WithoutMembers(fs, t); }
    if fs != [] && SyncerFinalizer(t) !in fs {
      WithoutAbsent(fs[1..], t);
    }
  }

  lemma {:induction false} WithoutCommutes(fs: seq<Finalizer>, t: Target, other: Target)
    ensures Without(Without(fs, t), other) == Without(Without(fs, other), t)
  {
    if fs != [] {
      WithoutCommutes(fs[1..], t, other);
      if fs[0] != SyncerFinalizer(t) {
        assert (([fs[0]] + Without(fs[1..], t))[1..]) == Without(fs[1..], t);
      }
      if fs[0] != SyncerFinalizer(other) {
        assert (([fs[0]] + Without(fs[1..], other))[1..]) == Without(fs[1..], other);
      }
    }
  }

  /** Nobody but the syncer of `t` can tell the two objects apart: the other
      finalizers in their order, every label and annotation outside the syncing
      to `t`, and the rest of the object are the same. */
  ghost predicate SameForOthers(a: KubeObject, b: KubeObject, t: Target) {
    && Without(a.finalizers, t) == Without(b.finalizers, t)
    && a.labels - {StateLabel(t)} == b.labels - {StateLabel(t)}
    && a.annotations - {StatusAnn(t), DeletionAnn(t)} == b.annotations - {StatusAnn(t), DeletionAnn(t)}
    && a.deleting == b.deleting && a.meta == b.meta && a.content == b.content
  }

  /** What a sync target decides on: how often its finalizer occurs, its state
      label, the deletion intent and the external owner. */
  datatype Share = Share(finalizers: nat, state: string, removal: bool, held: bool)

  function ShareOf(o: KubeObject, t: Target): Share {
    Share(Count(o.finalizers, t), Read(o.labels, StateLabel(t)), IntendedForRemoval(o, t), ExternallyOwned(o, t))
  }

  function Count(fs: seq<Finalizer>, t: Target): nat {
    if fs == [] then 0 else (if fs[0] == SyncerFinalizer(t) then 1 else 0) + Count(fs[1..], t)
  }

  lemma {:induction false} CountAppend(a: seq<Finalizer>, b: seq<Finalizer>, t: Target)
    ensures Count(a + b, t) == Count(a, t) + Count(b, t)
  {
    if a == [] {
      assert a + b == b;
    } else {
      CountAppend(a[1..], b, t);
      assert (a + b)[1..] == a[1..] + b;
    }
  }

  lemma {:induction false} CountWithout(fs: seq<Finalizer>, t: Target, other: Target)
    ensures Count(Without(fs, t), other) == if other == t then 0 else Count(fs, other)
  {
    if fs != [] {
      CountWithout(fs[1..], t, other);
      if fs[0] != SyncerFinalizer(t) {
        assert Without(fs, t)[1..] == Without(fs[1..], t);
      }
    }
  }

  lemma {:induction false} CountIsMembership(fs: seq<Finalizer>, t: Target)
    ensures Count(fs, t) > 0 <==> SyncerFinalizer(t) in fs
  {
    if fs != [] {
      CountIsMembership(fs[1..], t);
    }
  }

  /** Main result: claiming an object for one target adds its finalizer at the
      end and changes nothing else; another target decides as before. */
  lemma ClaimIsLocal(o: KubeObject, t: Target, other: Target)
    requires other != t
    ensures HasFinalizer(Claimed(o, t), t) && SameForOthers(o, Claimed(o, t), t)
    ensures o.finalizers < Claimed(o, t).finalizers && |Claimed(o, t).finalizers| == |o.finalizers| + 1
    ensures ShareOf(Claimed(o, t), other) == ShareOf(o, other)
  {
    var own := [SyncerFinalizer(t)];
    assert own[1..] == [];
    WithoutAppend(o.finalizers, own, t);
    CountAppend(o.finalizers, own, other);
  }

  lemma ReleasedShare(o: KubeObject, t: Target)
    ensures ShareOf(Released(o, t), t) == Share(0, "", false, ExternallyOwned(o, t))
    ensures !HasFinalizer(Released(o, t), t)
  {
    CountWithout(o.finalizers, t, t);
    CountIsMembership(Without(o.finalizers, t), t);
  }

  /** Main result: a release removes finalizer, state label and deletion intent
      together and keeps the order of all other finalizers; another target
      decides as before, and releases of two targets commute. */
  lemma ReleaseIsLocal(o: KubeObject, t: Target, other: Target)
    requires other != t
    ensures ShareOf(Released(o, t), t) == Share(0, "", false, ExternallyOwned(o, t))
    ensures SameForOthers(o, Released(o, t), t)
    ensures ShareOf(Released(o, t), other) == ShareOf(o, other)
    ensures Released(Released(o, t), other) == Released(Released(o, other), t)
  {
    ReleasedShare(o, t);
    CountWithout(o.finalizers, t, other);
    WithoutMembers(o.finalizers, t);
    WithoutAbsent(Without(o.finalizers, t), t);
    WithoutCommutes(o.finalizers, t, other);
    assert Released(Released(o, t), other).annotations == Released(Released(o, other), t).annotations;
    assert Released(Released(o, t), other).labels == Released(Released(o, other), t).labels;
  }

  /** Claiming and then releasing leaves what a release alone would leave. */
  lemma ReleaseUndoesClaim(o: KubeObject, t: Target)
    ensures Released(Claimed(o, t), t) == Released(o, t)
  {
    var own := [SyncerFinalizer(t)];
    assert own[1..] == [];
    WithoutAppend(o.finalizers, own, t);
  }
}
