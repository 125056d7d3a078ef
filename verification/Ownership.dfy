/** The ownership protocol: any number of syncers, each with a spec and a status
    controller, and outside actors upstream and downstream, interleaved in any
    order. A finalizer is in place upstream for as long as a copy exists. */
module Ownership {
  import opened Wrappers
  import opened Json
  import opened Kube
  import opened Naming
  import opened Locators
  import opened Finalizers
  import opened Syncer

  type Confs = map<Target, Conf>

  /** The fixed surroundings of a run: the syncers, the code outside the model,
      and which secrets named like default tokens belong to the default service
      account. */
  datatype Setting = Setting(confs: Confs, deps: Deps, ofDefault: string -> bool)

  ghost predicate Sound(s: Setting) {
    Lawful(s.deps.codec) && forall t | t in s.confs :: s.confs[t].target == t
  }

  datatype Step =
    | Spec(t: Target, u: UpKey, dns: Dns)
    | SpecTerminating(t: Target, u: UpKey, dns: Dns)
    | Status(t: Target, k: DownKey)
    | CreateUpstream(u: UpKey, o: KubeObject)
    | EditUpstream(u: UpKey, o: KubeObject)
    | DeleteUpstream(u: UpKey)
    | EditDownstream(t: Target, k: DownKey, body: KubeObject, status: Option<Json>)
    | DeleteDownstream(t: Target, k: DownKey)
    | PlaceUnmanaged(t: Target, k: DownKey, body: KubeObject, status: Option<Json>)
    | CreateNamespace(t: Target, n: string, ns: Namespace)
    | EditNamespace(t: Target, n: string, ns: Namespace)
    | DeleteNamespace(t: Target, n: string)

  // ----- what the syncers rely on -----

  /** An upstream object is named like no other object's copy, and a secret that
      may be renamed belongs to the account its name stands for. */
  ghost predicate Conforms(s: Setting, u: UpKey, o: KubeObject) {
    && !Reserved(u.gvr, u.name)
    && (MayBeRenamed(u.gvr, u.name) ==> (OfDefaultAccount(o.annotations) <==> s.ofDefault(u.name)))
  }

  function NameInRun(s: Setting, gvr: Gvr, name: string): string {
    NameFor(gvr, name, s.ofDefault(name))
  }

  /** Nobody else takes away a syncer finalizer. */
  ghost predicate KeepsSyncerFinalizers(before: KubeObject, after: KubeObject) {
    forall t :: SyncerFinalizer(t) in before.finalizers ==> SyncerFinalizer(t) in after.finalizers
  }

  /** A namespace that somebody else creates: it may carry the locator of this
      sync target only if it is the one namespace of that locator, labelled and
      named as the syncer would do it. */
  ghost predicate WellBehaved(c: Conf, deps: Deps, namespaces: Namespaces, ns: Namespace) {
    forall l | LocatorOf(deps.codec, ns) == Found(l) && Ours(c, l) ::
      && ns.watched && l.syncTarget.name == c.name
      && forall n | n in namespaces :: LocatorOf(deps.codec, namespaces[n]) != Found(l)
  }

  predicate IsOurs(c: Conf, deps: Deps, ns: Namespace) {
    var d := LocatorOf(deps.codec, ns);
    d.Found? && Ours(c, d.locator)
  }

  /** An edit of a namespace keeps its locator, written in either form, and a
      namespace of this sync target stays watched; or the namespace is not one of
      this sync target, and becomes like one that somebody creates. */
  ghost predicate WellBehavedEdit(c: Conf, deps: Deps, namespaces: Namespaces, n: string, ns: Namespace)
    requires n in namespaces
  {
    || (LocatorOf(deps.codec, ns) == LocatorOf(deps.codec, namespaces[n]) && (IsOurs(c, deps, ns) ==> ns.watched))
    || (!IsOurs(c, deps, namespaces[n]) && WellBehaved(c, deps, namespaces - {n}, ns))
  }

  /** What can happen at all. */
  ghost predicate Possible(s: Setting, w: World, step: Step) {
    match step
    case Spec(t, u, dns) => IsSyncer(s, w, t)
    case SpecTerminating(t, u, dns) => IsSyncer(s, w, t)
    case Status(t, k) => IsSyncer(s, w, t) && k in w.down[t].seen
    case CreateUpstream(u, o) => u !in w.up && !o.deleting
    case EditUpstream(u, o) => u in w.up && o.deleting == w.up[u].deleting
    case DeleteUpstream(u) => u in w.up
    case EditDownstream(t, k, body, status) => t in s.confs && t in w.down && k in w.down[t].objects
    case DeleteDownstream(t, k) => t in s.confs && t in w.down
    case PlaceUnmanaged(t, k, body, status) => t in s.confs && t in w.down && k !in w.down[t].objects
    case CreateNamespace(t, n, ns) => t in s.confs && t in w.down && n !in w.down[t].namespaces
    case EditNamespace(t, n, ns) => t in s.confs && t in w.down && n in w.down[t].namespaces
    case DeleteNamespace(t, n) => t in s.confs && t in w.down
  }

  ghost predicate IsSyncer(s: Setting, w: World, t: Target) {
    t in s.confs && t in w.down && s.confs[t].target == t
  }

  /** What the syncers rely on others not to do. */
  ghost predicate WithinLimits(s: Setting, w: World, step: Step)
    requires Possible(s, w, step)
  {
    match step
    case Spec(t, u, dns) => true
    case SpecTerminating(t, u, dns) => true
    case Status(t, k) => true
    case CreateUpstream(u, o) => Conforms(s, u, o)
    case EditUpstream(u, o) => KeepsSyncerFinalizers(w.up[u], o) && Conforms(s, u, o)
    case DeleteUpstream(u) => true
    case EditDownstream(t, k, body, status) =>
      && (w.down[t].objects[k].Copy? ==> HasLabel(s.confs[t].target, body))
      && LabelledAsACopy(s, s.confs[t].target, w.down[t], k, body)
    case DeleteDownstream(t, k) => true
    case PlaceUnmanaged(t, k, body, status) => LabelledAsACopy(s, s.confs[t].target, w.down[t], k, body)
    case CreateNamespace(t, n, ns) => WellBehaved(s.confs[t], s.deps, w.down[t].namespaces, ns)
    case EditNamespace(t, n, ns) => WellBehavedEdit(s.confs[t], s.deps, w.down[t].namespaces, n, ns)
    case DeleteNamespace(t, n) => true
  }

  /** An object that the informers come to list is named as a copy would be. */
  ghost predicate LabelledAsACopy(s: Setting, t: Target, d: Down, k: DownKey, body: KubeObject) {
    HasLabel(t, body) && k !in d.seen ==> SeenConsistent(s, k)
  }

  ghost predicate Enabled(s: Setting, w: World, step: Step) {
    Possible(s, w, step) && WithinLimits(s, w, step)
  }

  function DropNamespace(d: Down, n: string): Down {
    d.(namespaces := d.namespaces - {n}, objects := map k | k in d.objects && k.ns != n :: d.objects[k])
  }

  /** A spec step whose downstream delete, if it makes one, leaves the object
      terminating: it is gone only when somebody deletes it later. */
  ghost function Terminating(w: World, t: Target, r: World): World
    requires t in w.down && t in r.down
  {
    if exists k :: k in w.down[t].objects && k !in r.down[t].objects
    then SetDown(r, t, r.down[t].(objects := w.down[t].objects))
    else r
  }

  /** A downstream object that somebody writes; the informers see it if it is labelled. */
  function Written(t: Target, d: Down, k: DownKey, o: DownObject): Down {
    d.(objects := d.objects[k := o], seen := if HasLabel(t, o.body) then d.seen + {k} else d.seen)
  }

  /** A step with fresh reads. */
  ghost function Next(s: Setting, w: World, step: Step): World
    requires Possible(s, w, step)
  {
    match step
    case Spec(t, u, dns) => SpecStep(s.confs[t], s.deps, w, u, FreshReads(w, s.confs[t].target, u, dns)).world
    case SpecTerminating(t, u, dns) =>
      Terminating(w, t, SpecStep(s.confs[t], s.deps, w, u, FreshReads(w, s.confs[t].target, u, dns)).world)
    case Status(t, k) =>
      var back := WayBack(s.confs[t], s.deps, w.down[t], k);
      var read := if back.Some? then View(w.up, s.confs[t].target, back.value) else None;
      StatusStep(s.confs[t], s.deps, w, k, read).world
    case CreateUpstream(u, o) => w.(up := w.up[u := o])
    case EditUpstream(u, o) => w.(up := Put(w.up, u, o))
    case DeleteUpstream(u) => w.(up := RequestDeletion(w.up, u))
    case EditDownstream(t, k, body, status) =>
      SetDown(w, t, Written(s.confs[t].target, w.down[t], k, w.down[t].objects[k].(body := body, status := status)))
    case DeleteDownstream(t, k) => SetDown(w, t, Remove(w.down[t], k))
    case PlaceUnmanaged(t, k, body, status) => SetDown(w, t, Written(s.confs[t].target, w.down[t], k, Unmanaged(body, status)))
    case CreateNamespace(t, n, ns) => SetDown(w, t, w.down[t].(namespaces := w.down[t].namespaces[n := ns]))
    case EditNamespace(t, n, ns) => SetDown(w, t, w.down[t].(namespaces := w.down[t].namespaces[n := ns]))
    case DeleteNamespace(t, n) => SetDown(w, t, DropNamespace(w.down[t], n))
  }

  // ----- the invariant -----

  ghost predicate Consistent(s: Setting, w: World) {
    && (forall u | u in w.up :: Conforms(s, u, w.up[u]))
    && (forall t | t in s.confs :: t in w.down && DownConsistent(s, s.confs[t], w.up, w.down[t]))
  }

  ghost predicate DownConsistent(s: Setting, c: Conf, up: Upstream, d: Down) {
    && NamespacesConsistent(c, s.deps, d.namespaces)
    && (forall k | k in d.objects && d.objects[k].Copy? :: CopyConsistent(s, c, up, d, k))
    && (forall k | k in d.seen :: SeenConsistent(s, k))
  }

  /** Every namespace with a locator of this sync target is watched and is the
      only one with that locator. */
  ghost predicate NamespacesConsistent(c: Conf, deps: Deps, namespaces: Namespaces) {
    && (forall n | n in namespaces && LocatorOf(deps.codec, namespaces[n]).Found? ::
          var l := LocatorOf(deps.codec, namespaces[n]).locator;
          Ours(c, l) ==> namespaces[n].watched && l.syncTarget.name == c.name)
    && (forall n, m | n in namespaces && m in namespaces
          && LocatorOf(deps.codec, namespaces[n]).Found?
          && Ours(c, LocatorOf(deps.codec, namespaces[n]).locator)
          && LocatorOf(deps.codec, namespaces[m]) == LocatorOf(deps.codec, namespaces[n]) :: n == m)
  }

  /** A copy is owned, sits in the namespace that names the upstream namespace it
      came from, has the name that leads back to its upstream object, and is listed. */
  ghost predicate CopyConsistent(s: Setting, c: Conf, up: Upstream, d: Down, k: DownKey)
    requires k in d.objects && d.objects[k].Copy?
  {
    var u := d.objects[k].origin;
    && u in up && HasFinalizer(up[u], c.target)
    && k.gvr == u.gvr && k.name == NameInRun(s, u.gvr, u.name)
    && k.ns in d.namespaces && LocatorOf(s.deps.codec, d.namespaces[k.ns]) == Found(Desired(c, u))
    && k in d.seen && HasLabel(c.target, d.objects[k].body)
  }

  ghost predicate SeenConsistent(s: Setting, k: DownKey) {
    var name := UpstreamName(k.gvr, k.name);
    !Reserved(k.gvr, name) && k.name == NameInRun(s, k.gvr, name)
  }

  /** The safety property: whenever a copy exists, its upstream object exists and
      carries the finalizer of that target. */
  ghost predicate Owned(s: Setting, w: World) {
    forall t, k | t in s.confs && t in w.down && k in w.down[t].objects && w.down[t].objects[k].Copy? ::
      var u := w.down[t].objects[k].origin;
      u in w.up && HasFinalizer(w.up[u], s.confs[t].target)
  }

  // ----- addressing -----

  lemma NameOfConforming(s: Setting, u: UpKey, o: KubeObject)
    requires Conforms(s, u, o)
    ensures TransformedName(u.gvr, u.name, o.annotations) == NameInRun(s, u.gvr, u.name)
  {
  }

  lemma SeenName(s: Setting, gvr: Gvr, name: string, n: string)
    requires !Reserved(gvr, name)
    ensures UpstreamName(gvr, NameInRun(s, gvr, name)) == name
    ensures SeenConsistent(s, DownKey(gvr, n, NameInRun(s, gvr, name)))
  {
    NameRoundTrip(gvr, name, s.ofDefault(name));
  }

  /** A namespace found by its locator, or a free name, is the only namespace of
      that locator. */
  lemma FoundNamespace(c: Conf, deps: Deps, d: Down, u: UpKey, n: string)
    requires Lawful(deps.codec)
    requires TargetNamespace(c, deps, d, u) == Some(n) && NamespaceUsable(deps, d.namespaces, n, Desired(c, u))
    ensures n in d.namespaces ==> LocatorOf(deps.codec, d.namespaces[n]) == Found(Desired(c, u))
    ensures n !in d.namespaces ==>
              forall m | m in d.namespaces && d.namespaces[m].watched ::
                LocatorOf(deps.codec, d.namespaces[m]) != Found(Desired(c, u))
  {
    IndexIsScan(deps.codec, d.namespaces, Desired(c, u));
    if n !in d.namespaces {
      forall m | m in d.namespaces && d.namespaces[m].watched
        ensures LocatorOf(deps.codec, d.namespaces[m]) != Found(Desired(c, u))
      {
        assert m !in ByIndex(deps.codec, d.namespaces, deps.codec.encode(Desired(c, u)));
      }
    }
  }

  lemma NewNamespaceLocator(c: Conf, deps: Deps, u: UpKey)
    requires Lawful(deps.codec)
    ensures LocatorOf(deps.codec, NewNamespace(deps, Desired(c, u))) == Found(Desired(c, u))
  {
    assert deps.codec.decode(deps.codec.encode(Desired(c, u))) == Some(Desired(c, u));
  }

  // ----- every step keeps the invariant -----

  /** Ensuring the namespace, which then names the upstream namespace. */
  lemma EnsureNamespaceKeeps(s: Setting, c: Conf, up: Upstream, d: Down, u: UpKey, n: string)
    requires Lawful(s.deps.codec) && DownConsistent(s, c, up, d)
    requires TargetNamespace(c, s.deps, d, u) == Some(n) && NamespaceUsable(s.deps, d.namespaces, n, Desired(c, u))
    ensures var d' := EnsureNamespace(s.deps, d, n, Desired(c, u));
            && DownConsistent(s, c, up, d')
            && n in d'.namespaces && LocatorOf(s.deps.codec, d'.namespaces[n]) == Found(Desired(c, u))
            && d'.objects == d.objects && d'.seen == d.seen
  {
    var d' := EnsureNamespace(s.deps, d, n, Desired(c, u));
    FoundNamespace(c, s.deps, d, u, n);
    NewNamespaceLocator(c, s.deps, u);
    forall m | m in d.namespaces
      ensures m in d'.namespaces && LocatorOf(s.deps.codec, d'.namespaces[m]) == LocatorOf(s.deps.codec, d.namespaces[m])
    {
    }
    forall k | k in d'.objects && d'.objects[k].Copy? ensures CopyConsistent(s, c, up, d', k) {
      assert CopyConsistent(s, c, up, d, k);
    }
  }

  /** The upstream store may change in any way that keeps the objects that copies
      were made from, with the finalizers. */
  lemma UpstreamChangeKeeps(s: Setting, w: World, up: Upstream)
    requires Consistent(s, w)
    requires forall u | u in up :: Conforms(s, u, up[u])
    requires forall t, k | t in s.confs && k in w.down[t].objects && w.down[t].objects[k].Copy? ::
               var u := w.down[t].objects[k].origin; u in up && HasFinalizer(up[u], s.confs[t].target)
    ensures Consistent(s, w.(up := up))
  {
    forall t | t in s.confs ensures DownConsistent(s, s.confs[t], up, w.down[t]) {
      forall k | k in w.down[t].objects && w.down[t].objects[k].Copy?
        ensures CopyConsistent(s, s.confs[t], up, w.down[t], k)
      {
        assert CopyConsistent(s, s.confs[t], w.up, w.down[t], k);
      }
    }
  }

  /** Storing a changed object that keeps every finalizer a copy stands on. */
  lemma PutKeeps(s: Setting, w: World, u: UpKey, o: KubeObject)
    requires Consistent(s, w) && Conforms(s, u, o)
    requires forall t, k | t in s.confs && k in w.down[t].objects && w.down[t].objects[k].Copy?
               && w.down[t].objects[k].origin == u :: HasFinalizer(o, s.confs[t].target)
    ensures Consistent(s, w.(up := Put(w.up, u, o)))
  {
    var up := Put(w.up, u, o);
    forall t, k | t in s.confs && k in w.down[t].objects && w.down[t].objects[k].Copy?
      ensures var v := w.down[t].objects[k].origin; v in up && HasFinalizer(up[v], s.confs[t].target)
    {
      assert CopyConsistent(s, s.confs[t], w.up, w.down[t], k);
    }
    UpstreamChangeKeeps(s, w, up);
  }

  ghost predicate NoCopyOf(d: Down, u: UpKey) {
    forall k | k in d.objects && d.objects[k].Copy? :: d.objects[k].origin != u
  }

  /** A release is safe as soon as the releasing target has no copy. */
  lemma ReleaseKeeps(s: Setting, w: World, t: Target, u: UpKey)
    requires Sound(s) && Consistent(s, w) && t in s.confs && NoCopyOf(w.down[t], u)
    ensures Consistent(s, w.(up := EnsureReleased(w.up, u, t, View(w.up, t, u))))
  {
    var up := EnsureReleased(w.up, u, t, View(w.up, t, u));
    if up != w.up {
      var o := Released(w.up[u], t);
      WithoutMembers(w.up[u].finalizers, t);
      forall t', k | t' in s.confs && k in w.down[t'].objects && w.down[t'].objects[k].Copy?
        && w.down[t'].objects[k].origin == u ensures HasFinalizer(o, s.confs[t'].target)
      {
        assert CopyConsistent(s, s.confs[t'], w.up, w.down[t'], k);
      }
      PutKeeps(s, w, u, o);
    }
  }

  /** All copies of an object are at the one key that leads to it. */
  lemma CopiesOfAreAt(s: Setting, c: Conf, up: Upstream, d: Down, u: UpKey, n: string)
    requires DownConsistent(s, c, up, d)
    requires n in d.namespaces && LocatorOf(s.deps.codec, d.namespaces[n]) == Found(Desired(c, u))
    ensures forall k | k in d.objects && d.objects[k].Copy? && d.objects[k].origin == u ::
              k == DownKey(u.gvr, n, NameInRun(s, u.gvr, u.name))
  {
    forall k | k in d.objects && d.objects[k].Copy? && d.objects[k].origin == u
      ensures k == DownKey(u.gvr, n, NameInRun(s, u.gvr, u.name))
    {
      assert CopyConsistent(s, c, up, d, k);
    }
  }

  /** Nothing is copied from an object whose key is not listed. */
  lemma UnlistedHasNoCopy(s: Setting, c: Conf, up: Upstream, d: Down, u: UpKey, n: string)
    requires DownConsistent(s, c, up, d)
    requires n in d.namespaces && LocatorOf(s.deps.codec, d.namespaces[n]) == Found(Desired(c, u))
    requires !IsListed(c.target, d, DownKey(u.gvr, n, NameInRun(s, u.gvr, u.name)))
    ensures NoCopyOf(d, u)
  {
    CopiesOfAreAt(s, c, up, d, u, n);
    forall k | k in d.objects && d.objects[k].Copy? ensures d.objects[k].origin != u {
      assert CopyConsistent(s, c, up, d, k);
    }
  }

  lemma ObjectChangeKeeps(s: Setting, w: World, t: Target, d: Down)
    requires Consistent(s, w) && t in s.confs
    requires d.namespaces == w.down[t].namespaces && w.down[t].seen <= d.seen
    requires forall k | k in d.objects && d.objects[k].Copy? ::
               || (k in w.down[t].objects && w.down[t].objects[k].Copy? && w.down[t].objects[k].origin == d.objects[k].origin
                   && HasLabel(s.confs[t].target, d.objects[k].body))
               || CopyConsistent(s, s.confs[t], w.up, d, k)
    requires forall k | k in d.seen && k !in w.down[t].seen :: SeenConsistent(s, k)
    ensures Consistent(s, SetDown(w, t, d))
  {
    forall k | k in d.objects && d.objects[k].Copy? ensures CopyConsistent(s, s.confs[t], w.up, d, k) {
      if k in w.down[t].objects && w.down[t].objects[k].Copy? && w.down[t].objects[k].origin == d.objects[k].origin {
        assert CopyConsistent(s, s.confs[t], w.up, w.down[t], k);
      }
    }
  }

  lemma RemoveKeeps(s: Setting, w: World, t: Target, k: DownKey)
    requires Consistent(s, w) && t in s.confs
    ensures Consistent(s, SetDown(w, t, Remove(w.down[t], k)))
  {
    forall k' | k' in w.down[t].objects && w.down[t].objects[k'].Copy?
      ensures HasLabel(s.confs[t].target, w.down[t].objects[k'].body)
    {
      assert CopyConsistent(s, s.confs[t], w.up, w.down[t], k');
    }
    ObjectChangeKeeps(s, w, t, Remove(w.down[t], k));
  }

  lemma ApplyKeeps(s: Setting, w: World, t: Target, u: UpKey, n: string, o: KubeObject, sent: KubeObject)
    requires Sound(s) && Consistent(s, w) && t in s.confs
    requires View(w.up, t, u) == Some(o) && HasFinalizer(o, t) && HasLabel(t, sent)
    requires n in w.down[t].namespaces && LocatorOf(s.deps.codec, w.down[t].namespaces[n]) == Found(Desired(s.confs[t], u))
    ensures Consistent(s, SetDown(w, t, Apply(w.down[t], CopyKey(u, n, o), u, sent)))
  {
    var c, d, k := s.confs[t], w.down[t], CopyKey(u, n, o);
    NameOfConforming(s, u, o);
    SeenName(s, u.gvr, u.name, n);
    var d' := Apply(d, k, u, sent);
    forall k' | k' in d.objects && d.objects[k'].Copy? ensures HasLabel(t, d.objects[k'].body) {
      assert CopyConsistent(s, c, w.up, d, k');
    }
    assert CopyConsistent(s, c, w.up, d', k);
    ObjectChangeKeeps(s, w, t, d');
  }

  /** The spec step once the namespace is in place. */
  lemma SyncObjectKeeps(s: Setting, w: World, t: Target, u: UpKey, n: string, o: KubeObject, dns: Dns)
    requires Sound(s) && Consistent(s, w) && t in s.confs
    requires View(w.up, t, u) == Some(o)
    requires n in w.down[t].namespaces && LocatorOf(s.deps.codec, w.down[t].namespaces[n]) == Found(Desired(s.confs[t], u))
    ensures Consistent(s, SyncObject(s.confs[t], s.deps, w, u, n, o, FreshReads(w, t, u, dns)).world)
  {
    var c, d := s.confs[t], w.down[t];
    NameOfConforming(s, u, o);
    SeenName(s, u.gvr, u.name, n);
    CopiesOfAreAt(s, c, w.up, d, u, n);
    var k := CopyKey(u, n, o);
    if NeedsClaim(o, t) {
      PutClaimKeeps(s, w, t, u);
    } else if ToBeRemoved(o, t) {
      if k in d.objects {
        RemoveKeeps(s, w, t, k);
      } else {
        ReleaseKeeps(s, w, t, u);
      }
    } else if Downstream(c, s.deps, u.gvr, o).Some? {
      ApplyKeeps(s, w, t, u, n, o, Downstream(c, s.deps, u.gvr, o).value);
    }
  }

  lemma PutClaimKeeps(s: Setting, w: World, t: Target, u: UpKey)
    requires Sound(s) && Consistent(s, w) && t in s.confs && u in w.up
    ensures Consistent(s, w.(up := Put(w.up, u, Claimed(w.up[u], t))))
  {
    forall t', k | t' in s.confs && k in w.down[t'].objects && w.down[t'].objects[k].Copy?
      && w.down[t'].objects[k].origin == u ensures HasFinalizer(Claimed(w.up[u], t), s.confs[t'].target)
    {
      assert CopyConsistent(s, s.confs[t'], w.up, w.down[t'], k);
    }
    PutKeeps(s, w, u, Claimed(w.up[u], t));
  }

  lemma SpecKeeps(s: Setting, w: World, t: Target, u: UpKey, dns: Dns)
    requires Sound(s) && Consistent(s, w) && t in s.confs
    ensures Consistent(s, SpecStep(s.confs[t], s.deps, w, u, FreshReads(w, t, u, dns)).world)
  {
    var c, d := s.confs[t], w.down[t];
    var found := TargetNamespace(c, s.deps, d, u);
    if found.Some? {
      var n := found.value;
      var read := View(w.up, t, u);
      if read.None? {
        ObjectChangeKeeps(s, w, t, Remove(d, DownKey(u.gvr, n, u.name)));
      } else if NamespaceUsable(s.deps, d.namespaces, n, Desired(c, u)) {
        EnsureNamespaceKeeps(s, c, w.up, d, u, n);
        var w' := SetDown(w, t, EnsureNamespace(s.deps, d, n, Desired(c, u)));
        assert Consistent(s, w');
        SyncObjectKeeps(s, w', t, u, n, read.value, dns);
      }
    }
  }

  /** A spec step on an object it does not see changes downstream objects alone. */
  lemma UnseenStepIs(c: Conf, deps: Deps, w: World, u: UpKey, dns: Dns)
    requires c.target in w.down && View(w.up, c.target, u).None?
    ensures var r := SpecStep(c, deps, w, u, FreshReads(w, c.target, u, dns)).world;
            c.target in r.down && SetDown(r, c.target, r.down[c.target].(objects := w.down[c.target].objects)) == w
  {
    var r := SpecStep(c, deps, w, u, FreshReads(w, c.target, u, dns)).world;
    assert SetDown(r, c.target, r.down[c.target].(objects := w.down[c.target].objects)).down == w.down;
  }

  /** Deleting is the only way in which syncing an object removes one. */
  lemma SyncRemovesOnlyByDelete(c: Conf, deps: Deps, w: World, u: UpKey, n: string, o: KubeObject, input: Reads, k: DownKey)
    requires c.target in w.down
    requires k in w.down[c.target].objects && k !in SyncObject(c, deps, w, u, n, o, input).world.down[c.target].objects
    ensures SyncObject(c, deps, w, u, n, o, input).world == SetDown(w, c.target, Remove(w.down[c.target], CopyKey(u, n, o)))
  {
  }

  lemma PutBack(w: World, t: Target, d: Down, k: DownKey)
    requires t in w.down && d.objects == w.down[t].objects
    ensures var r := SetDown(SetDown(w, t, d), t, Remove(d, k));
            SetDown(r, t, r.down[t].(objects := w.down[t].objects)) == SetDown(w, t, d)
  {
    var r := SetDown(SetDown(w, t, d), t, Remove(d, k));
    assert r.down[t].(objects := w.down[t].objects) == d;
    assert SetDown(r, t, d).down == SetDown(w, t, d).down;
  }

  /** A delete that leaves the object terminating changes nothing but the namespace. */
  lemma SeenTerminatingKeeps(s: Setting, w: World, t: Target, u: UpKey, n: string, dns: Dns, k: DownKey)
    requires Sound(s) && Consistent(s, w) && t in s.confs && View(w.up, t, u).Some?
    requires TargetNamespace(s.confs[t], s.deps, w.down[t], u) == Some(n)
    requires NamespaceUsable(s.deps, w.down[t].namespaces, n, Desired(s.confs[t], u))
    requires var w1 := SetDown(w, t, EnsureNamespace(s.deps, w.down[t], n, Desired(s.confs[t], u)));
             var r := SyncObject(s.confs[t], s.deps, w1, u, n, w.up[u], FreshReads(w, t, u, dns)).world;
             k in w.down[t].objects && k !in r.down[t].objects
    ensures var w1 := SetDown(w, t, EnsureNamespace(s.deps, w.down[t], n, Desired(s.confs[t], u)));
            var r := SyncObject(s.confs[t], s.deps, w1, u, n, w.up[u], FreshReads(w, t, u, dns)).world;
            Consistent(s, SetDown(r, t, r.down[t].(objects := w.down[t].objects)))
  {
    var c := s.confs[t];
    var d1 := EnsureNamespace(s.deps, w.down[t], n, Desired(c, u));
    SyncRemovesOnlyByDelete(c, s.deps, SetDown(w, t, d1), u, n, w.up[u], FreshReads(w, t, u, dns), k);
    PutBack(w, t, d1, CopyKey(u, n, w.up[u]));
    EnsureNamespaceKeeps(s, c, w.up, w.down[t], u, n);
  }

  lemma SpecTerminatingKeeps(s: Setting, w: World, t: Target, u: UpKey, dns: Dns)
    requires Sound(s) && Consistent(s, w) && t in s.confs
    ensures Consistent(s, Next(s, w, SpecTerminating(t, u, dns)))
  {
    var c, d := s.confs[t], w.down[t];
    var r := SpecStep(c, s.deps, w, u, FreshReads(w, t, u, dns)).world;
    SpecKeeps(s, w, t, u, dns);
    if k :| k in d.objects && k !in r.down[t].objects {
      if View(w.up, t, u).None? {
        UnseenStepIs(c, s.deps, w, u, dns);
      } else {
        SeenTerminatingKeeps(s, w, t, u, TargetNamespace(c, s.deps, d, u).value, dns, k);
      }
    }
  }

  /** A status step that finds no copy at its key releases an object without copies. */
  lemma StatusReleaseKeeps(s: Setting, w: World, t: Target, k: DownKey, u: UpKey)
    requires Sound(s) && Consistent(s, w) && t in s.confs && k in w.down[t].seen
    requires WayBack(s.confs[t], s.deps, w.down[t], k) == Some(u)
    requires !IsListed(t, w.down[t], k)
    ensures Consistent(s, w.(up := EnsureReleased(w.up, u, t, View(w.up, t, u))))
  {
    assert SeenConsistent(s, k);
    LocatorIsDesired(s.confs[t], s.deps, w.down[t].namespaces, k.ns, u);
    UnlistedHasNoCopy(s, s.confs[t], w.up, w.down[t], u, k.ns);
    ReleaseKeeps(s, w, t, u);
  }

  lemma StatusWriteKeeps(s: Setting, w: World, t: Target, u: UpKey, status: Json)
    requires Sound(s) && Consistent(s, w) && t in s.confs && u in w.up
    ensures Consistent(s, w.(up := Put(w.up, u, WithStatus(s.confs[t], s.deps, w.up[u], status))))
  {
    var o := WithStatus(s.confs[t], s.deps, w.up[u], status);
    forall t', k' | t' in s.confs && k' in w.down[t'].objects && w.down[t'].objects[k'].Copy?
      && w.down[t'].objects[k'].origin == u ensures HasFinalizer(o, s.confs[t'].target)
    {
      assert CopyConsistent(s, s.confs[t'], w.up, w.down[t'], k');
    }
    PutKeeps(s, w, u, o);
  }

  lemma StatusKeeps(s: Setting, w: World, t: Target, k: DownKey)
    requires Sound(s) && Consistent(s, w) && t in s.confs && k in w.down[t].seen
    ensures Consistent(s, Next(s, w, Status(t, k)))
  {
    var c, d := s.confs[t], w.down[t];
    var back := WayBack(c, s.deps, d, k);
    if back.Some? {
      if !IsListed(t, d, k) {
        StatusReleaseKeeps(s, w, t, k, back.value);
      } else if View(w.up, t, back.value).Some? && d.objects[k].status.Some? {
        StatusWriteKeeps(s, w, t, back.value, d.objects[k].status.value);
      }
    }
  }

  /** A locator of this sync target in a consistent cluster is the one that the
      spec step would ask for. */
  lemma LocatorIsDesired(c: Conf, deps: Deps, namespaces: Namespaces, n: string, u: UpKey)
    requires NamespacesConsistent(c, deps, namespaces)
    requires n in namespaces && LocatorOf(deps.codec, namespaces[n]).Found?
    requires var l := LocatorOf(deps.codec, namespaces[n]).locator; Ours(c, l) && l.clusterName == u.cluster && l.ns == u.ns
    ensures LocatorOf(deps.codec, namespaces[n]) == Found(Desired(c, u))
  {
    var l := LocatorOf(deps.codec, namespaces[n]).locator;
    assert IsNormal(l);
    assert l.syncTarget.name == c.name;
  }

  lemma OutsideUpstreamKeeps(s: Setting, w: World, step: Step)
    requires Sound(s) && Consistent(s, w) && Enabled(s, w, step)
    requires step.CreateUpstream? || step.EditUpstream? || step.DeleteUpstream?
    ensures Consistent(s, Next(s, w, step))
  {
    var u := step.u;
    if step.CreateUpstream? {
      forall t, k | t in s.confs && k in w.down[t].objects && w.down[t].objects[k].Copy?
        ensures w.down[t].objects[k].origin in w.up && HasFinalizer(w.up[w.down[t].objects[k].origin], s.confs[t].target)
      {
        assert CopyConsistent(s, s.confs[t], w.up, w.down[t], k);
      }
      UpstreamChangeKeeps(s, w, w.up[u := step.o]);
    } else {
      var o := if step.EditUpstream? then step.o else w.up[u].(deleting := true);
      forall t, k | t in s.confs && k in w.down[t].objects && w.down[t].objects[k].Copy?
        && w.down[t].objects[k].origin == u ensures HasFinalizer(o, s.confs[t].target)
      {
        assert CopyConsistent(s, s.confs[t], w.up, w.down[t], k);
      }
      PutKeeps(s, w, u, o);
    }
  }

  lemma OutsideNamespaceKeeps(s: Setting, w: World, step: Step)
    requires Sound(s) && Consistent(s, w) && Enabled(s, w, step)
    requires step.CreateNamespace? || step.DeleteNamespace?
    ensures Consistent(s, Next(s, w, step))
  {
    var t := step.t;
    var d, d' := w.down[t], Next(s, w, step).down[t];
    forall k | k in d'.objects && d'.objects[k].Copy? ensures CopyConsistent(s, s.confs[t], w.up, d', k) {
      assert CopyConsistent(s, s.confs[t], w.up, d, k);
    }
    forall k | k in d'.seen ensures SeenConsistent(s, k) {
      assert k in d.seen;
    }
    assert NamespacesConsistent(s.confs[t], s.deps, d'.namespaces);
    forall t' | t' in s.confs ensures DownConsistent(s, s.confs[t'], w.up, Next(s, w, step).down[t']) {
    }
  }

  /** Copies stay labelled, and whatever else is labelled is named as a copy. */
  lemma OutsideObjectKeeps(s: Setting, w: World, step: Step)
    requires Sound(s) && Consistent(s, w) && Enabled(s, w, step)
    requires step.EditDownstream? || step.DeleteDownstream? || step.PlaceUnmanaged?
    ensures Consistent(s, Next(s, w, step))
  {
    var t := step.t;
    var d, d' := w.down[t], Next(s, w, step).down[t];
    forall k | k in d'.objects && d'.objects[k].Copy?
      ensures k in d.objects && d.objects[k].Copy? && d.objects[k].origin == d'.objects[k].origin
              && HasLabel(s.confs[t].target, d'.objects[k].body)
    {
      assert CopyConsistent(s, s.confs[t], w.up, d, k);
    }
    ObjectChangeKeeps(s, w, t, d');
  }

  lemma EditedNamespacesConsistent(c: Conf, deps: Deps, namespaces: Namespaces, n: string, ns: Namespace)
    requires NamespacesConsistent(c, deps, namespaces) && n in namespaces && WellBehavedEdit(c, deps, namespaces, n, ns)
    ensures NamespacesConsistent(c, deps, namespaces[n := ns])
  {
    if LocatorOf(deps.codec, ns) != LocatorOf(deps.codec, namespaces[n]) {
      assert forall m | m in namespaces && m != n :: m in namespaces - {n};
    }
  }

  lemma EditNamespaceKeeps(s: Setting, w: World, t: Target, n: string, ns: Namespace)
    requires Sound(s) && Consistent(s, w) && Enabled(s, w, EditNamespace(t, n, ns))
    ensures Consistent(s, Next(s, w, EditNamespace(t, n, ns)))
  {
    var c, d := s.confs[t], w.down[t];
    var d' := d.(namespaces := d.namespaces[n := ns]);
    EditedNamespacesConsistent(c, s.deps, d.namespaces, n, ns);
    forall k | k in d'.objects && d'.objects[k].Copy? ensures CopyConsistent(s, c, w.up, d', k) {
      assert CopyConsistent(s, c, w.up, d, k);
      assert Ours(c, Desired(c, d.objects[k].origin));
    }
    assert DownConsistent(s, c, w.up, d');
  }

  /** Every step of anybody keeps the invariant. */
  lemma StepKeeps(s: Setting, w: World, step: Step)
    requires Sound(s) && Consistent(s, w) && Enabled(s, w, step)
    ensures Consistent(s, Next(s, w, step))
  {
    match step
    case Spec(t, u, dns) => SpecKeeps(s, w, t, u, dns);
    case SpecTerminating(t, u, dns) => SpecTerminatingKeeps(s, w, t, u, dns);
    case Status(t, k) => StatusKeeps(s, w, t, k);
    case CreateNamespace(_, _, _) => OutsideNamespaceKeeps(s, w, step);
    case EditNamespace(t, n, ns) => EditNamespaceKeeps(s, w, t, n, ns);
    case DeleteNamespace(_, _) => OutsideNamespaceKeeps(s, w, step);
    case EditDownstream(t, k, body, status) => OutsideObjectKeeps(s, w, step);
    case DeleteDownstream(t, k) => OutsideObjectKeeps(s, w, step);
    case PlaceUnmanaged(t, k, body, status) => OutsideObjectKeeps(s, w, step);
    case _ => OutsideUpstreamKeeps(s, w, step);
  }

  // ----- runs -----

  /** Where runs begin: conforming upstream objects, at most one namespace per
      locator of each sync target, and nothing synced yet. */
  ghost predicate Initial(s: Setting, w: World) {
    && (forall u | u in w.up :: Conforms(s, u, w.up[u]))
    && (forall t | t in s.confs ::
          && t in w.down && NamespacesConsistent(s.confs[t], s.deps, w.down[t].namespaces)
          && (forall k | k in w.down[t].seen :: SeenConsistent(s, k))
          && forall k | k in w.down[t].objects :: w.down[t].objects[k].Unmanaged?)
  }

  ghost predicate Leads(s: Setting, w: World, step: Step, w': World) {
    Enabled(s, w, step) && w' == Next(s, w, step)
  }

  /** A run: any steps by anybody, in any order, and the states between them. */
  ghost predicate IsRun(s: Setting, worlds: seq<World>, steps: seq<Step>) {
    && |worlds| == |steps| + 1 && Initial(s, worlds[0])
    && forall i | 0 <= i < |steps| :: Leads(s, worlds[i], steps[i], worlds[i + 1])
  }

  lemma {:induction false} RunKeeps(s: Setting, worlds: seq<World>, steps: seq<Step>, i: nat)
    requires Sound(s) && IsRun(s, worlds, steps) && i < |worlds|
    ensures Consistent(s, worlds[i])
    decreases i
  {
    if i > 0 {
      RunKeeps(s, worlds, steps, i - 1);
      assert Leads(s, worlds[i - 1], steps[i - 1], worlds[i - 1 + 1]);
      StepKeeps(s, worlds[i - 1], steps[i - 1]);
    }
  }

  /** Main result: in every state of every run, whenever a sync target has a copy,
      the upstream object exists and carries the finalizer of that target. */
  lemma CopiesAreOwned(s: Setting, worlds: seq<World>, steps: seq<Step>, i: nat)
    requires Sound(s) && IsRun(s, worlds, steps) && i < |worlds|
    ensures Owned(s, worlds[i])
  {
    RunKeeps(s, worlds, steps, i);
    var w := worlds[i];
    forall t, k | t in s.confs && t in w.down && k in w.down[t].objects && w.down[t].objects[k].Copy?
      ensures w.down[t].objects[k].origin in w.up
      ensures HasFinalizer(w.up[w.down[t].objects[k].origin], s.confs[t].target)
    {
      assert CopyConsistent(s, s.confs[t], w.up, w.down[t], k);
    }
  }

  /** A copy that sync target `t` has at key `k`. */
  ghost predicate IsCopy(s: Setting, w: World, t: Target, k: DownKey) {
    t in s.confs && t in w.down && k in w.down[t].objects && w.down[t].objects[k].Copy?
  }

  /** Main result: in every state of every run, also when namespace names collide,
      all copies in one downstream namespace come from the upstream namespace that
      its locator names, and no upstream object has two copies on one target. */
  lemma NamespacesAreNotMixed(s: Setting, worlds: seq<World>, steps: seq<Step>, i: nat, t: Target, k: DownKey, k': DownKey)
    requires Sound(s) && IsRun(s, worlds, steps) && i < |worlds|
    requires IsCopy(s, worlds[i], t, k) && IsCopy(s, worlds[i], t, k')
    ensures var d := worlds[i].down[t];
            var u, u' := d.objects[k].origin, d.objects[k'].origin;
            && k.ns in d.namespaces && LocatorOf(s.deps.codec, d.namespaces[k.ns]) == Found(Desired(s.confs[t], u))
            && (k.ns == k'.ns <==> (u.cluster == u'.cluster && u.ns == u'.ns))
            && (k == k' <==> u == u')
  {
    RunKeeps(s, worlds, steps, i);
    NotMixed(s, worlds[i], t, k, k');
  }

  lemma NotMixed(s: Setting, w: World, t: Target, k: DownKey, k': DownKey)
    requires Consistent(s, w) && IsCopy(s, w, t, k) && IsCopy(s, w, t, k')
    ensures var d := w.down[t];
            var u, u' := d.objects[k].origin, d.objects[k'].origin;
            && k.ns in d.namespaces && LocatorOf(s.deps.codec, d.namespaces[k.ns]) == Found(Desired(s.confs[t], u))
            && (k.ns == k'.ns <==> (u.cluster == u'.cluster && u.ns == u'.ns))
            && (k == k' <==> u == u')
  {
    var d := w.down[t];
    assert CopyConsistent(s, s.confs[t], w.up, d, k);
    assert CopyConsistent(s, s.confs[t], w.up, d, k');
    var u, u' := d.objects[k].origin, d.objects[k'].origin;
    assert Conforms(s, u, w.up[u]) && Conforms(s, u', w.up[u']);
    SeenName(s, u.gvr, u.name, k.ns);
    SeenName(s, u'.gvr, u'.name, k'.ns);
  }

  /** Main result: in every state of every run, the downstream delete handler gets
      from a copy back to exactly the object it was made from, and so does the
      status controller unless the namespace is named like a syncer's own. */
  lemma CopiesLeadBack(s: Setting, worlds: seq<World>, steps: seq<Step>, i: nat, t: Target, k: DownKey)
    requires Sound(s) && IsRun(s, worlds, steps) && i < |worlds|
    requires IsCopy(s, worlds[i], t, k)
    ensures var d := worlds[i].down[t];
            && DeleteHandler(s.confs[t], s.deps, d, k, d.objects[k].body)
               == (if Read(d.objects[k].body.labels, StateLabel(s.confs[t].target)) == UPSYNC then (None, [])
                   else (Some(d.objects[k].origin), [PlanCleaning(k.ns)]))
            && WayBack(s.confs[t], s.deps, d, k) == if SYNCER_ID_PREFIX <= k.ns then None else Some(d.objects[k].origin)
  {
    RunKeeps(s, worlds, steps, i);
    LeadsBack(s, worlds[i], t, k);
  }

  lemma LeadsBack(s: Setting, w: World, t: Target, k: DownKey)
    requires Consistent(s, w) && IsCopy(s, w, t, k)
    ensures var d := w.down[t];
            && DeleteHandler(s.confs[t], s.deps, d, k, d.objects[k].body)
               == (if Read(d.objects[k].body.labels, StateLabel(s.confs[t].target)) == UPSYNC then (None, [])
                   else (Some(d.objects[k].origin), [PlanCleaning(k.ns)]))
            && WayBack(s.confs[t], s.deps, d, k) == if SYNCER_ID_PREFIX <= k.ns then None else Some(d.objects[k].origin)
  {
    var d := w.down[t];
    assert CopyConsistent(s, s.confs[t], w.up, d, k);
    var u := d.objects[k].origin;
    assert Conforms(s, u, w.up[u]);
    SeenName(s, u.gvr, u.name, k.ns);
    assert Ours(s.confs[t], Desired(s.confs[t], u));
  }

  // ----- addressing of a single step -----

  /** Main result: the namespace and name that the spec step chooses lead back to
      the object exactly when its name is not reserved and, for the status
      controller, the namespace is not named like a syncer's own. */
  lemma AddressRoundTrip(c: Conf, deps: Deps, d: Down, u: UpKey, n: string, o: KubeObject, body: KubeObject)
    requires Lawful(deps.codec)
    requires TargetNamespace(c, deps, d, u) == Some(n) && NamespaceUsable(deps, d.namespaces, n, Desired(c, u))
    requires n in d.namespaces ==> d.namespaces[n].watched
    ensures var d' := EnsureNamespace(deps, d, n, Desired(c, u));
            && (WayBack(c, deps, d', CopyKey(u, n, o)) == Some(u) <==> !Reserved(u.gvr, u.name) && !(SYNCER_ID_PREFIX <= n))
            && (DeleteHandler(c, deps, d', CopyKey(u, n, o), body).0 == Some(u)
                <==> !Reserved(u.gvr, u.name) && Read(body.labels, StateLabel(c.target)) != UPSYNC)
  {
    NewNamespaceLocator(c, deps, u);
    NameRoundTrip(u.gvr, u.name, OfDefaultAccount(o.annotations));
    var d' := EnsureNamespace(deps, d, n, Desired(c, u));
    assert LocatorOf(deps.codec, d'.namespaces[n]) == Found(Desired(c, u));
  }

  /** Main result: once the namespace exists, two objects with names that are not
      reserved are never sent to the same downstream key. */
  lemma AddressesInjective(c: Conf, deps: Deps, d: Down, n: string, u: UpKey, o: KubeObject, u': UpKey, o': KubeObject)
    requires n in d.namespaces
    requires NamespaceUsable(deps, d.namespaces, n, Desired(c, u)) && NamespaceUsable(deps, d.namespaces, n, Desired(c, u'))
    requires !Reserved(u.gvr, u.name) && !Reserved(u'.gvr, u'.name)
    requires CopyKey(u, n, o) == CopyKey(u', n, o')
    ensures u == u'
  {
    NamesInjective(u.gvr, u.name, OfDefaultAccount(o.annotations), u'.name, OfDefaultAccount(o'.annotations));
  }
}
