/** Downstream objects that nobody synced: which of them a spec step destroys
    (pkg/syncer/spec/spec_process.go). */
module ForeignObjects {
  import opened Wrappers
  import opened Kube
  import opened Naming
  import opened Locators
  import opened Finalizers
  import opened Syncer
  import opened OwnershipLimits

  /** An object of others in the downstream cluster of the syncer. */
  predicate IsForeign(c: Conf, w: World, k: DownKey) {
    c.target in w.down && k in w.down[c.target].objects && w.down[c.target].objects[k].Unmanaged?
  }

  ghost function DownAfter(c: Conf, deps: Deps, w: World, u: UpKey, input: Reads): Down
    requires c.target in w.down
  {
    SpecStep(c, deps, w, u, input).world.down[c.target]
  }

  /** The key is the one that the step empties for an object it does not see. */
  ghost predicate IsUnseenKey(c: Conf, deps: Deps, d: Down, u: UpKey, input: Reads, k: DownKey) {
    input.first.None? && TargetNamespace(c, deps, d, u) == Some(k.ns) && k.gvr == u.gvr && k.name == u.name
  }

  /** The key is the one of the copy of the object that the step gets to. */
  ghost predicate IsCopyKey(c: Conf, deps: Deps, d: Down, u: UpKey, input: Reads, k: DownKey) {
    ReachesObject(c, deps, d, u, input, k.ns) && k == CopyKey(u, k.ns, input.first.value)
  }

  lemma SyncDestroysIff(c: Conf, deps: Deps, w: World, u: UpKey, n: string, o: KubeObject, input: Reads, k: DownKey)
    requires IsForeign(c, w, k)
    ensures var d, d' := w.down[c.target], SyncObject(c, deps, w, u, n, o, input).world.down[c.target];
            var reached := !input.dns.DnsError? && !(input.dns.DnsNotReady? && u.gvr == DEPLOYMENTS)
              && !NeedsClaim(o, c.target) && k == CopyKey(u, n, o);
            && (k !in d'.objects <==> reached && ToBeRemoved(o, c.target))
            && (k in d'.objects && d'.objects[k] != d.objects[k]
                <==> reached && !ToBeRemoved(o, c.target) && Downstream(c, deps, u.gvr, o).Some?)
            && (k in d'.objects && d'.objects[k] != d.objects[k] ==> d'.objects[k].Copy?)
  {
  }

  /** Main result: an object that nobody synced is deleted by a spec step exactly
      when it sits under the upstream name of an object that the step does not see,
      or at the place of the copy of an object that is to go; it is overwritten
      exactly when it sits at the place of a copy that is applied; and nothing else
      ever happens to it. */
  lemma ForeignDestroyedIff(c: Conf, deps: Deps, w: World, u: UpKey, input: Reads, k: DownKey)
    requires IsForeign(c, w, k)
    ensures var d, d' := w.down[c.target], DownAfter(c, deps, w, u, input);
            && (k !in d'.objects
                <==> || IsUnseenKey(c, deps, d, u, input, k)
                     || (IsCopyKey(c, deps, d, u, input, k) && ToBeRemoved(input.first.value, c.target)))
            && (k in d'.objects && d'.objects[k] != d.objects[k]
                <==> && IsCopyKey(c, deps, d, u, input, k) && !ToBeRemoved(input.first.value, c.target)
                     && Downstream(c, deps, u.gvr, input.first.value).Some?)
            && (k in d'.objects && d'.objects[k] != d.objects[k] ==> d'.objects[k].Copy?)
  {
    var d := w.down[c.target];
    var found := TargetNamespace(c, deps, d, u);
    if found.Some? && input.first.Some? && NamespaceUsable(deps, d.namespaces, found.value, Desired(c, u)) {
      var ensured := SetDown(w, c.target, EnsureNamespace(deps, d, found.value, Desired(c, u)));
      SyncDestroysIff(c, deps, ensured, u, found.value, input.first.value, input, k);
    }
  }

  lemma ForeignLocatorIsHashed(c: Conf, deps: Deps, d: Down, u: UpKey, n: string)
    requires Lawful(deps.codec) && n in d.namespaces && LocatorOf(deps.codec, d.namespaces[n]) != Found(Desired(c, u))
    ensures TargetNamespace(c, deps, d, u) == Some(n)
            <==> FindNamespace(deps, d.namespaces, Desired(c, u)).Absent? && deps.namespaceName(Desired(c, u)) == n
  {
    IndexIsScan(deps.codec, d.namespaces, Desired(c, u));
    assert n !in ByIndex(deps.codec, d.namespaces, deps.codec.encode(Desired(c, u)));
  }

  /** Main result: in a namespace that does not carry the locator of the upstream
      object, an object that nobody synced is touched exactly when the step does not
      see the upstream object, has no namespace for it yet, and the name hashed for
      that namespace is taken: the unseen path alone does not check the locator. */
  lemma ForeignNamespaceIsSafeIff(c: Conf, deps: Deps, w: World, u: UpKey, input: Reads, k: DownKey)
    requires Lawful(deps.codec) && IsForeign(c, w, k)
    requires var d := w.down[c.target];
             k.ns in d.namespaces && LocatorOf(deps.codec, d.namespaces[k.ns]) != Found(Desired(c, u))
    ensures var d, d' := w.down[c.target], DownAfter(c, deps, w, u, input);
            k in d'.objects && d'.objects[k] == d.objects[k]
            <==> !(&& input.first.None? && k.gvr == u.gvr && k.name == u.name
                   && FindNamespace(deps, d.namespaces, Desired(c, u)).Absent?
                   && deps.namespaceName(Desired(c, u)) == k.ns)
  {
    ForeignDestroyedIff(c, deps, w, u, input, k);
    ForeignLocatorIsHashed(c, deps, w.down[c.target], u, k.ns);
  }

  // ----- the root certificate -----

  function RootKey(): UpKey {
    UpKey(CONFIG_MAPS, "root", "default", KUBE_ROOT_CA)
  }

  function At(name: string): DownKey {
    DownKey(CONFIG_MAPS, "kcp-a", name)
  }

  const EMPTY := KubeObject([], map[], map[], false, map[], map[])

  /** The downstream cluster has a root certificate of its own beside the renamed
      copy of the upstream one, which just lost its state label. */
  function RootWorld(c: Conf, deps: Deps): World {
    World(map[RootKey() := EMPTY.(finalizers := [SyncerFinalizer(c.target)])],
          map[c.target := Down(map["kcp-a" := NewNamespace(deps, Desired(c, RootKey()))],
                               map[At(KUBE_ROOT_CA) := Unmanaged(EMPTY, None),
                                   At(KCP_ROOT_CA) := Copy(RootKey(), Sanitised(c.target, EMPTY), None)],
                               {At(KCP_ROOT_CA)})])
  }

  /** The spec step on an object it no longer sees deletes the certificate that
      belongs to the downstream cluster, keeps the renamed copy, and a second step
      does nothing more. */
  lemma UnseenRootCertificate(c: Conf, deps: Deps)
    requires Lawful(deps.codec)
    ensures var w, u := RootWorld(c, deps), RootKey();
            var w' := SpecStep(c, deps, w, u, FreshReads(w, c.target, u, DnsReady)).world;
            && c.target in w'.down && IsForeign(c, w, At(KUBE_ROOT_CA))
            && w'.down[c.target].objects == map[At(KCP_ROOT_CA) := w.down[c.target].objects[At(KCP_ROOT_CA)]]
            && w'.up == w.up && HasFinalizer(w'.up[u], c.target)
            && SpecStep(c, deps, w', u, FreshReads(w', c.target, u, DnsReady)).world == w'
  {
    var w, u := RootWorld(c, deps), RootKey();
    var d := w.down[c.target];
    assert View(w.up, c.target, u).None?;
    OnlyNamespace(c, deps, d, u);
    assert KUBE_ROOT_CA[1] != KCP_ROOT_CA[1];
    var d' := Remove(d, At(KUBE_ROOT_CA));
    var w' := SpecStep(c, deps, w, u, FreshReads(w, c.target, u, DnsReady)).world;
    assert w' == SetDown(w, c.target, d');
    OnlyNamespace(c, deps, d', u);
    assert Remove(d', At(KUBE_ROOT_CA)).objects == d'.objects;
    assert SetDown(w', c.target, Remove(d', At(KUBE_ROOT_CA))).down == w'.down;
  }
}
