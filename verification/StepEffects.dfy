/** The spec and the status step said in one piece, on the fields of what is read and
    written: which way a step goes, what it ends with, and everything it changes
    (pkg/syncer/spec/spec_process.go, pkg/syncer/shared/finalizer.go,
    pkg/syncer/status/status_process.go). */
module StepEffects {
  import opened Wrappers
  import opened Json
  import opened Kube
  import opened Naming
  import opened Locators
  import opened Finalizers
  import opened Syncer
  import opened CopyContents

  // ----- what is decided on -----

  predicate Says(o: KubeObject, a: Annotation) {
    a in o.annotations && o.annotations[a] != ""
  }

  /** The object is to go from the target, and nobody holds it. */
  predicate ToGo(o: KubeObject, t: Target) {
    Says(o, DeletionAnn(t)) && !Says(o, SoftFinalizerAnn(t))
  }

  predicate Unclaimed(o: KubeObject, t: Target) {
    !ToGo(o, t) && forall f | f in o.finalizers :: f != SyncerFinalizer(t)
  }

  /** The locator of the namespace that belongs to an upstream object. */
  function LocatorFor(c: Conf, u: UpKey): Locator {
    Locator(SyncTargetLocator(c.clusterName, "", c.name, c.uid), u.cluster, u.ns)
  }

  /** The listed namespaces that carry it. */
  function CarriersOf(c: Conf, deps: Deps, d: Down, u: UpKey): set<string> {
    set n | n in d.namespaces && d.namespaces[n].watched && LocatorOf(deps.codec, d.namespaces[n]) == Found(LocatorFor(c, u))
  }

  /** The one namespace that carries the locator, or the one that is to be made. */
  ghost predicate IsNamespaceFor(c: Conf, deps: Deps, d: Down, u: UpKey, n: string) {
    CarriersOf(c, deps, d, u) == {n} || (CarriersOf(c, deps, d, u) == {} && n == deps.namespaceName(LocatorFor(c, u)))
  }

  lemma NamespaceIsFound(c: Conf, deps: Deps, d: Down, u: UpKey)
    requires Lawful(deps.codec)
    ensures forall n :: TargetNamespace(c, deps, d, u) == Some(n) <==> IsNamespaceFor(c, deps, d, u, n)
  {
    IndexIsScan(deps.codec, d.namespaces, LocatorFor(c, u));
    assert CarriersOf(c, deps, d, u) == ByIndex(deps.codec, d.namespaces, deps.codec.encode(Desired(c, u)));
  }

  // ----- the ways of a spec step -----

  datatype Way = Taken | DnsFails | Waits | Claims | Deletes | GivesUp | Rejects | Applies

  /** Which way a spec step goes with the object `o` in namespace `n`. */
  predicate Goes(c: Conf, deps: Deps, d: Down, u: UpKey, n: string, o: KubeObject, dns: Dns, way: Way) {
    var usable := n in d.namespaces ==> LocatorOf(deps.codec, d.namespaces[n]) == Found(LocatorFor(c, u));
    var waits := dns.DnsNotReady? && u.gvr == Gvr("apps", "v1", "deployments");
    var goesOn := usable && !dns.DnsError? && !waits;
    var owned := goesOn && !Unclaimed(o, c.target);
    match way
    case Taken => !usable
    case DnsFails => usable && dns.DnsError?
    case Waits => usable && waits
    case Claims => goesOn && Unclaimed(o, c.target)
    case Deletes => owned && ToGo(o, c.target) && CopyKey(u, n, o) in d.objects
    case GivesUp => owned && ToGo(o, c.target) && CopyKey(u, n, o) !in d.objects
    case Rejects => owned && !ToGo(o, c.target) && CannotBeSent(c, deps, u.gvr, o)
    case Applies => owned && !ToGo(o, c.target) && !CannotBeSent(c, deps, u.gvr, o)
  }

  /** The namespace is there afterwards with locator and tenant; what was there of it
      and of all others stays. */
  ghost predicate IsEnsured(c: Conf, deps: Deps, before: Namespaces, after: Namespaces, u: UpKey, n: string) {
    && after.Keys == before.Keys + {n}
    && (forall m | m in before && m != n :: after[m] == before[m])
    && after[n].tenant == Some(deps.tenantId(LocatorFor(c, u)))
    && (n in before ==> after[n].annotation == before[n].annotation && after[n].watched == before[n].watched)
    && (n !in before ==> after[n].annotation == Some(deps.codec.encode(LocatorFor(c, u))) && after[n].watched)
  }

  /** The object was written; the store drops it if it is deleted and nothing holds it. */
  ghost predicate IsWritten(before: Upstream, after: Upstream, u: UpKey, o: KubeObject) {
    && (u in after <==> !(o.deleting && o.finalizers == []))
    && (u in after ==> after[u] == o)
    && (forall v | v != u :: (v in after <==> v in before) && (v in before ==> after[v] == before[v]))
  }

  /** The object as it is when the target has let go of it. */
  ghost predicate IsLetGo(t: Target, o: KubeObject, o': KubeObject) {
    && SameForOthers(o, o', t) && SyncerFinalizer(t) !in o'.finalizers && StateLabel(t) !in o'.labels
    && StatusAnn(t) !in o'.annotations && DeletionAnn(t) !in o'.annotations
  }

  /** What becomes of the upstream store when the object was read as `read` and is to
      be given up. */
  ghost predicate IsGivenUp(t: Target, before: Upstream, after: Upstream, u: UpKey, read: Option<KubeObject>, outcome: Outcome) {
    if read.None? || !Says(read.value, DeletionAnn(t)) then after == before && outcome == Done
    else if !(u in before && before[u] == read.value) then after == before && outcome == Failed
    else outcome == Done && exists o' :: IsLetGo(t, read.value, o') && IsWritten(before, after, u, o')
  }

  /** Nothing happened to the downstream objects. */
  predicate SameObjects(d: Down, d': Down) {
    d'.objects == d.objects && d'.seen == d.seen
  }

  /** At `k` there is the copy of `o` with the status of what was there; all else is
      as it was. */
  ghost predicate IsApplied(c: Conf, deps: Deps, d: Down, d': Down, u: UpKey, o: KubeObject, k: DownKey) {
    && d'.objects.Keys == d.objects.Keys + {k} && d'.seen == d.seen + {k}
    && (forall m | m in d.objects && m != k :: d'.objects[m] == d.objects[m])
    && d'.objects[k].Copy? && d'.objects[k].origin == u && Carries(c, deps, u.gvr, o, d'.objects[k].body)
    && d'.objects[k].status == if k in d.objects then d.objects[k].status else None
  }

  /** What the step leaves, by the way it went. */
  ghost predicate Leaves(c: Conf, deps: Deps, w: World, u: UpKey, n: string, o: KubeObject, again: Option<KubeObject>, way: Way, r: StepResult)
    requires c.target in w.down
  {
    var t := c.target;
    && r.world.down.Keys == w.down.Keys
    && (forall other | other in w.down && other != t :: r.world.down[other] == w.down[other])
    && var d, d' := w.down[t], r.world.down[t];
       && (if way == Taken then d' == d else IsEnsured(c, deps, d.namespaces, d'.namespaces, u, n))
       && (way != Claims && way != GivesUp ==> r.world.up == w.up)
       && r.calls == [CancelCleaning(n)] + (if way == Deletes then [PlanCleaning(n)] else [])
       && match way
          case Taken => r.outcome == Failed
          case DnsFails => r.outcome == Failed && SameObjects(d, d')
          case Waits => r.outcome == RetryLater && SameObjects(d, d')
          case Rejects => r.outcome == Failed && SameObjects(d, d')
          case Claims =>
            && SameObjects(d, d')
            && if u in w.up && w.up[u] == o
               then r.outcome == Done && IsWritten(w.up, r.world.up, u, o.(finalizers := o.finalizers + [SyncerFinalizer(t)]))
               else r.outcome == Failed && r.world.up == w.up
          case Deletes => r.outcome == Done && d'.seen == d.seen && d'.objects == d.objects - {CopyKey(u, n, o)}
          case GivesUp => SameObjects(d, d') && IsGivenUp(t, w.up, r.world.up, u, again, r.outcome)
          case Applies => r.outcome == Done && IsApplied(c, deps, d, d', u, o, CopyKey(u, n, o))
  }

  lemma ReleaseIs(t: Target, up: Upstream, u: UpKey, read: Option<KubeObject>)
    ensures IsGivenUp(t, up, EnsureReleased(up, u, t, read), u, read, if Conflicts(up, u, t, read) then Failed else Done)
  {
    if read.Some? && Says(read.value, DeletionAnn(t)) && u in up && up[u] == read.value {
      var o' := Released(read.value, t);
      ReleaseIsLocal(read.value, t, t + "-");
      ReleasedShare(read.value, t);
      assert IsLetGo(t, read.value, o');
      assert IsWritten(up, EnsureReleased(up, u, t, read), u, o');
    }
  }

  lemma EnsureIs(c: Conf, deps: Deps, d: Down, u: UpKey, n: string)
    requires NamespaceUsable(deps, d.namespaces, n, Desired(c, u))
    ensures var d' := EnsureNamespace(deps, d, n, Desired(c, u));
            IsEnsured(c, deps, d.namespaces, d'.namespaces, u, n) && SameObjects(d, d')
  {
  }

  lemma ApplyIs(c: Conf, deps: Deps, d: Down, u: UpKey, o: KubeObject, k: DownKey)
    requires Downstream(c, deps, u.gvr, o).Some?
    ensures IsApplied(c, deps, d, Apply(d, k, u, Downstream(c, deps, u.gvr, o).value), u, o, k)
  {
    SentCarries(c, deps, u.gvr, o);
  }

  /** The step in a namespace that it can use. */
  function Ensured(c: Conf, deps: Deps, w: World, u: UpKey, n: string, o: KubeObject, input: Reads): StepResult
    requires c.target in w.down
  {
    var r := SyncObject(c, deps, SetDown(w, c.target, EnsureNamespace(deps, w.down[c.target], n, Desired(c, u))), u, n, o, input);
    r.(calls := [CancelCleaning(n)] + r.calls)
  }

  lemma DnsFailsIs(c: Conf, deps: Deps, w: World, u: UpKey, n: string, o: KubeObject, input: Reads)
    requires c.target in w.down && Goes(c, deps, w.down[c.target], u, n, o, input.dns, DnsFails)
    ensures Leaves(c, deps, w, u, n, o, input.again, DnsFails, Ensured(c, deps, w, u, n, o, input))
  {
    EnsureIs(c, deps, w.down[c.target], u, n);
  }

  lemma WaitsIs(c: Conf, deps: Deps, w: World, u: UpKey, n: string, o: KubeObject, input: Reads)
    requires c.target in w.down && Goes(c, deps, w.down[c.target], u, n, o, input.dns, Waits)
    ensures Leaves(c, deps, w, u, n, o, input.again, Waits, Ensured(c, deps, w, u, n, o, input))
  {
    EnsureIs(c, deps, w.down[c.target], u, n);
  }

  lemma ClaimsIs(c: Conf, deps: Deps, w: World, u: UpKey, n: string, o: KubeObject, input: Reads)
    requires c.target in w.down && Goes(c, deps, w.down[c.target], u, n, o, input.dns, Claims)
    ensures Leaves(c, deps, w, u, n, o, input.again, Claims, Ensured(c, deps, w, u, n, o, input))
  {
    EnsureIs(c, deps, w.down[c.target], u, n);
  }

  lemma DeletesIs(c: Conf, deps: Deps, w: World, u: UpKey, n: string, o: KubeObject, input: Reads)
    requires c.target in w.down && Goes(c, deps, w.down[c.target], u, n, o, input.dns, Deletes)
    ensures Leaves(c, deps, w, u, n, o, input.again, Deletes, Ensured(c, deps, w, u, n, o, input))
  {
    EnsureIs(c, deps, w.down[c.target], u, n);
  }

  lemma GivesUpResult(c: Conf, deps: Deps, w: World, u: UpKey, n: string, o: KubeObject, input: Reads)
    requires c.target in w.down && Goes(c, deps, w.down[c.target], u, n, o, input.dns, GivesUp)
    ensures var t := c.target;
            Ensured(c, deps, w, u, n, o, input)
            == StepResult(World(EnsureReleased(w.up, u, t, input.again),
                                w.down[t := EnsureNamespace(deps, w.down[t], n, Desired(c, u))]),
                          if Conflicts(w.up, u, t, input.again) then Failed else Done, [CancelCleaning(n)])
  {
  }

  lemma GivesUpIs(c: Conf, deps: Deps, w: World, u: UpKey, n: string, o: KubeObject, input: Reads)
    requires c.target in w.down && Goes(c, deps, w.down[c.target], u, n, o, input.dns, GivesUp)
    ensures Leaves(c, deps, w, u, n, o, input.again, GivesUp, Ensured(c, deps, w, u, n, o, input))
  {
    EnsureIs(c, deps, w.down[c.target], u, n);
    GivesUpResult(c, deps, w, u, n, o, input);
    ReleaseIs(c.target, w.up, u, input.again);
  }

  lemma RejectsIs(c: Conf, deps: Deps, w: World, u: UpKey, n: string, o: KubeObject, input: Reads)
    requires c.target in w.down && Goes(c, deps, w.down[c.target], u, n, o, input.dns, Rejects)
    ensures Leaves(c, deps, w, u, n, o, input.again, Rejects, Ensured(c, deps, w, u, n, o, input))
  {
    EnsureIs(c, deps, w.down[c.target], u, n);
    SentCarries(c, deps, u.gvr, o);
  }

  lemma AppliesResult(c: Conf, deps: Deps, w: World, u: UpKey, n: string, o: KubeObject, input: Reads)
    requires c.target in w.down && Goes(c, deps, w.down[c.target], u, n, o, input.dns, Applies)
    ensures Downstream(c, deps, u.gvr, o).Some?
    ensures var t := c.target;
            var d := Apply(EnsureNamespace(deps, w.down[t], n, Desired(c, u)), CopyKey(u, n, o), u, Downstream(c, deps, u.gvr, o).value);
            Ensured(c, deps, w, u, n, o, input) == StepResult(World(w.up, w.down[t := d]), Done, [CancelCleaning(n)])
  {
    SentCarries(c, deps, u.gvr, o);
  }

  lemma AppliesIs(c: Conf, deps: Deps, w: World, u: UpKey, n: string, o: KubeObject, input: Reads)
    requires c.target in w.down && Goes(c, deps, w.down[c.target], u, n, o, input.dns, Applies)
    ensures Leaves(c, deps, w, u, n, o, input.again, Applies, Ensured(c, deps, w, u, n, o, input))
  {
    EnsureIs(c, deps, w.down[c.target], u, n);
    AppliesResult(c, deps, w, u, n, o, input);
    ApplyIs(c, deps, EnsureNamespace(deps, w.down[c.target], n, Desired(c, u)), u, o, CopyKey(u, n, o));
  }

  lemma SyncIs(c: Conf, deps: Deps, w: World, u: UpKey, n: string, o: KubeObject, input: Reads, way: Way)
    requires c.target in w.down && Goes(c, deps, w.down[c.target], u, n, o, input.dns, way) && way != Taken
    ensures Leaves(c, deps, w, u, n, o, input.again, way, Ensured(c, deps, w, u, n, o, input))
  {
    match way
    case DnsFails => DnsFailsIs(c, deps, w, u, n, o, input);
    case Waits => WaitsIs(c, deps, w, u, n, o, input);
    case Claims => ClaimsIs(c, deps, w, u, n, o, input);
    case Deletes => DeletesIs(c, deps, w, u, n, o, input);
    case GivesUp => GivesUpIs(c, deps, w, u, n, o, input);
    case Rejects => RejectsIs(c, deps, w, u, n, o, input);
    case Applies => AppliesIs(c, deps, w, u, n, o, input);
  }

  /** Main result: a spec step that reads an object goes exactly one way, and leaves
      exactly what that way says of the two stores, the outcome and the cleaner. */
  lemma SpecStepLeaves(c: Conf, deps: Deps, w: World, u: UpKey, n: string, input: Reads, way: Way)
    requires Lawful(deps.codec) && c.target in w.down && input.first.Some?
    requires IsNamespaceFor(c, deps, w.down[c.target], u, n)
    requires Goes(c, deps, w.down[c.target], u, n, input.first.value, input.dns, way)
    ensures Leaves(c, deps, w, u, n, input.first.value, input.again, way, SpecStep(c, deps, w, u, input))
    ensures forall other | Goes(c, deps, w.down[c.target], u, n, input.first.value, input.dns, other) :: other == way
  {
    NamespaceIsFound(c, deps, w.down[c.target], u);
    if way != Taken { SyncIs(c, deps, w, u, n, input.first.value, input, way); }
  }

  lemma SomeWayIsGone(c: Conf, deps: Deps, d: Down, u: UpKey, n: string, o: KubeObject, dns: Dns)
    ensures exists way :: Goes(c, deps, d, u, n, o, dns, way)
  {
    var usable := n in d.namespaces ==> LocatorOf(deps.codec, d.namespaces[n]) == Found(LocatorFor(c, u));
    var way :=
      if !usable then Taken
      else if dns.DnsError? then DnsFails
      else if dns.DnsNotReady? && u.gvr == Gvr("apps", "v1", "deployments") then Waits
      else if Unclaimed(o, c.target) then Claims
      else if ToGo(o, c.target) then (if CopyKey(u, n, o) in d.objects then Deletes else GivesUp)
      else if CannotBeSent(c, deps, u.gvr, o) then Rejects
      else Applies;
    assert Goes(c, deps, d, u, n, o, dns, way);
  }

  /** Main result: a spec step that reads no object empties the place under the
      upstream name and plans the cleaning of the namespace, and one that finds several
      namespaces does nothing; neither looks at what else it read. */
  lemma OtherSpecSteps(c: Conf, deps: Deps, w: World, u: UpKey, input: Reads)
    requires Lawful(deps.codec) && c.target in w.down
    ensures var r := SpecStep(c, deps, w, u, input);
            && ((exists n, m :: n != m && {n, m} <= CarriersOf(c, deps, w.down[c.target], u)) ==> r == StepResult(w, Failed, []))
            && forall n | IsNamespaceFor(c, deps, w.down[c.target], u, n) && input.first.None? ::
                 var d := w.down[c.target];
                 r == StepResult(w.(down := w.down[c.target := d.(objects := d.objects - {DownKey(u.gvr, n, u.name)})]),
                                 Done, [PlanCleaning(n)])
  {
    NamespaceIsFound(c, deps, w.down[c.target], u);
    if TargetNamespace(c, deps, w.down[c.target], u).Some? {
      var n := TargetNamespace(c, deps, w.down[c.target], u).value;
      assert IsNamespaceFor(c, deps, w.down[c.target], u, n);
    }
  }

  // ----- the status step -----

  /** The namespace of a downstream key carries a locator of this sync target, and is
      not one of a syncer's own. */
  ghost predicate IsFollowed(c: Conf, deps: Deps, d: Down, k: DownKey, l: Locator) {
    && !("kcp-syncer-" <= k.ns) && k.ns in d.namespaces && d.namespaces[k.ns].watched
    && LocatorOf(deps.codec, d.namespaces[k.ns]) == Found(l)
    && l.syncTarget.uid == c.uid && l.syncTarget.clusterName == c.clusterName && l.ns != ""
  }

  /** The informers list an object at the key. */
  predicate IsInList(t: Target, d: Down, k: DownKey) {
    k in d.objects && DownstreamLabel in d.objects[k].body.labels && d.objects[k].body.labels[DownstreamLabel] == t
  }

  /** The object is in Upsync mode. */
  predicate IsUpsynced(t: Target, body: KubeObject) {
    StateLabel(t) in body.labels && body.labels[StateLabel(t)] == "Upsync"
  }

  /** What a status step makes of a copy with the given status. */
  ghost predicate IsStatusStored(c: Conf, deps: Deps, before: Upstream, after: Upstream, u: UpKey, status: Json,
                                 read: Option<KubeObject>, outcome: Outcome)
  {
    if read.None? then after == before && outcome == Failed
    else if c.advanced && StatusIsUpstream(c, deps, read.value, status) then after == before && outcome == Done
    else if !(u in before && before[u] == read.value) then after == before && outcome == Failed
    else
      outcome == Done && exists o' :: StatusIsUpstream(c, deps, o', status) && SameButStatus(c, read.value, o')
                                      && IsWritten(before, after, u, o')
  }

  lemma StatusStoredIs(c: Conf, deps: Deps, up: Upstream, u: UpKey, status: Json, o: KubeObject)
    requires !(c.advanced && StatusIsUpstream(c, deps, o, status))
    ensures IsStatusStored(c, deps, up, Update(up, u, o, WithStatus(c, deps, o, status)), u, status, Some(o),
                           if u in up && up[u] == o then Done else Failed)
  {
    var o' := WithStatus(c, deps, o, status);
    WrittenStatusIsUpstream(c, deps, o, status);
    if u in up && up[u] == o {
      assert IsWritten(up, Update(up, u, o, o'), u, o');
    }
  }

  /** Main result: a status step does nothing for a key whose namespace it does not
      follow; for others it gives the object up when nothing is listed at the key, and
      stores the status of what is listed, unless that has none or is in Upsync mode. */
  lemma StatusStepLeaves(c: Conf, deps: Deps, w: World, k: DownKey, read: Option<KubeObject>)
    requires c.target in w.down
    ensures var d, r := w.down[c.target], StatusStep(c, deps, w, k, read);
            && r.world.down == w.down && r.calls == []
            && ((forall l :: !IsFollowed(c, deps, d, k, l)) ==> r == StepResult(w, Done, []))
            && forall l | IsFollowed(c, deps, d, k, l) ::
                 var u := UpKey(k.gvr, l.clusterName, l.ns, UpstreamName(k.gvr, k.name));
                 if !IsInList(c.target, d, k) then IsGivenUp(c.target, w.up, r.world.up, u, read, r.outcome)
                 else if d.objects[k].status.None? || IsUpsynced(c.target, d.objects[k].body) then r == StepResult(w, Done, [])
                 else IsStatusStored(c, deps, w.up, r.world.up, u, d.objects[k].status.value, read, r.outcome)
  {
    var d, r := w.down[c.target], StatusStep(c, deps, w, k, read);
    var back := WayBack(c, deps, d, k);
    if back.Some? {
      var l := LocatorOf(deps.codec, d.namespaces[k.ns]).locator;
      assert IsFollowed(c, deps, d, k, l);
      if !IsInList(c.target, d, k) {
        ReleaseIs(c.target, w.up, back.value, read);
      } else if d.objects[k].status.Some? && read.Some? {
        WrittenStatusIsUpstream(c, deps, read.value, d.objects[k].status.value);
        if !(c.advanced && StatusIsUpstream(c, deps, read.value, d.objects[k].status.value)) {
          StatusStoredIs(c, deps, w.up, back.value, d.objects[k].status.value, read.value);
        }
      }
    }
  }

  /** The delete handler plans the cleaning of every namespace it can look up, and
      queues the upstream object of its locator, whoever's it is, unless the deleted
      object was in Upsync mode. */
  lemma DeleteIsReported(c: Conf, deps: Deps, d: Down, k: DownKey, body: KubeObject)
    ensures var r := DeleteHandler(c, deps, d, k, body);
            var reported := !IsUpsynced(c.target, body) && k.ns in d.namespaces && d.namespaces[k.ns].watched;
            && r.1 == (if reported then [PlanCleaning(k.ns)] else [])
            && forall u: UpKey :: r.0 == Some(u) <==>
                 && reported && d.namespaces[k.ns].annotation.Some?
                 && exists l: Locator :: deps.codec.decode(d.namespaces[k.ns].annotation.value) == Some(l) && l.ns != ""
                                         && u == UpKey(k.gvr, l.clusterName, l.ns, UpstreamName(k.gvr, k.name))
  {
  }

  /** A syncer is served exactly the objects whose state label for its target is Sync. */
  lemma ServedIff(w: World, t: Target, u: UpKey, dns: Dns, o: KubeObject)
    ensures FreshReads(w, t, u, dns).first == Some(o)
            <==> u in w.up && w.up[u] == o && StateLabel(t) in o.labels && o.labels[StateLabel(t)] == "Sync"
    ensures FreshReads(w, t, u, dns) == Reads(FreshReads(w, t, u, dns).first, FreshReads(w, t, u, dns).first, dns)
  {
  }
}
