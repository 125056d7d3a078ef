/** The spec and the status controller of one syncer as they run: each call reads,
    edits a copy, and writes to the upstream and downstream stores in place
    (pkg/syncer/spec/spec_process.go, pkg/syncer/shared/finalizer.go,
    pkg/syncer/status/status_process.go). Every method is proved against the step
    that the protocol is stated with. */
module SyncerControllers {
  import opened Wrappers
  import opened Kube
  import opened Naming
  import opened Locators
  import opened Finalizers
  import opened Syncer
  import opened CopyContents

  class Controllers {
    const c: Conf
    const deps: Deps
    var up: Upstream
    var down: map<Target, Down>
    var calls: seq<CleanerCall>

    constructor (c: Conf, deps: Deps, w: World)
      ensures this.c == c && this.deps == deps && Now() == w && calls == []
    {
      this.c, this.deps := c, deps;
      up, down, calls := w.up, w.down, [];
    }

    function Now(): World
      reads this
    {
      World(up, down)
    }

    /** The state and the cleaner calls after a step that returned `r`. */
    ghost predicate Is(r: StepResult, outcome: Outcome, earlier: seq<CleanerCall>)
      reads this
    {
      Now() == r.world && outcome == r.outcome && calls == earlier + r.calls
    }

    /** Writes an object that was read before; a stored object that moved on refuses. */
    method UpdateUpstream(u: UpKey, read: KubeObject, o: KubeObject) returns (outcome: Outcome)
      modifies this`up
      ensures up == Update(old(up), u, read, o)
      ensures outcome == if u in old(up) && old(up)[u] == read then Done else Failed
    {
      if u !in up || up[u] != read { return Failed; }
      up := Put(up, u, o);
      return Done;
    }

    method EnsureUpstreamFinalizerRemoved(u: UpKey, read: Option<KubeObject>) returns (outcome: Outcome)
      modifies this`up
      ensures up == EnsureReleased(old(up), u, c.target, read)
      ensures outcome == if Conflicts(old(up), u, c.target, read) then Failed else Done
    {
      if read.None? { return Done; }
      var o := read.value;
      if Read(o.annotations, DeletionAnn(c.target)) == "" { return Done; }
      var current := o.finalizers;
      var desired: seq<Finalizer> := [];
      for i := 0 to |current|
        invariant up == old(up) && desired == Without(current[..i], c.target)
      {
        assert current[..i + 1] == current[..i] + [current[i]];
        WithoutAppend(current[..i], [current[i]], c.target);
        WithoutOne(current[i], c.target);
        if current[i] != SyncerFinalizer(c.target) { desired := desired + [current[i]]; }
      }
      assert current[..|current|] == current;
      o := o.(finalizers := desired);
      o := o.(annotations := o.annotations - {StatusAnn(c.target)});
      o := o.(annotations := o.annotations - {DeletionAnn(c.target)});
      o := o.(labels := o.labels - {StateLabel(c.target)});
      ReleasedInSteps(read.value, c.target, o);
      outcome := UpdateUpstream(u, read.value, o);
    }

    method EnsureSyncerFinalizer(u: UpKey, o: KubeObject) returns (added: bool, failed: bool)
      modifies this`up
      ensures added || failed <==> NeedsClaim(o, c.target)
      ensures up == if NeedsClaim(o, c.target) then Update(old(up), u, o, Claimed(o, c.target)) else old(up)
      ensures NeedsClaim(o, c.target) ==> (added <==> u in old(up) && old(up)[u] == o) && failed == !added
    {
      var hasFinalizer := false;
      for i := 0 to |o.finalizers|
        invariant up == old(up)
        invariant hasFinalizer <==> SyncerFinalizer(c.target) in o.finalizers[..i]
      {
        if o.finalizers[i] == SyncerFinalizer(c.target) { hasFinalizer := true; }
      }
      var intendedToBeRemoved := Read(o.annotations, DeletionAnn(c.target)) != "";
      var stillOwned := Read(o.annotations, SoftFinalizerAnn(c.target)) != "";
      if hasFinalizer || (intendedToBeRemoved && !stillOwned) { return false, false; }
      var outcome := UpdateUpstream(u, o, o.(finalizers := o.finalizers + [SyncerFinalizer(c.target)]));
      return outcome == Done, outcome == Failed;
    }

    method EnsureDownstreamNamespaceExists(n: string, u: UpKey) returns (failed: bool)
      requires c.target in down
      modifies this`down, this`calls
      ensures calls == old(calls) + [CancelCleaning(n)]
      ensures failed <==> !NamespaceUsable(deps, old(down)[c.target].namespaces, n, Desired(c, u))
      ensures down == old(down)[c.target := EnsureNamespace(deps, old(down)[c.target], n, Desired(c, u))]
    {
      calls := calls + [CancelCleaning(n)];
      var d := down[c.target];
      var desired := Desired(c, u);
      var tenant := deps.tenantId(desired);
      if n !in d.namespaces {
        var created := Namespace(Some(deps.codec.encode(desired)), Some(tenant), true);
        down := down[c.target := d.(namespaces := d.namespaces[n := created])];
        return false;
      }
      assert down == down[c.target := d];
      var locator := LocatorOf(deps.codec, d.namespaces[n]);
      if !locator.Found? || locator.locator != desired { return true; }
      if d.namespaces[n].tenant != Some(tenant) {
        var repaired := d.namespaces[n].(tenant := Some(tenant));
        down := down[c.target := d.(namespaces := d.namespaces[n := repaired])];
      } else {
        assert d.namespaces[n := d.namespaces[n].(tenant := Some(tenant))] == d.namespaces;
      }
      return false;
    }

    /** Deletes a downstream object, whoever made it. */
    method DeleteDownstream(k: DownKey) returns (found: bool)
      requires c.target in down
      modifies this`down
      ensures found <==> k in old(down)[c.target].objects
      ensures down == old(down)[c.target := Remove(old(down)[c.target], k)]
    {
      var d := down[c.target];
      found := k in d.objects;
      down := down[c.target := Remove(d, k)];
    }

    /** The object to apply, edited field by field. */
    method TransformForDownstream(gvr: Gvr, o: KubeObject) returns (r: Option<KubeObject>)
      ensures r == Downstream(c, deps, gvr, o)
      ensures r.None? <==> CannotBeSent(c, deps, gvr, o)
      ensures r.Some? ==> Carries(c, deps, gvr, o, r.value.(content := r.value.content - {"status"}))
    {
      SentCarries(c, deps, gvr, o);
      var mutated := deps.mutate(gvr, o);
      if mutated.None? { return None; }
      var obj := mutated.value;
      obj := obj.(meta := obj.meta - {Uid, ResourceVersion});
      obj := obj.(meta := obj.meta - {ManagedFields});
      obj := obj.(annotations := obj.annotations - {ClusterAnn});
      obj := obj.(annotations := obj.annotations - {StatusAnn(c.target)});
      obj := obj.(deleting := false, meta := obj.meta - {GracePeriod});
      obj := obj.(meta := obj.meta - {OwnerReferences});
      obj := obj.(finalizers := []);
      obj := obj.(labels := obj.labels - {StateLabel(c.target)});
      obj := obj.(labels := obj.labels[DownstreamLabel := c.target]);
      SanitisedInSteps(c.target, mutated.value, obj);
      if c.advanced {
        var diff := Read(o.annotations, SpecDiffAnn(c.target));
        if diff != "" && "spec" in o.content {
          var spec := deps.patchSpec(diff, o.content["spec"]);
          if spec.None? || !(spec.value.Object? || spec.value.Null?) { return None; }
          obj := obj.(content := obj.content["spec" := spec.value]);
        }
      }
      return Some(obj);
    }

    method ApplyToDownstream(u: UpKey, n: string, o: KubeObject, again: Option<KubeObject>) returns (outcome: Outcome)
      requires c.target in down
      modifies this
      ensures Is(Syncer.ApplyToDownstream(c, deps, old(Now()), u, n, o, again), outcome, old(calls))
    {
      var k := DownKey(u.gvr, n, TransformedName(u.gvr, u.name, o.annotations));
      var intendedToBeRemoved := Read(o.annotations, DeletionAnn(c.target)) != "";
      var stillOwned := Read(o.annotations, SoftFinalizerAnn(c.target)) != "";
      if intendedToBeRemoved && !stillOwned {
        var found := DeleteDownstream(k);
        if !found {
          NothingRemoved(old(down), c.target, k);
          outcome := EnsureUpstreamFinalizerRemoved(u, again);
        } else {
          calls := calls + [PlanCleaning(n)];
          outcome := Done;
        }
        return;
      }
      var sent := TransformForDownstream(u.gvr, o);
      if sent.None? { return Failed; }
      down := down[c.target := Apply(down[c.target], k, u, sent.value)];
      return Done;
    }

    /** One call of the spec controller. */
    method Process(u: UpKey, input: Reads) returns (outcome: Outcome)
      requires c.target in down
      modifies this
      ensures Is(SpecStep(c, deps, old(Now()), u, input), outcome, old(calls))
    {
      var desired := Desired(c, u);
      var found := ByIndex(deps.codec, down[c.target].namespaces, deps.codec.encode(desired));
      var n: string;
      OnlyOne(found);
      if |found| == 1 {
        n :| n in found;
        assert found == {n};
      } else if |found| > 1 {
        assert forall m :: found != {m};
        return Failed;
      } else {
        n := deps.namespaceName(desired);
      }
      assert TargetNamespace(c, deps, down[c.target], u) == Some(n);
      if input.first.None? {
        var gone := DeleteDownstream(DownKey(u.gvr, n, u.name));
        calls := calls + [PlanCleaning(n)];
        return Done;
      }
      outcome := ProcessObject(u, n, input.first.value, input);
    }

    /** The same call, once it has an object and a namespace. */
    method ProcessObject(u: UpKey, n: string, o: KubeObject, input: Reads) returns (outcome: Outcome)
      requires c.target in down && input.first == Some(o)
      requires TargetNamespace(c, deps, down[c.target], u) == Some(n)
      modifies this
      ensures Is(SpecStep(c, deps, old(Now()), u, input), outcome, old(calls))
    {
      var failed := EnsureDownstreamNamespaceExists(n, u);
      if failed {
        assert down == old(down);
        return Failed;
      }
      ghost var ensured := Now();
      if input.dns.DnsError? { return Failed; }
      if input.dns.DnsNotReady? && u.gvr == DEPLOYMENTS { return RetryLater; }
      var added, refused := EnsureSyncerFinalizer(u, o);
      if added { return Done; }
      if refused { return Failed; }
      outcome := ApplyToDownstream(u, n, o, input.again);
    }

    method UpdateStatusInUpstream(u: UpKey, copy: DownObject, read: Option<KubeObject>) returns (outcome: Outcome)
      modifies this`up
      ensures copy.status.None? ==> up == old(up) && outcome == Done
      ensures copy.status.Some? && read.None? ==> up == old(up) && outcome == Failed
      ensures copy.status.Some? && read.Some? ==>
                var o := WithStatus(c, deps, read.value, copy.status.value);
                if c.advanced && o == read.value then up == old(up) && outcome == Done
                else
                  && up == Update(old(up), u, read.value, o)
                  && outcome == if u in old(up) && old(up)[u] == read.value then Done else Failed
      ensures copy.status.Some? && read.Some? && outcome == Done ==>
                exists o :: StatusIsUpstream(c, deps, o, copy.status.value) && SameButStatus(c, read.value, o)
                            && (up == Put(old(up), u, o) || (o == read.value && up == old(up)))
    {
      if copy.status.Some? && read.Some? { WrittenStatusIsUpstream(c, deps, read.value, copy.status.value); }
      if copy.status.None? { return Done; }
      if read.None? { return Failed; }
      var o := read.value;
      if c.advanced {
        o := o.(annotations := o.annotations[StatusAnn(c.target) := deps.jsonText(copy.status.value)]);
        if o == read.value { return Done; }
        outcome := UpdateUpstream(u, read.value, o);
        return;
      }
      outcome := UpdateUpstream(u, read.value, o.(content := o.content["status" := copy.status.value]));
    }

    /** One call of the status controller. */
    method ProcessStatus(k: DownKey, read: Option<KubeObject>) returns (outcome: Outcome)
      requires c.target in down
      modifies this
      ensures Is(StatusStep(c, deps, old(Now()), k, read), outcome, old(calls))
    {
      if SYNCER_ID_PREFIX <= k.ns { return Done; }
      var d := down[c.target];
      if k.ns !in d.namespaces || !d.namespaces[k.ns].watched { return Done; }
      var locator := LocatorOf(deps.codec, d.namespaces[k.ns]);
      if !locator.Found? || !Ours(c, locator.locator) || locator.locator.ns == "" { return Done; }
      var u := UpKey(k.gvr, locator.locator.clusterName, locator.locator.ns, UpstreamName(k.gvr, k.name));
      if !IsListed(c.target, d, k) {
        outcome := EnsureUpstreamFinalizerRemoved(u, read);
        return;
      }
      if Read(d.objects[k].body.labels, StateLabel(c.target)) == UPSYNC { return Done; }
      outcome := UpdateStatusInUpstream(u, d.objects[k], read);
    }
  }

  lemma WithoutOne(f: Finalizer, t: Target)
    ensures Without([f], t) == if f == SyncerFinalizer(t) then [] else [f]
  {
    assert [f][1..] == [];
  }

  lemma ReleasedInSteps(o: KubeObject, t: Target, r: KubeObject)
    requires r == KubeObject(Without(o.finalizers, t), o.labels - {StateLabel(t)},
                             o.annotations - {StatusAnn(t)} - {DeletionAnn(t)}, o.deleting, o.meta, o.content)
    ensures r == Released(o, t)
  {
    assert r.annotations == Released(o, t).annotations;
  }

  lemma SanitisedInSteps(t: Target, o: KubeObject, r: KubeObject)
    requires r == KubeObject([], (o.labels - {StateLabel(t)})[DownstreamLabel := t],
                             o.annotations - {ClusterAnn} - {StatusAnn(t)}, false,
                             o.meta - {Uid, ResourceVersion} - {ManagedFields} - {GracePeriod} - {OwnerReferences}, o.content)
    ensures r == Sanitised(t, o)
  {
    assert r.annotations == Sanitised(t, o).annotations;
    assert r.meta == Sanitised(t, o).meta;
  }

  lemma NothingRemoved(down: map<Target, Down>, t: Target, k: DownKey)
    requires t in down && k !in down[t].objects
    ensures down[t := Remove(down[t], k)] == down
  {
    assert Remove(down[t], k).objects == down[t].objects;
  }

  lemma OnlyOne<T>(s: set<T>)
    ensures |s| == 1 <==> exists x :: s == {x}
    ensures |s| == 1 ==> forall x | x in s :: s == {x}
  {
    if |s| == 1 {
      var x :| x in s;
      assert |s - {x}| == 0;
      assert s == {x};
      forall y | y in s ensures s == {y} {
      }
    }
  }
}
