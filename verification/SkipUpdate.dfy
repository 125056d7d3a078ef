/** When the spec controller ignores an upstream update
    (pkg/syncer/spec/spec_process.go), and why ignoring it is safe. */
module SkipUpdate {
  import opened Wrappers
  import opened Json
  import opened Kube
  import opened Locators
  import opened Finalizers
  import opened Syncer
  import opened CopyContents

  /** The annotations that are compared: all but the status of any target. */
  function Compared(annotations: Annotations): Annotations {
    map a | a in annotations && !a.StatusAnn? :: annotations[a]
  }

  /** A top-level field read the way Go reads a map: a missing one is null. */
  function Field(o: KubeObject, k: string): Json {
    if k in o.content then o.content[k] else Null
  }

  ghost predicate AlikeApartFromStatus(a: KubeObject, b: KubeObject) {
    && Compared(a.annotations) == Compared(b.annotations)
    && a.labels == b.labels && a.finalizers == b.finalizers && a.deleting == b.deleting
    && forall k | k != "status" :: Field(a, k) == Field(b, k)
  }

  method WithoutStatusAnnotations(annotations: Annotations) returns (r: Annotations)
    ensures r == Compared(annotations)
  {
    r := annotations;
    var left := annotations.Keys;
    while left != {}
      invariant left <= annotations.Keys
      invariant r == map a | a in annotations && (a in left || !a.StatusAnn?) :: annotations[a]
      decreases |left|
    {
      var a :| a in left;
      left := left - {a};
      if a.StatusAnn? { r := r - {a}; }
    }
  }

  /** The comparison looks at the top-level fields of both objects one by one. */
  method DeepEqualApartFromStatus(a: KubeObject, b: KubeObject) returns (equal: bool)
    ensures equal <==> AlikeApartFromStatus(a, b)
  {
    var mine := WithoutStatusAnnotations(a.annotations);
    var theirs := WithoutStatusAnnotations(b.annotations);
    if mine != theirs || a.labels != b.labels || a.finalizers != b.finalizers || a.deleting != b.deleting {
      return false;
    }
    var left := a.content.Keys + b.content.Keys;
    while left != {}
      invariant forall k | k !in left && k != "status" :: Field(a, k) == Field(b, k)
      decreases |left|
    {
      var k :| k in left;
      left := left - {k};
      if k != "status" && Field(a, k) != Field(b, k) { return false; }
    }
    return true;
  }

  lemma AlikeIsEquivalence(a: KubeObject, b: KubeObject, c: KubeObject)
    ensures AlikeApartFromStatus(a, a)
    ensures AlikeApartFromStatus(a, b) ==> AlikeApartFromStatus(b, a)
    ensures AlikeApartFromStatus(a, b) && AlikeApartFromStatus(b, c) ==> AlikeApartFromStatus(a, c)
  {
    if AlikeApartFromStatus(a, b) && AlikeApartFromStatus(b, c) {
      forall k | k != "status" ensures Field(a, k) == Field(c, k) {
        assert Field(a, k) == Field(b, k);
      }
    }
  }

  /** A field of metadata that is compared, as a caller reads it. */
  ghost predicate IsToldApart(a: KubeObject, b: KubeObject) {
    || a.labels != b.labels || a.finalizers != b.finalizers || a.deleting != b.deleting
    || (exists key: Annotation :: !key.StatusAnn? && ((key in a.annotations) != (key in b.annotations)
                                          || (key in a.annotations && a.annotations[key] != b.annotations[key])))
    || (exists k :: k != "status" && (if k in a.content then a.content[k] else Null) != (if k in b.content then b.content[k] else Null))
  }

  /** Main result: two versions are told apart exactly by a label, a finalizer, the
      deletion mark, an annotation other than a status, or a top-level field other than
      the status, where a missing field is null. */
  lemma ToldApartIff(a: KubeObject, b: KubeObject)
    ensures !AlikeApartFromStatus(a, b) <==> IsToldApart(a, b)
  {
    assert forall key :: key in Compared(a.annotations) <==> key in a.annotations && !key.StatusAnn?;
    assert forall key :: key in Compared(b.annotations) <==> key in b.annotations && !key.StatusAnn?;
    if !IsToldApart(a, b) {
      assert Compared(a.annotations) == Compared(b.annotations);
      forall k | k != "status" ensures Field(a, k) == Field(b, k) {
      }
    }
    if AlikeApartFromStatus(a, b) {
      forall key: Annotation | !key.StatusAnn?
        ensures (key in a.annotations <==> key in b.annotations) && (key in a.annotations ==> a.annotations[key] == b.annotations[key])
      {
        assert key in a.annotations ==> Compared(a.annotations)[key] == a.annotations[key];
        assert key in b.annotations ==> Compared(b.annotations)[key] == b.annotations[key];
      }
      forall k | k != "status" ensures (if k in a.content then a.content[k] else Null) == (if k in b.content then b.content[k] else Null) {
        assert Field(a, k) == Field(b, k);
      }
    }
  }

  /** Main result: where the mutator leaves objects alone, two versions that are not told
      apart make the same copy up to statuses of other targets and null fields. */
  lemma SkippedUpdateMakesTheSameCopy(c: Conf, deps: Deps, gvr: Gvr, a: KubeObject, b: KubeObject, x: KubeObject, y: KubeObject)
    requires deps.mutate(gvr, a) == Some(a) && deps.mutate(gvr, b) == Some(b)
    requires AlikeApartFromStatus(a, b) && SpecDiffAppliesAlike(c, a, b) && !CannotBeSent(c, deps, gvr, a)
    requires Carries(c, deps, gvr, a, x) && Carries(c, deps, gvr, b, y)
    ensures !IsToldApart(x, y)
  {
    ToldApartIff(a, b);
    ReadCompared(a, b, SpecDiffAnn(c.target));
    assert DiffApplies(c, a) == DiffApplies(c, b);
    if DiffApplies(c, a) {
      assert Field(a, "spec") == Field(b, "spec");
    }
    assert x.labels.Keys == y.labels.Keys && x.labels == y.labels;
    forall k | k != "status"
      ensures (if k in x.content then x.content[k] else Null) == (if k in y.content then y.content[k] else Null)
    {
      assert Field(a, k) == Field(b, k);
    }
  }

  /** Both statuses written by a status controller are what is not compared. */
  lemma StatusIsNotCompared(c: Conf, deps: Deps, o: KubeObject, status: Json)
    ensures AlikeApartFromStatus(o, WithStatus(c, deps, o, status))
  {
    var o' := WithStatus(c, deps, o, status);
    assert Compared(o'.annotations) == Compared(o.annotations);
  }

  /** Annotations that are compared read the same. */
  lemma ReadCompared(a: KubeObject, b: KubeObject, key: Annotation)
    requires AlikeApartFromStatus(a, b) && !key.StatusAnn?
    ensures key in a.annotations <==> key in b.annotations
    ensures Read(a.annotations, key) == Read(b.annotations, key)
  {
    assert key in a.annotations <==> key in Compared(a.annotations);
    assert key in b.annotations <==> key in Compared(b.annotations);
    if key in a.annotations {
      assert Compared(a.annotations)[key] == Compared(b.annotations)[key];
    }
  }

  /** Everything the syncer decides on is compared. */
  lemma SameDecisions(a: KubeObject, b: KubeObject, t: Target, u: UpKey, n: string)
    requires AlikeApartFromStatus(a, b)
    ensures IntendedForRemoval(a, t) == IntendedForRemoval(b, t)
    ensures ToBeRemoved(a, t) == ToBeRemoved(b, t) && NeedsClaim(a, t) == NeedsClaim(b, t)
    ensures CopyKey(u, n, a) == CopyKey(u, n, b)
  {
    ReadCompared(a, b, DeletionAnn(t));
    ReadCompared(a, b, SoftFinalizerAnn(t));
    ReadCompared(a, b, ServiceAccountAnn);
  }

  lemma ClaimsAlike(a: KubeObject, b: KubeObject, t: Target)
    requires AlikeApartFromStatus(a, b)
    ensures AlikeApartFromStatus(Claimed(a, t), Claimed(b, t))
  {
    forall k | k != "status" ensures Field(Claimed(a, t), k) == Field(Claimed(b, t), k) {
      assert Field(a, k) == Field(b, k);
    }
  }

  lemma ReleaseCompared(o: KubeObject, t: Target)
    ensures Compared(Released(o, t).annotations) == Compared(o.annotations) - {DeletionAnn(t)}
  {
  }

  lemma ReleasesAlike(a: KubeObject, b: KubeObject, t: Target)
    requires AlikeApartFromStatus(a, b)
    ensures AlikeApartFromStatus(Released(a, t), Released(b, t))
  {
    ReleaseCompared(a, t);
    ReleaseCompared(b, t);
    forall k | k != "status" ensures Field(Released(a, t), k) == Field(Released(b, t), k) {
      assert Field(a, k) == Field(b, k);
    }
  }

  /** Mutators depend on what is compared alone, and treat it alike. */
  ghost predicate MutatesAlike(deps: Deps) {
    forall gvr, a, b | AlikeApartFromStatus(a, b) :: ResultsAlike(deps.mutate(gvr, a), deps.mutate(gvr, b))
  }

  ghost predicate ResultsAlike(a: Option<KubeObject>, b: Option<KubeObject>) {
    && (a.Some? <==> b.Some?)
    && (a.Some? && b.Some? ==> AlikeApartFromStatus(a.value, b.value))
  }

  lemma SanitisedAlike(a: KubeObject, b: KubeObject, t: Target)
    requires AlikeApartFromStatus(a, b)
    ensures AlikeApartFromStatus(Sanitised(t, a), Sanitised(t, b))
  {
    assert Compared(Sanitised(t, a).annotations) == Compared(a.annotations) - {ClusterAnn};
    assert Compared(Sanitised(t, b).annotations) == Compared(b.annotations) - {ClusterAnn};
    forall k | k != "status" ensures Field(Sanitised(t, a), k) == Field(Sanitised(t, b), k) {
      assert Field(a, k) == Field(b, k);
    }
  }

  lemma FieldUpdatedAlike(a: KubeObject, b: KubeObject, k: string, j: Json)
    requires AlikeApartFromStatus(a, b)
    ensures AlikeApartFromStatus(a.(content := a.content[k := j]), b.(content := b.content[k := j]))
    ensures AlikeApartFromStatus(a.(content := a.content - {"status"}), b.(content := b.content - {"status"}))
  {
    var a', b' := a.(content := a.content[k := j]), b.(content := b.content[k := j]);
    forall i | i != "status" ensures Field(a', i) == Field(b', i) {
      assert Field(a, i) == Field(b, i);
    }
    var a'', b'' := a.(content := a.content - {"status"}), b.(content := b.content - {"status"});
    forall i | i != "status" ensures Field(a'', i) == Field(b'', i) {
      assert Field(a, i) == Field(b, i);
    }
  }

  /** A null spec is compared like a missing one, but only a null one is given to
      a spec diff. */
  predicate SpecDiffAppliesAlike(c: Conf, a: KubeObject, b: KubeObject) {
    HasSpecDiff(c, a) == HasSpecDiff(c, b)
  }

  lemma DownstreamAlike(c: Conf, deps: Deps, gvr: Gvr, a: KubeObject, b: KubeObject)
    requires MutatesAlike(deps) && AlikeApartFromStatus(a, b) && SpecDiffAppliesAlike(c, a, b)
    ensures ResultsAlike(Downstream(c, deps, gvr, a), Downstream(c, deps, gvr, b))
  {
    var ma, mb := deps.mutate(gvr, a), deps.mutate(gvr, b);
    assert ResultsAlike(ma, mb);
    ReadCompared(a, b, SpecDiffAnn(c.target));
    if ma.Some? {
      SanitisedAlike(ma.value, mb.value, c.target);
      if HasSpecDiff(c, a) {
        assert Field(a, "spec") == Field(b, "spec");
        var spec := deps.patchSpec(a.annotations[SpecDiffAnn(c.target)], a.content["spec"]);
        if spec.Some? {
          FieldUpdatedAlike(Sanitised(c.target, ma.value), Sanitised(c.target, mb.value), "spec", spec.value);
        }
      }
    }
  }

  /** Main result: whatever the mutators and patches do, two versions that are not
      told apart give the same downstream object up to what is not compared,
      exactly when a spec diff, if there is one, applies to both or to neither. */
  lemma DownstreamAlikeIff(c: Conf, gvr: Gvr, a: KubeObject, b: KubeObject)
    requires AlikeApartFromStatus(a, b)
    ensures (forall deps: Deps | MutatesAlike(deps) :: ResultsAlike(Downstream(c, deps, gvr, a), Downstream(c, deps, gvr, b)))
            <==> SpecDiffAppliesAlike(c, a, b)
  {
    if SpecDiffAppliesAlike(c, a, b) {
      forall deps: Deps | MutatesAlike(deps)
        ensures ResultsAlike(Downstream(c, deps, gvr, a), Downstream(c, deps, gvr, b))
      {
        DownstreamAlike(c, deps, gvr, a, b);
      }
    } else {
      var refusing := Deps(Codec(l => "", text => None), l => "", l => "", (g, o) => Some(o), (diff, spec) => None, j => "");
      assert MutatesAlike(refusing);
      assert !ResultsAlike(Downstream(c, refusing, gvr, a), Downstream(c, refusing, gvr, b));
    }
  }

  // ----- whole steps -----

  ghost predicate UpstreamsAlike(a: Upstream, b: Upstream) {
    a.Keys == b.Keys && forall u | u in a :: AlikeApartFromStatus(a[u], b[u])
  }

  ghost predicate CopiesAlike(x: DownObject, y: DownObject) {
    if x.Copy? && y.Copy?
    then x.origin == y.origin && x.status == y.status && AlikeApartFromStatus(x.body, y.body)
    else x == y
  }

  ghost predicate DownsAlike(d: Down, e: Down) {
    && d.namespaces == e.namespaces && d.seen == e.seen && d.objects.Keys == e.objects.Keys
    && forall k | k in d.objects :: CopiesAlike(d.objects[k], e.objects[k])
  }

  /** Two states that differ in what is not compared alone. */
  ghost predicate WorldsAlike(v: World, w: World) {
    && UpstreamsAlike(v.up, w.up) && v.down.Keys == w.down.Keys
    && forall t | t in v.down :: DownsAlike(v.down[t], w.down[t])
  }

  ghost predicate StepsAlike(a: StepResult, b: StepResult) {
    a.outcome == b.outcome && a.calls == b.calls && WorldsAlike(a.world, b.world)
  }

  lemma SetDownAlike(v: World, w: World, t: Target, d: Down, e: Down)
    requires WorldsAlike(v, w) && DownsAlike(d, e)
    ensures WorldsAlike(SetDown(v, t, d), SetDown(w, t, e))
  {
  }

  lemma PutAlike(a: Upstream, b: Upstream, u: UpKey, x: KubeObject, y: KubeObject)
    requires UpstreamsAlike(a, b) && AlikeApartFromStatus(x, y)
    ensures UpstreamsAlike(Put(a, u, x), Put(b, u, y))
  {
  }

  lemma ApplyAlike(d: Down, e: Down, k: DownKey, u: UpKey, x: KubeObject, y: KubeObject)
    requires DownsAlike(d, e) && AlikeApartFromStatus(x, y)
    ensures DownsAlike(Apply(d, k, u, x), Apply(e, k, u, y))
  {
    FieldUpdatedAlike(x, y, "spec", Null);
  }

  lemma ApplyToDownstreamAlike(c: Conf, deps: Deps, v: World, w: World, u: UpKey, n: string)
    requires MutatesAlike(deps) && WorldsAlike(v, w) && c.target in v.down
    requires View(v.up, c.target, u).Some? && View(w.up, c.target, u).Some?
    requires SpecDiffAppliesAlike(c, v.up[u], w.up[u])
    ensures StepsAlike(ApplyToDownstream(c, deps, v, u, n, v.up[u], Some(v.up[u])),
                       ApplyToDownstream(c, deps, w, u, n, w.up[u], Some(w.up[u])))
  {
    var a, b, t := v.up[u], w.up[u], c.target;
    var d, e := v.down[t], w.down[t];
    SameDecisions(a, b, t, u, n);
    var k := CopyKey(u, n, a);
    if ToBeRemoved(a, t) {
      if k in d.objects {
        SetDownAlike(v, w, t, Remove(d, k), Remove(e, k));
      } else {
        ReleasesAlike(a, b, t);
        PutAlike(v.up, w.up, u, Released(a, t), Released(b, t));
      }
    } else {
      DownstreamAlike(c, deps, u.gvr, a, b);
      if Downstream(c, deps, u.gvr, a).Some? {
        var x, y := Downstream(c, deps, u.gvr, a).value, Downstream(c, deps, u.gvr, b).value;
        ApplyAlike(d, e, k, u, x, y);
        SetDownAlike(v, w, t, Apply(d, k, u, x), Apply(e, k, u, y));
      }
    }
  }

  /** Main result: a spec step that starts from two states which differ in
      statuses and other things not compared takes the same branch, ends alike,
      and leaves states that again differ in such things alone. */
  lemma SkippedUpdateIsHarmless(c: Conf, deps: Deps, v: World, w: World, u: UpKey, dns: Dns)
    requires MutatesAlike(deps) && WorldsAlike(v, w) && c.target in v.down
    requires u in v.up ==> SpecDiffAppliesAlike(c, v.up[u], w.up[u])
    ensures StepsAlike(SpecStep(c, deps, v, u, FreshReads(v, c.target, u, dns)),
                       SpecStep(c, deps, w, u, FreshReads(w, c.target, u, dns)))
  {
    var t := c.target;
    var d, e := v.down[t], w.down[t];
    var found := TargetNamespace(c, deps, d, u);
    if found.Some? {
      var n, l := found.value, Desired(c, u);
      if View(v.up, t, u).None? {
        SetDownAlike(v, w, t, Remove(d, DownKey(u.gvr, n, u.name)), Remove(e, DownKey(u.gvr, n, u.name)));
      } else if NamespaceUsable(deps, d.namespaces, n, l) {
        var v', w' := SetDown(v, t, EnsureNamespace(deps, d, n, l)), SetDown(w, t, EnsureNamespace(deps, e, n, l));
        SetDownAlike(v, w, t, EnsureNamespace(deps, d, n, l), EnsureNamespace(deps, e, n, l));
        SyncObjectAlike(c, deps, v', w', u, n, dns);
      }
    }
  }

  /** The claim of an object. */
  lemma ClaimStepAlike(v: World, w: World, t: Target, u: UpKey)
    requires WorldsAlike(v, w) && View(v.up, t, u).Some? && View(w.up, t, u).Some?
    ensures WorldsAlike(v.(up := Update(v.up, u, v.up[u], Claimed(v.up[u], t))), w.(up := Update(w.up, u, w.up[u], Claimed(w.up[u], t))))
  {
    ClaimsAlike(v.up[u], w.up[u], t);
    PutAlike(v.up, w.up, u, Claimed(v.up[u], t), Claimed(w.up[u], t));
  }

  lemma SyncObjectAlike(c: Conf, deps: Deps, v: World, w: World, u: UpKey, n: string, dns: Dns)
    requires MutatesAlike(deps) && WorldsAlike(v, w) && c.target in v.down
    requires View(v.up, c.target, u).Some? && View(w.up, c.target, u).Some?
    requires SpecDiffAppliesAlike(c, v.up[u], w.up[u])
    ensures StepsAlike(SyncObject(c, deps, v, u, n, v.up[u], FreshReads(v, c.target, u, dns)),
                       SyncObject(c, deps, w, u, n, w.up[u], FreshReads(w, c.target, u, dns)))
  {
    SameDecisions(v.up[u], w.up[u], c.target, u, n);
    if NeedsClaim(v.up[u], c.target) {
      ClaimStepAlike(v, w, c.target, u);
    } else {
      ApplyToDownstreamAlike(c, deps, v, w, u, n);
    }
  }
}
