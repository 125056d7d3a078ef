/** What a copy carries of its upstream object, and what of its status goes back:
    field by field, whatever the steps are made of (pkg/syncer/spec/spec_process.go,
    pkg/syncer/status/status_process.go). */
module CopyContents {
  import opened Wrappers
  import opened Json
  import opened Kube
  import opened Syncer

  // ----- downstream -----

  /** A spec diff for this target applies to the object. */
  predicate DiffApplies(c: Conf, o: KubeObject) {
    && c.advanced && "spec" in o.content
    && SpecDiffAnn(c.target) in o.annotations && o.annotations[SpecDiffAnn(c.target)] != ""
  }

  /** The spec that the diff makes of the upstream one. */
  function PatchedSpec(c: Conf, deps: Deps, o: KubeObject): Option<Json>
    requires DiffApplies(c, o)
  {
    deps.patchSpec(o.annotations[SpecDiffAnn(c.target)], o.content["spec"])
  }

  /** Nothing can be made of the object to apply. */
  predicate CannotBeSent(c: Conf, deps: Deps, gvr: Gvr, o: KubeObject) {
    || deps.mutate(gvr, o).None?
    || (DiffApplies(c, o) && match PatchedSpec(c, deps, o)
                             case None => true
                             case Some(spec) => !spec.Object? && !spec.Null?)
  }

  /** The copy has the labels of `m` but the state label, and the label of its syncer. */
  predicate CarriesLabels(t: Target, m: Labels, copy: Labels) {
    && (forall l | l in copy :: l == DownstreamLabel || (l in m && l != StateLabel(t) && copy[l] == m[l]))
    && (forall l | l in m && l != StateLabel(t) :: l in copy)
    && DownstreamLabel in copy && copy[DownstreamLabel] == t
  }

  /** It has the annotations of `m` but the cluster and the status. */
  predicate CarriesAnnotations(t: Target, m: Annotations, copy: Annotations) {
    && (forall a | a in copy :: a in m && copy[a] == m[a] && a != ClusterAnn && a != StatusAnn(t))
    && (forall a | a in m && a != ClusterAnn && a != StatusAnn(t) :: a in copy)
  }

  /** It has what remains of the metadata when the five fields of the server are gone. */
  predicate CarriesMeta(m: map<MetaField, Json>, copy: map<MetaField, Json>) {
    && (forall f | f in copy :: f in m && copy[f] == m[f])
    && (forall f | f in m :: f in copy <==> f != Uid && f != ResourceVersion && f != ManagedFields
                                            && f != OwnerReferences && f != GracePeriod)
  }

  /** It has all other top-level fields but the status; `spec` is what a diff made. */
  predicate CarriesFields(m: Members, spec: Option<Json>, copy: Members) {
    && "status" !in copy
    && (spec.Some? ==> "spec" in copy && copy["spec"] == spec.value)
    && (forall k | k in copy && !(k == "spec" && spec.Some?) :: k in m && copy[k] == m[k])
    && (forall k | k in m && k != "status" :: k in copy)
  }

  /** The body of a copy that was made from the object `o`. */
  predicate Carries(c: Conf, deps: Deps, gvr: Gvr, o: KubeObject, copy: KubeObject) {
    var m := deps.mutate(gvr, o);
    && m.Some?
    && copy.finalizers == [] && !copy.deleting
    && CarriesLabels(c.target, m.value.labels, copy.labels)
    && CarriesAnnotations(c.target, m.value.annotations, copy.annotations)
    && CarriesMeta(m.value.meta, copy.meta)
    && CarriesFields(m.value.content, if DiffApplies(c, o) then PatchedSpec(c, deps, o) else None, copy.content)
  }

  /** What is carried leaves nothing open. */
  lemma CarriedIsDetermined(c: Conf, deps: Deps, gvr: Gvr, o: KubeObject, copy: KubeObject, other: KubeObject)
    requires Carries(c, deps, gvr, o, copy) && Carries(c, deps, gvr, o, other)
    requires !CannotBeSent(c, deps, gvr, o)
    ensures copy == other
  {
    assert copy.labels.Keys == other.labels.Keys && copy.labels == other.labels;
    assert copy.annotations.Keys == other.annotations.Keys && copy.annotations == other.annotations;
    assert copy.meta == other.meta;
    assert copy.content.Keys == other.content.Keys && copy.content == other.content;
  }

  /** Main result: what is sent, less the status, carries the whole mutated object;
      and it is sent unless the mutator or the spec diff fails. */
  lemma SentCarries(c: Conf, deps: Deps, gvr: Gvr, o: KubeObject)
    ensures Downstream(c, deps, gvr, o).None? <==> CannotBeSent(c, deps, gvr, o)
    ensures Downstream(c, deps, gvr, o).Some? ==>
              var sent := Downstream(c, deps, gvr, o).value;
              Carries(c, deps, gvr, o, sent.(content := sent.content - {"status"}))
  {
  }

  // ----- upstream -----

  /** The status is upstream: in the annotation of this target with advanced
      scheduling, in the status field without. */
  predicate StatusIsUpstream(c: Conf, deps: Deps, o: KubeObject, status: Json) {
    if c.advanced
    then StatusAnn(c.target) in o.annotations && o.annotations[StatusAnn(c.target)] == deps.jsonText(status)
    else "status" in o.content && o.content["status"] == status
  }

  /** The objects differ at most in where a status is written. */
  ghost predicate SameButStatus(c: Conf, o: KubeObject, o': KubeObject) {
    && o'.finalizers == o.finalizers && o'.labels == o.labels && o'.deleting == o.deleting && o'.meta == o.meta
    && (c.advanced ==> o'.content == o.content)
    && (!c.advanced ==> o'.annotations == o.annotations)
    && (forall a | a != StatusAnn(c.target) ::
          (a in o'.annotations <==> a in o.annotations) && (a in o.annotations ==> o'.annotations[a] == o.annotations[a]))
    && (forall k | k != "status" ::
          (k in o'.content <==> k in o.content) && (k in o.content ==> o'.content[k] == o.content[k]))
  }

  /** Main result: writing a status puts it upstream and changes nothing else, and an
      object needs no write exactly when the status is there. */
  lemma WrittenStatusIsUpstream(c: Conf, deps: Deps, o: KubeObject, status: Json)
    ensures var o' := WithStatus(c, deps, o, status);
            && StatusIsUpstream(c, deps, o', status) && SameButStatus(c, o, o')
            && (o' == o <==> StatusIsUpstream(c, deps, o, status))
  {
  }
}
