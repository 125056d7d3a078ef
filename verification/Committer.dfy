/** Merge-patch generation with preconditions
    (pkg/reconciler/committer/committer.go). */
module Committer {
  import opened Wrappers
  import opened Json

  /** The members a merge patch from `before` to `new` needs: added and changed
      members with their new value, nested objects member by member, removed
      members as null. */
  function DiffMembers(before: Json, after: Json): Members
    requires before.Object? && after.Object?
    decreases after, 0
  {
    var a, b := before.members, after.members;
    map k | k in a.Keys + b.Keys && (k !in a || k !in b || DiffEntry(a[k], b[k]).Some?) ::
      if k !in b then Null
      else if k !in a then b[k]
      else DiffEntry(a[k], b[k]).value
  }

  /** The patch entry for one member present on both sides, if it changed. */
  function DiffEntry(av: Json, bv: Json): Option<Json>
    decreases bv, 1
  {
    if av.Object? && bv.Object? then
      var d := DiffMembers(av, bv);
      if d == map[] then None else Some(Object(d))
    else if av == bv then None
    else Some(bv)
  }

  /** What a merge patch can express: a null member of `after` must already be
      null in `before`, and an object that replaces something that is not an
      object has no null members. */
  ghost predicate Expressible(before: Json, after: Json)
    requires before.Object? && after.Object?
    decreases after, 0
  {
    forall k | k in after.members :: ExpressibleMember(before.members, k, after.members[k])
  }

  ghost predicate ExpressibleMember(a: Members, k: string, bv: Json)
    decreases bv, 1
  {
    if bv.Null? then k in a && a[k].Null?
    else if bv.Object? && k in a && a[k].Object? then Expressible(a[k], bv)
    else NoNullMembers(bv)
  }

  /** A difference is empty only between equal objects. */
  lemma {:induction false} EmptyDiffMeansEqual(before: Json, after: Json)
    requires before.Object? && after.Object?
    ensures DiffMembers(before, after) == map[] <==> before == after
    decreases after
  {
    var a, b := before.members, after.members;
    forall k | k in a && k in b ensures DiffEntry(a[k], b[k]).None? <==> a[k] == b[k] {
      if a[k].Object? && b[k].Object? {
        EmptyDiffMeansEqual(a[k], b[k]);
      }
    }
    var d := DiffMembers(before, after);
    if d == map[] {
      forall k | k in a.Keys + b.Keys ensures k in a && k in b && a[k] == b[k] {
        assert k !in d;
      }
      assert a == b;
    }
  }

  /** Applying the generated patch yields the new object exactly when a merge
      patch can express the change at all. */
  lemma {:induction false} DiffThenMerge(before: Json, after: Json)
    requires before.Object? && after.Object?
    ensures MergePatch(before, Object(DiffMembers(before, after))) == after <==> Expressible(before, after)
    decreases after, 1
  {
    var d := DiffMembers(before, after);
    MergeByMember(before, Object(d));
    var merged := MergePatch(before, Object(d)).members;
    forall k ensures Lookup(merged, k) == Lookup(after.members, k)
                     <==> (k in after.members ==> ExpressibleMember(before.members, k, after.members[k]))
    {
      DiffThenMergeMember(before, after, k);
    }
    if Expressible(before, after) {
      SameLookups(merged, after.members);
    }
  }

  /** The same, member by member. */
  lemma {:induction false} DiffThenMergeMember(before: Json, after: Json, k: string)
    requires before.Object? && after.Object?
    ensures MergedMember(before.members, DiffMembers(before, after), k) == Lookup(after.members, k)
            <==> (k in after.members ==> ExpressibleMember(before.members, k, after.members[k]))
    decreases after, 0
  {
    var a, b := before.members, after.members;
    var d := DiffMembers(before, after);
    if k in b {
      if k !in a {
        MergeIntoNothing(Null, b[k]);
      } else if a[k].Object? && b[k].Object? {
        DiffThenMerge(a[k], b[k]);
        EmptyDiffMeansEqual(a[k], b[k]);
        if a[k] == b[k] { ExpressibleSelf(a[k]); }
      } else if a[k] == b[k] {
        assert DiffEntry(a[k], b[k]) == None;
      } else {
        assert DiffEntry(a[k], b[k]) == Some(b[k]);
        if !a[k].Object? { MergeIntoNothing(a[k], b[k]); }
      }
    }
  }

  lemma {:induction false} ExpressibleSelf(j: Json)
    requires j.Object?
    ensures Expressible(j, j)
    decreases j
  {
    forall k | k in j.members ensures ExpressibleMember(j.members, k, j.members[k]) {
      if j.members[k].Object? { ExpressibleSelf(j.members[k]); }
    }
  }

  /** Object metadata: the two preconditions, which are left out of the JSON
      when empty, and everything else. */
  datatype Meta = Meta(uid: string, resourceVersion: string, rest: Members)

  /** The generic wrapper around a resource; spec and status as they marshal. */
  datatype Resource = Resource(meta: Meta, spec: Json, status: Json)

  ghost predicate WellFormed(r: Resource) {
    "uid" !in r.meta.rest && "resourceVersion" !in r.meta.rest
  }

  /** The zero value of the resource type: its spec and status may marshal to
      anything, its uid and resource version are empty. */
  ghost predicate IsZeroValue(r: Resource) {
    WellFormed(r) && r.meta.uid == "" && r.meta.resourceVersion == ""
  }

  function MarshalMeta(m: Meta): Members {
    m.rest
    + (if m.uid == "" then map[] else map["uid" := String(m.uid)])
    + (if m.resourceVersion == "" then map[] else map["resourceVersion" := String(m.resourceVersion)])
  }

  function Marshal(r: Resource): Json {
    Object(map["metadata" := Object(MarshalMeta(r.meta)), "spec" := r.spec, "status" := r.status])
  }

  function SpecOrMetaChanged(before: Resource, after: Resource): bool {
    before.meta != after.meta || before.spec != after.spec
  }

  /** Only the changed half of a resource; the other half has its zero value. */
  function ForPatch(r: Resource, zero: Resource, specOrMeta: bool): Resource {
    if specOrMeta then r.(status := zero.status) else zero.(status := r.status)
  }

  function WithPreconditions(r: Resource, uid: string, resourceVersion: string): Resource {
    r.(meta := r.meta.(uid := uid, resourceVersion := resourceVersion))
  }

  datatype Generated = Nothing | ProgrammerError | Patch(patch: Json)

  /** The old side of the patch, without uid and resource version so that the
      two appear in the patch. */
  function OldHalf(before: Resource, after: Resource, zero: Resource): Resource {
    WithPreconditions(ForPatch(before, zero, SpecOrMetaChanged(before, after)), "", "")
  }

  function NewHalf(before: Resource, after: Resource, zero: Resource): Resource {
    WithPreconditions(ForPatch(after, zero, SpecOrMetaChanged(before, after)), before.meta.uid, before.meta.resourceVersion)
  }

  function GeneratePatch(before: Resource, after: Resource, zero: Resource): Generated {
    if SpecOrMetaChanged(before, after) && before.status != after.status then ProgrammerError
    else if !SpecOrMetaChanged(before, after) && before.status == after.status then Nothing
    else Patch(Object(DiffMembers(Marshal(OldHalf(before, after, zero)), Marshal(NewHalf(before, after, zero)))))
  }

  /** A stored object: the marshalled resource and the members around it. */
  function Stored(r: Resource, extra: Members): Json {
    Object(extra + Marshal(r).members)
  }

  lemma StoredMembers(r: Resource, extra: Members)
    ensures Stored(r, extra).Object?
    ensures Lookup(Stored(r, extra).members, "metadata") == Some(Object(MarshalMeta(r.meta)))
    ensures Lookup(Stored(r, extra).members, "spec") == Some(r.spec)
    ensures Lookup(Stored(r, extra).members, "status") == Some(r.status)
    ensures forall k :: k != "metadata" && k != "spec" && k != "status" ==>
              Lookup(Stored(r, extra).members, k) == Lookup(extra, k)
  {
  }

  /** What a commit is meant to leave in the store: of the side that changed what
      the new object has, of the other side, of the uid and of the resource version
      what was there. */
  function Intended(before: Resource, after: Resource): Resource {
    if before.meta != after.meta || before.spec != after.spec
    then Resource(Meta(before.meta.uid, before.meta.resourceVersion, after.meta.rest), after.spec, before.status)
    else Resource(before.meta, before.spec, after.status)
  }

  /** The changed half can be written as a merge patch. */
  ghost predicate ExpressibleChange(before: Resource, after: Resource) {
    if before.meta != after.meta || before.spec != after.spec
    then
      && Expressible(Object(before.meta.rest), Object(after.meta.rest))
      && ExpressibleMember(map["spec" := before.spec], "spec", after.spec)
    else ExpressibleMember(map["status" := before.status], "status", after.status)
  }

  lemma DiffByMember(before: Json, after: Json, k: string)
    requires before.Object? && after.Object?
    requires k in before.members && k in after.members
    ensures Lookup(DiffMembers(before, after), k) == DiffEntry(before.members[k], after.members[k])
  {
  }

  /** A member that is the same on both sides is not patched. */
  lemma UnchangedMember(before: Json, after: Json, k: string)
    requires before.Object? && after.Object?
    requires k in before.members && k in after.members && before.members[k] == after.members[k]
    ensures k !in DiffMembers(before, after)
  {
    if before.members[k].Object? {
      EmptyDiffMeansEqual(before.members[k], after.members[k]);
    }
  }

  /** A member of the target that agrees with the old side gets the new value. */
  lemma ChangedMember(target: Members, before: Json, after: Json, k: string)
    requires before.Object? && after.Object?
    requires k in before.members && k in after.members
    requires k in target && target[k] == before.members[k]
    ensures MergedMember(target, DiffMembers(before, after), k) == Some(after.members[k])
            <==> ExpressibleMember(map[k := before.members[k]], k, after.members[k])
  {
    DiffThenMergeMember(before, after, k);
    assert MergedMember(target, DiffMembers(before, after), k) == MergedMember(before.members, DiffMembers(before, after), k);
  }

  /** The metadata entry of a patch carries the preconditions over metadata that
      already has them. */
  lemma {:induction false} MergeMeta(uid: string, rv: string, rest: Members, rest': Members)
    requires WellFormed(Resource(Meta(uid, rv, rest), Null, Null))
    requires WellFormed(Resource(Meta(uid, rv, rest'), Null, Null))
    ensures var base := MarshalMeta(Meta(uid, rv, rest));
            var target := MarshalMeta(Meta(uid, rv, rest'));
            MergePatch(Object(base), Object(DiffMembers(Object(rest), Object(target)))) == Object(target)
            <==> Expressible(Object(rest), Object(rest'))
  {
    var base, target := MarshalMeta(Meta(uid, rv, rest)), MarshalMeta(Meta(uid, rv, rest'));
    var d := DiffMembers(Object(rest), Object(target));
    MergeByMember(Object(base), Object(d));
    var merged := MergePatch(Object(base), Object(d)).members;
    forall k ensures Lookup(merged, k) == Lookup(target, k)
                     <==> (k in rest' ==> ExpressibleMember(rest, k, rest'[k]))
    {
      DiffThenMergeMember(Object(rest), Object(target), k);
      if k == "uid" || k == "resourceVersion" {
        assert k !in rest && k !in rest';
      } else {
        assert Lookup(base, k) == Lookup(rest, k);
        assert Lookup(target, k) == Lookup(rest', k);
      }
    }
    if Expressible(Object(rest), Object(rest')) {
      SameLookups(merged, target);
    }
  }

  /** A patch of the status half has the preconditions and nothing else in its
      metadata entry, so the stored metadata stays as it is. */
  lemma {:induction false} MergePreconditions(m: Meta, zeroRest: Members)
    requires WellFormed(Resource(m, Null, Null))
    requires WellFormed(Resource(m.(rest := zeroRest), Null, Null))
    ensures var d := DiffMembers(Object(zeroRest), Object(MarshalMeta(m.(rest := zeroRest))));
            MergePatch(Object(MarshalMeta(m)), Object(d)) == Object(MarshalMeta(m))
  {
    var target := MarshalMeta(m.(rest := zeroRest));
    var d := DiffMembers(Object(zeroRest), Object(target));
    MergeByMember(Object(MarshalMeta(m)), Object(d));
    var merged := MergePatch(Object(MarshalMeta(m)), Object(d)).members;
    forall k ensures Lookup(merged, k) == Lookup(MarshalMeta(m), k) {
      if k != "uid" && k != "resourceVersion" {
        assert Lookup(target, k) == Lookup(zeroRest, k);
        if k in zeroRest { UnchangedMember(Object(zeroRest), Object(target), k); }
      }
    }
    SameLookups(merged, MarshalMeta(m));
  }

  ghost predicate ValidCommit(before: Resource, after: Resource, zero: Resource, extra: Members) {
    && WellFormed(before) && WellFormed(after) && IsZeroValue(zero)
    && "metadata" !in extra && "spec" !in extra && "status" !in extra
  }

  /** The merge of one object member into another, through its patch entry. */
  lemma MergeEntry(target: Json, before: Json, after: Json, k: string)
    requires target.Object? && before.Object? && after.Object?
    requires k in target.members && k in before.members && k in after.members
    requires target.members[k].Object? && before.members[k].Object? && after.members[k].Object?
    ensures MergedMember(target.members, DiffMembers(before, after), k)
            == Some(MergePatch(target.members[k], Object(DiffMembers(before.members[k], after.members[k]))))
  {
    var d := DiffMembers(before.members[k], after.members[k]);
    if d == map[] {
      assert MergePatch(target.members[k], Object(d)).members == target.members[k].members;
    }
  }

  lemma CommitMetadata(before: Resource, after: Resource, zero: Resource, extra: Members)
    requires ValidCommit(before, after, zero, extra)
    requires GeneratePatch(before, after, zero).Patch?
    ensures MergedMember(Stored(before, extra).members, GeneratePatch(before, after, zero).patch.members, "metadata")
            == Some(Object(MarshalMeta(Intended(before, after).meta)))
            <==> (before.meta != after.meta || before.spec != after.spec ==>
                    Expressible(Object(before.meta.rest), Object(after.meta.rest)))
  {
    var o, n := OldHalf(before, after, zero), NewHalf(before, after, zero);
    assert MarshalMeta(o.meta) == o.meta.rest;
    MergeEntry(Stored(before, extra), Marshal(o), Marshal(n), "metadata");
    if SpecOrMetaChanged(before, after) {
      MergeMeta(before.meta.uid, before.meta.resourceVersion, before.meta.rest, after.meta.rest);
      assert n.meta == Meta(before.meta.uid, before.meta.resourceVersion, after.meta.rest);
    } else {
      MergePreconditions(before.meta, zero.meta.rest);
      assert n.meta == before.meta.(rest := zero.meta.rest);
    }
  }

  lemma CommitSpec(before: Resource, after: Resource, zero: Resource, extra: Members)
    requires ValidCommit(before, after, zero, extra)
    requires GeneratePatch(before, after, zero).Patch?
    ensures MergedMember(Stored(before, extra).members, GeneratePatch(before, after, zero).patch.members, "spec")
            == Some(Intended(before, after).spec)
            <==> (before.meta != after.meta || before.spec != after.spec ==>
                    ExpressibleMember(map["spec" := before.spec], "spec", after.spec))
  {
    var o, n := Marshal(OldHalf(before, after, zero)), Marshal(NewHalf(before, after, zero));
    if SpecOrMetaChanged(before, after) {
      ChangedMember(Stored(before, extra).members, o, n, "spec");
    } else {
      UnchangedMember(o, n, "spec");
    }
  }

  lemma CommitStatus(before: Resource, after: Resource, zero: Resource, extra: Members)
    requires ValidCommit(before, after, zero, extra)
    requires GeneratePatch(before, after, zero).Patch?
    ensures MergedMember(Stored(before, extra).members, GeneratePatch(before, after, zero).patch.members, "status")
            == Some(Intended(before, after).status)
            <==> (before.meta == after.meta && before.spec == after.spec ==>
                    ExpressibleMember(map["status" := before.status], "status", after.status))
  {
    var o, n := Marshal(OldHalf(before, after, zero)), Marshal(NewHalf(before, after, zero));
    if SpecOrMetaChanged(before, after) {
      UnchangedMember(o, n, "status");
    } else {
      ChangedMember(Stored(before, extra).members, o, n, "status");
    }
  }

  /** Whatever the patch does to the three parts of the resource, it does not
      touch any other member. */
  lemma CommitExtra(before: Resource, after: Resource, zero: Resource, extra: Members, k: string)
    requires ValidCommit(before, after, zero, extra)
    requires GeneratePatch(before, after, zero).Patch?
    requires k != "metadata" && k != "spec" && k != "status"
    ensures MergedMember(Stored(before, extra).members, GeneratePatch(before, after, zero).patch.members, k)
            == Lookup(extra, k)
  {
  }

  /** Main result: the generated patch, applied to the stored old object, gives
      the new spec and metadata or the new status, leaves the other half, the
      uid and the resource version as they were, and does so exactly when a
      merge patch can express the change. */
  lemma CommitYieldsIntended(before: Resource, after: Resource, zero: Resource, extra: Members)
    requires ValidCommit(before, after, zero, extra)
    requires GeneratePatch(before, after, zero).Patch?
    ensures MergePatch(Stored(before, extra), GeneratePatch(before, after, zero).patch)
            == Stored(Intended(before, after), extra)
            <==> ExpressibleChange(before, after)
  {
    var p := GeneratePatch(before, after, zero).patch;
    var have, want := Stored(before, extra), Stored(Intended(before, after), extra);
    MergeByMember(have, p);
    var merged := MergePatch(have, p).members;
    CommitMetadata(before, after, zero, extra);
    CommitSpec(before, after, zero, extra);
    CommitStatus(before, after, zero, extra);
    StoredMembers(Intended(before, after), extra);
    if ExpressibleChange(before, after) {
      forall k ensures Lookup(merged, k) == Lookup(want.members, k) {
        if k != "metadata" && k != "spec" && k != "status" {
          CommitExtra(before, after, zero, extra, k);
        }
      }
      SameLookups(merged, want.members);
    }
  }

  /** The metadata entry of a patch or of a stored document. */
  function MetadataOf(document: Members): Members {
    if "metadata" in document then MembersOf(document["metadata"]) else map[]
  }

  /** A server accepts a patch whose metadata names no uid and no resource version
      other than the stored ones. */
  predicate ServerAccepts(stored: Members, patch: Members) {
    && ("uid" in patch ==> Lookup(stored, "uid") == Some(patch["uid"]))
    && ("resourceVersion" in patch ==> Lookup(stored, "resourceVersion") == Some(patch["resourceVersion"]))
  }

  function Precondition(value: string): Option<Json> {
    if value == "" then None else Some(String(value))
  }

  /** Main result: every patch that changes anything names the uid and the
      resource version of the old object exactly when they are not empty, so an
      object that was recreated or written in the meantime refuses it. */
  lemma PatchIsConditional(before: Resource, after: Resource, zero: Resource, stored: Members)
    requires WellFormed(before) && WellFormed(after) && IsZeroValue(zero)
    requires GeneratePatch(before, after, zero).Patch?
    ensures var meta := MetadataOf(GeneratePatch(before, after, zero).patch.members);
            && Lookup(meta, "uid") == Precondition(before.meta.uid)
            && Lookup(meta, "resourceVersion") == Precondition(before.meta.resourceVersion)
            && (ServerAccepts(stored, meta) <==>
                  && (before.meta.uid != "" ==> Lookup(stored, "uid") == Some(String(before.meta.uid)))
                  && (before.meta.resourceVersion != "" ==>
                        Lookup(stored, "resourceVersion") == Some(String(before.meta.resourceVersion))))
  {
    var o, n := OldHalf(before, after, zero), NewHalf(before, after, zero);
    assert MarshalMeta(o.meta) == o.meta.rest;
    DiffByMember(Marshal(o), Marshal(n), "metadata");
    var d := DiffMembers(Object(MarshalMeta(o.meta)), Object(MarshalMeta(n.meta)));
    assert "uid" in d <==> before.meta.uid != "";
    assert "resourceVersion" in d <==> before.meta.resourceVersion != "";
  }

  lemma StoredMetadata(r: Resource, extra: Members)
    requires WellFormed(r)
    ensures MetadataOf(Stored(r, extra).members) == MarshalMeta(r.meta)
    ensures r.meta.uid != "" ==> Lookup(MarshalMeta(r.meta), "uid") == Some(String(r.meta.uid))
    ensures r.meta.resourceVersion != "" ==> Lookup(MarshalMeta(r.meta), "resourceVersion") == Some(String(r.meta.resourceVersion))
  {
    StoredMembers(r, extra);
  }

  /** The document that the committer patches, as the API server stores it. */
  class Storage {
    var document: Json

    constructor (document: Json)
      ensures this.document == document
    {
      this.document := document;
    }

    /** One commit of a change made to a copy read earlier: nothing is sent when
        nothing changed, a change of both halves is refused before it is sent, and a
        stored object with another uid or resource version refuses the patch. When
        the stored object is still the one that was read, the patch is accepted and
        yields the intended object exactly when a merge patch can express it. */
    method Commit(before: Resource, after: Resource, zero: Resource) returns (sent: Generated, accepted: bool)
      requires WellFormed(before) && WellFormed(after) && IsZeroValue(zero)
      requires document.Object?
      modifies this
      ensures sent == GeneratePatch(before, after, zero)
      ensures sent.Nothing? <==> before.meta == after.meta && before.spec == after.spec && before.status == after.status
      ensures sent.ProgrammerError?
              <==> (before.meta != after.meta || before.spec != after.spec) && before.status != after.status
      ensures sent.Patch? <==> (before.meta != after.meta || before.spec != after.spec) != (before.status != after.status)
      ensures accepted <==>
                && sent.Patch?
                && (before.meta.uid != "" ==>
                      Lookup(MetadataOf(old(document).members), "uid") == Some(String(before.meta.uid)))
                && (before.meta.resourceVersion != "" ==>
                      Lookup(MetadataOf(old(document).members), "resourceVersion") == Some(String(before.meta.resourceVersion)))
      ensures document.Object? && document == if accepted then MergePatch(old(document), sent.patch) else old(document)
      ensures forall extra | ValidCommit(before, after, zero, extra) && old(document) == Stored(before, extra) && sent.Patch? ::
                accepted && (document == Stored(Intended(before, after), extra) <==> ExpressibleChange(before, after))
    {
      sent := GeneratePatch(before, after, zero);
      accepted := false;
      if sent.Patch? {
        var stored := MetadataOf(document.members);
        PatchIsConditional(before, after, zero, stored);
        if ServerAccepts(stored, MetadataOf(sent.patch.members)) {
          accepted := true;
          document := MergePatch(document, sent.patch);
        }
        forall extra | ValidCommit(before, after, zero, extra) && old(document) == Stored(before, extra)
          ensures accepted && (document == Stored(Intended(before, after), extra) <==> ExpressibleChange(before, after))
        {
          StoredMetadata(before, extra);
          CommitYieldsIntended(before, after, zero, extra);
        }
      }
    }
  }
}
