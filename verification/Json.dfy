/** JSON documents of unbounded depth, and applying a JSON merge patch to one
    (section 2 of RFC 7396). */
module Json {
  import opened Wrappers

  datatype Json =
    | Null
    | Bool(flag: bool)
    | Number(num: int)
    | String(text: string)
    | Array(elems: seq<Json>)
    | Object(members: map<string, Json>)

  type Members = map<string, Json>

  function MembersOf(j: Json): Members {
    if j.Object? then j.members else map[]
  }

  function Lookup(m: Members, k: string): Option<Json> {
    if k in m then Some(m[k]) else None
  }

  /** MergePatch of section 2 of RFC 7396. A missing target member is merged
      exactly as a null one would be. */
  function MergePatch(target: Json, patch: Json): Json
    decreases patch
  {
    if patch.Object? then
      var base := MembersOf(target);
      Object(map k | k in base.Keys + patch.members.Keys && !(k in patch.members && patch.members[k].Null?) ::
        if k in patch.members
        then MergePatch(if k in base then base[k] else Null, patch.members[k])
        else base[k])
    else
      patch
  }

  /** The member `k` of a merge, which depends on the two members `k` alone. */
  function MergedMember(base: Members, patch: Members, k: string): Option<Json> {
    if k in patch then
      if patch[k].Null? then None
      else Some(MergePatch(if k in base then base[k] else Null, patch[k]))
    else Lookup(base, k)
  }

  lemma MergeByMember(target: Json, patch: Json)
    requires target.Object? && patch.Object?
    ensures MergePatch(target, patch).Object?
    ensures forall k :: Lookup(MergePatch(target, patch).members, k) == MergedMember(target.members, patch.members, k)
  {
  }

  lemma SameLookups(a: Members, b: Members)
    requires forall k :: Lookup(a, k) == Lookup(b, k)
    ensures a == b
  {
    forall k ensures k in a <==> k in b { assert Lookup(a, k) == Lookup(b, k); }
    forall k | k in a ensures a[k] == b[k] { assert Lookup(a, k) == Lookup(b, k); }
  }

  /** No object reachable without entering an array has a null member. */
  ghost predicate NoNullMembers(j: Json)
    decreases j
  {
    j.Object? ==> forall k | k in j.members :: !j.members[k].Null? && NoNullMembers(j.members[k])
  }

  /** Merging into something that is not an object reproduces the patch exactly
      when the patch has no null members. */
  lemma {:induction false} MergeIntoNothing(target: Json, patch: Json)
    requires !target.Object?
    ensures MergePatch(target, patch) == patch <==> NoNullMembers(patch)
    decreases patch
  {
    if patch.Object? {
      var merged := MergePatch(target, patch).members;
      forall k | k in patch.members && !patch.members[k].Null?
        ensures k in merged && (merged[k] == patch.members[k] <==> NoNullMembers(patch.members[k]))
      {
        MergeIntoNothing(Null, patch.members[k]);
      }
      if merged == patch.members {
        forall k | k in patch.members ensures !patch.members[k].Null? && NoNullMembers(patch.members[k]) {
          assert k in merged;
        }
      }
    }
  }
}
