/** The condition lists of API resource imports and negotiated API resources
    (apis/apiresource/v1alpha1/apiresourceimport_helpers.go,
    apis/apiresource/v1alpha1/negotiatedapiresource_helpers.go). */
module Conditions {
  import opened Wrappers

  datatype Status = True | False | Unknown

  /** The condition types of either resource. */
  datatype Kind = Compatible | Available | Submitted | Published | Enforced | OtherKind(text: string)

  datatype Condition = Condition(kind: Kind, status: Status, reason: string)

  /** The first condition of a kind. */
  function Find(cs: seq<Condition>, kind: Kind): Option<Condition> {
    if cs == [] then None
    else if cs[0].kind == kind then Some(cs[0])
    else Find(cs[1..], kind)
  }

  predicate IsTrue(cs: seq<Condition>, kind: Kind) {
    Find(cs, kind).Some? && Find(cs, kind).value.status == True
  }

  /** The first condition of the kind replaced, or the new condition appended. */
  function Set(cs: seq<Condition>, c: Condition): seq<Condition> {
    if cs == [] then [c]
    else if cs[0].kind == c.kind then [c] + cs[1..]
    else [cs[0]] + Set(cs[1..], c)
  }

  function Without(cs: seq<Condition>, kind: Kind): seq<Condition> {
    if cs == [] then []
    else if cs[0].kind == kind then Without(cs[1..], kind)
    else [cs[0]] + Without(cs[1..], kind)
  }

  /** Setting a condition changes what is found of its kind and nothing else, and
      keeps all other conditions in order. */
  lemma {:induction false} SetIsLocal(cs: seq<Condition>, c: Condition, kind: Kind)
    ensures Find(Set(cs, c), kind) == if kind == c.kind then Some(c) else Find(cs, kind)
    ensures Without(Set(cs, c), c.kind) == Without(cs, c.kind)
    ensures |Set(cs, c)| == |cs| + if Find(cs, c.kind).Some? then 0 else 1
  {
    if cs == [] {
      assert [c][1..] == [];
    } else if cs[0].kind == c.kind {
      assert ([c] + cs[1..])[1..] == cs[1..];
    } else {
      SetIsLocal(cs[1..], c, kind);
      assert ([cs[0]] + Set(cs[1..], c))[1..] == Set(cs[1..], c);
    }
  }

  lemma {:induction false} WithoutIsLocal(cs: seq<Condition>, removed: Kind, kind: Kind)
    ensures Find(Without(cs, removed), kind) == if kind == removed then None else Find(cs, kind)
  {
    if cs != [] {
      WithoutIsLocal(cs[1..], removed, kind);
      if cs[0].kind != removed {
        assert Without(cs, removed)[1..] == Without(cs[1..], removed);
      }
    }
  }

  lemma {:induction false} WithoutAppend(a: seq<Condition>, b: seq<Condition>, kind: Kind)
    ensures Without(a + b, kind) == Without(a, kind) + Without(b, kind)
  {
    if a == [] {
      assert a + b == b;
    } else {
      WithoutAppend(a[1..], b, kind);
      assert (a + b)[1..] == a[1..] + b;
    }
  }

  lemma {:induction false} FindAt(cs: seq<Condition>, i: nat, kind: Kind)
    requires i <= |cs| && forall j | 0 <= j < i :: cs[j].kind != kind
    ensures i == |cs| ==> Find(cs, kind) == None
    ensures i == |cs| ==> forall c: Condition | c.kind == kind :: Set(cs, c) == cs + [c]
    ensures i < |cs| && cs[i].kind == kind ==> Find(cs, kind) == Some(cs[i])
    ensures i < |cs| && cs[i].kind == kind ==> forall c: Condition | c.kind == kind :: Set(cs, c) == cs[i := c]
  {
    if i > 0 {
      FindAt(cs[1..], i - 1, kind);
      forall c: Condition | c.kind == kind
        ensures i == |cs| ==> Set(cs, c) == cs + [c]
        ensures i < |cs| && cs[i].kind == kind ==> Set(cs, c) == cs[i := c]
      {
        assert Set(cs, c) == [cs[0]] + Set(cs[1..], c);
      }
    }
  }

  /** The status of an object, whose condition list is changed in place. */
  class ConditionList {
    var conditions: seq<Condition>

    constructor (cs: seq<Condition>)
      ensures conditions == cs
    {
      conditions := cs;
    }

    /** The position of the condition that FindCondition points to. */
    method FindCondition(kind: Kind) returns (found: Option<nat>)
      ensures found.None? <==> Find(conditions, kind).None?
      ensures found.Some? ==> found.value < |conditions| && Find(conditions, kind) == Some(conditions[found.value])
      ensures found.Some? ==> forall c: Condition | c.kind == kind :: Set(conditions, c) == conditions[found.value := c]
      ensures found.None? ==> forall c: Condition | c.kind == kind :: Set(conditions, c) == conditions + [c]
    {
      for i := 0 to |conditions|
        invariant forall j | 0 <= j < i :: conditions[j].kind != kind
      {
        if conditions[i].kind == kind {
          FindAt(conditions, i, kind);
          return Some(i);
        }
      }
      FindAt(conditions, |conditions|, kind);
      return None;
    }

    method IsConditionPresentAndEqual(kind: Kind, status: Status) returns (r: bool)
      ensures r <==> Find(conditions, kind).Some? && Find(conditions, kind).value.status == status
    {
      var found := FindCondition(kind);
      return found.Some? && conditions[found.value].status == status;
    }

    method SetCondition(c: Condition)
      modifies this
      ensures conditions == Set(old(conditions), c)
    {
      var existing := FindCondition(c.kind);
      if existing.None? {
        conditions := conditions + [c];
      } else {
        conditions := conditions[existing.value := c];
      }
    }

    method RemoveCondition(kind: Kind)
      modifies this
      ensures conditions == Without(old(conditions), kind)
    {
      var kept: seq<Condition> := [];
      for i := 0 to |conditions|
        invariant conditions == old(conditions) && kept == Without(conditions[..i], kind)
      {
        WithoutAppend(conditions[..i], [conditions[i]], kind);
        assert conditions[..i + 1] == conditions[..i] + [conditions[i]];
        assert [conditions[i]][1..] == [];
        if conditions[i].kind != kind { kept := kept + [conditions[i]]; }
      }
      assert conditions[..|conditions|] == conditions;
      conditions := kept;
    }
  }
}
