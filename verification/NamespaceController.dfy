/** The downstream namespace controller as it runs: cleaning plans, the delayed
    worker, the worker that follows upstream namespaces, and the DNS table
    (pkg/syncer/namespace/namespace_downstream_controller.go,
    pkg/syncer/namespace/namespace_downstream_process.go). */
module NamespaceController {
  import opened Wrappers
  import opened Locators
  import opened NamespaceCleaner

  /** A firing that nothing interrupts, from where it tries to delete. */
  function EndOfFiring(c: Cleaner, key: string, result: DeleteResult): Cleaner
    requires key in c.working
  {
    var deleted := DeleteKey(c, key, result);
    if key !in deleted.working then deleted else FinishKey(deleted, key)
  }

  /** The same, from the probe on. */
  function RestOfFiring(c: Cleaner, key: string, found: ProbeResult, result: DeleteResult): Cleaner
    requires key in c.working
  {
    var probed := ProbeKey(c, key, found);
    if key !in probed.working then probed else EndOfFiring(probed, key, result)
  }

  function Fire(c: Cleaner, key: string, found: ProbeResult, result: DeleteResult): Cleaner
    requires key !in c.working
  {
    var taken := TakeKey(c, key);
    if key !in taken.working then taken else RestOfFiring(taken, key, found, result)
  }

  /** A downstream namespace as the informer shows it. */
  datatype View = View(annotation: string, deleting: bool)

  /** The answer of the lister for an upstream namespace, unless it fails. */
  type Lister = (string, string) -> Option<bool>

  /** The namespace has a locator of this sync target; the annotation is decoded as
      it is written, and the uid alone is compared. */
  predicate IsOurs(codec: Codec, uid: string, view: Option<View>) {
    && view.Some? && view.value.annotation != ""
    && codec.decode(view.value.annotation).Some? && codec.decode(view.value.annotation).value.syncTarget.uid == uid
  }

  /** What a turn of the worker learns of the upstream namespace: nothing, unless the
      namespace is ours and live and the DNS table was refreshed. */
  function Learned(codec: Codec, uid: string, view: Option<View>, dnsUpdated: bool, lister: Lister): Option<bool> {
    if IsOurs(codec, uid, view) && dnsUpdated && !view.value.deleting then
      var l := codec.decode(view.value.annotation).value;
      lister(l.clusterName, l.ns)
    else
      None
  }

  /** The cleaner after a turn that learned whether the upstream namespace exists. */
  function Turn(delay: int, c: Cleaner, key: string, exists': Option<bool>): Cleaner {
    if exists'.None? then c
    else if exists'.value then NamespaceCleaner.CancelCleaning(c, key)
    else NamespaceCleaner.PlanCleaning(delay, c, key)
  }

  class DownstreamController {
    const codec: Codec
    const syncTargetUid: string
    const namespaceCleanDelay: int
    var toDeleteMap: map<string, int>
    var waiting: map<string, int>
    var ready: set<string>

    ghost predicate Matches(c: Cleaner)
      reads this
    {
      toDeleteMap == c.toDelete && waiting == c.waiting && ready == c.ready
    }

    constructor (codec: Codec, uid: string, delay: int)
      ensures Matches(INITIAL)
      ensures this.codec == codec && syncTargetUid == uid && namespaceCleanDelay == delay
    {
      this.codec, syncTargetUid, namespaceCleanDelay := codec, uid, delay;
      toDeleteMap, waiting, ready := map[], map[], {};
    }

    method IsPlannedForCleaning(key: string) returns (planned: bool)
      ensures planned <==> key in toDeleteMap
    {
      return key in toDeleteMap;
    }

    method AddAfter(now: int, key: string, after: int, ghost c: Cleaner)
      requires Matches(c) && now == c.now
      modifies this
      ensures Matches(Enqueue(c, key, after))
    {
      if after <= 0 {
        ready := ready + {key};
      } else if key !in waiting || waiting[key] > now + after {
        waiting := waiting[key := now + after];
      }
    }

    method CancelCleaning(key: string, ghost c: Cleaner)
      requires Matches(c)
      modifies this
      ensures Matches(NamespaceCleaner.CancelCleaning(c, key))
    {
      toDeleteMap := toDeleteMap - {key};
    }

    method PlanCleaning(now: int, key: string, ghost c: Cleaner)
      requires Matches(c) && now == c.now
      modifies this
      ensures Matches(NamespaceCleaner.PlanCleaning(namespaceCleanDelay, c, key))
    {
      if key !in toDeleteMap || now > toDeleteMap[key] {
        toDeleteMap := toDeleteMap[key := now + namespaceCleanDelay];
        AddAfter(now, key, namespaceCleanDelay, c.(toDelete := toDeleteMap));
      }
    }

    /** One turn of the delayed worker; a failed call is retried after a back-off. */
    method ProcessNextDelayedWorkItem(now: int, key: string, found: ProbeResult, result: DeleteResult, ghost c: Cleaner)
      requires Matches(c) && now == c.now && key in ready && key !in c.working
      modifies this
      ensures Matches(Fire(c, key, found, result))
    {
      ready := ready - {key};
      ghost var taken := TakeKey(c, key);
      var planned := IsPlannedForCleaning(key);
      if !planned { return; }
      match found
      case ProbeFailed(backoff) =>
        AddAfter(now, key, backoff, taken.(working := taken.working - {key}));
      case NotEmpty =>
      case Empty =>
        ghost var probed := ProbeKey(taken, key, Empty);
        if result.DeleteFailed? {
          AddAfter(now, key, result.backoff, probed.(working := probed.working - {key}));
        } else {
          ghost var deleted := DeleteKey(probed, key, result);
          CancelCleaning(key, deleted.(working := deleted.working - {key}));
        }
    }

    /** One turn of the worker that follows upstream namespaces. */
    method Process(now: int, key: string, view: Option<View>, dnsUpdated: bool, lister: Lister, ghost c: Cleaner)
      returns (retry: bool)
      requires Matches(c) && now == c.now
      modifies this
      ensures retry <==> IsOurs(codec, syncTargetUid, view) && !dnsUpdated
      ensures var exists' := Learned(codec, syncTargetUid, view, dnsUpdated, lister);
              && (exists'.None? ==> Matches(c))
              && (exists'.Some? ==> (key in toDeleteMap <==> !exists'.value))
              && (exists' == Some(true) ==> waiting == old(waiting) && ready == old(ready))
              && (exists' == Some(false) && key !in old(toDeleteMap) ==>
                    key in toDeleteMap && toDeleteMap[key] == now + namespaceCleanDelay && (key in waiting || key in ready))
              && Matches(Turn(namespaceCleanDelay, c, key, exists'))
      ensures view.None? || view.value.annotation == "" || codec.decode(view.value.annotation).None? ==>
                !retry && toDeleteMap == old(toDeleteMap) && waiting == old(waiting) && ready == old(ready)
      ensures forall l: Locator | view.Some? && view.value.annotation != "" && codec.decode(view.value.annotation) == Some(l) ::
                var same := toDeleteMap == old(toDeleteMap) && waiting == old(waiting) && ready == old(ready);
                if l.syncTarget.uid != syncTargetUid then same && !retry
                else if !dnsUpdated then same && retry
                else if view.value.deleting || lister(l.clusterName, l.ns).None? then same && !retry
                else !retry && (key in toDeleteMap <==> lister(l.clusterName, l.ns) == Some(false))
      ensures forall k | k != key :: k in toDeleteMap <==> k in old(toDeleteMap)
      ensures forall k | k != key && k in toDeleteMap :: toDeleteMap[k] == old(toDeleteMap)[k]
    {
      retry := false;
      if view.None? || view.value.annotation == "" { return; }
      var locator := codec.decode(view.value.annotation);
      if locator.None? || locator.value.syncTarget.uid != syncTargetUid { return; }
      if !dnsUpdated { return true; }
      if view.value.deleting { return; }
      var upstreamExists := lister(locator.value.clusterName, locator.value.ns);
      if upstreamExists.None? { return; }
      if upstreamExists.value { CancelCleaning(key, c); } else { PlanCleaning(now, key, c); }
    }
  }

  lemma EndKeepsInvariant(delay: int, c: Cleaner, key: string, result: DeleteResult)
    requires Inv(delay, c) && Enabled(c, Delete(key, result))
    ensures Inv(delay, EndOfFiring(c, key, result)) && key !in EndOfFiring(c, key, result).working
  {
    DeleteKeeps(delay, c, key, result);
    var deleted := DeleteKey(c, key, result);
    if key in deleted.working { FinishKeeps(delay, deleted, key); }
  }

  lemma RestKeepsInvariant(delay: int, c: Cleaner, key: string, found: ProbeResult, result: DeleteResult)
    requires Inv(delay, c) && Enabled(c, Probe(key, found))
    ensures Inv(delay, RestOfFiring(c, key, found, result)) && key !in RestOfFiring(c, key, found, result).working
  {
    ProbeKeeps(delay, c, key, found);
    if key in ProbeKey(c, key, found).working { EndKeepsInvariant(delay, ProbeKey(c, key, found), key, result); }
  }

  lemma FireKeepsInvariant(delay: int, c: Cleaner, key: string, found: ProbeResult, result: DeleteResult)
    requires Inv(delay, c) && key in c.ready && key !in c.working
    ensures Inv(delay, Fire(c, key, found, result)) && key !in Fire(c, key, found, result).working
  {
    TakeKeeps(delay, c, key);
    if key in TakeKey(c, key).working { RestKeepsInvariant(delay, TakeKey(c, key), key, found, result); }
  }

  /** What the end of a firing logs, and what becomes of the key. */
  lemma EndIs(c: Cleaner, key: string, result: DeleteResult)
    requires key in c.working
    ensures var r := EndOfFiring(c, key, result);
            && c.log <= r.log
            && (Deleted(key, c.now) in r.log[|c.log|..] <==> result == Gone)
            && (key in r.toDelete <==> key in c.toDelete && result.DeleteFailed?)
            && (forall k | k != key :: (k in r.toDelete <==> k in c.toDelete) && (k in r.waiting <==> k in c.waiting))
  {
    var r := EndOfFiring(c, key, result);
    var done := Cancelled(key, c.now);
    match result
    case DeleteFailed(_) => assert r.log[|c.log|..] == [];
    case NotFound => assert r.log[|c.log|..] == [FoundMissing(key, c.now), done];
    case Gone =>
      assert r.log[|c.log|..] == [Deleted(key, c.now), done];
      assert [Deleted(key, c.now), done][0] == Deleted(key, c.now);
  }

  lemma RestIs(c: Cleaner, key: string, found: ProbeResult, result: DeleteResult)
    requires key in c.working
    ensures var r := RestOfFiring(c, key, found, result);
            && c.log <= r.log
            && (Deleted(key, c.now) in r.log[|c.log|..] <==> found == Empty && result == Gone)
            && (key in r.toDelete <==> key in c.toDelete && (found != Empty || result.DeleteFailed?))
            && (forall k | k != key :: (k in r.toDelete <==> k in c.toDelete) && (k in r.waiting <==> k in c.waiting))
  {
    var probed := ProbeKey(c, key, found);
    if found == Empty {
      EndIs(probed, key, result);
      var r := EndOfFiring(probed, key, result);
      assert r.log[|c.log|..] == [FoundEmpty(key, c.now)] + r.log[|probed.log|..];
    } else if found == NotEmpty {
      assert probed.log[|c.log|..] == [FoundFull(key, c.now)];
    } else {
      assert probed.log[|c.log|..] == [];
    }
  }

  /** Main result: a firing that nothing interrupts deletes a namespace exactly when
      it is planned, empty and there; then it is not planned any more. */
  lemma FireDeletesIff(c: Cleaner, key: string, found: ProbeResult, result: DeleteResult)
    requires key !in c.working
    ensures var r := Fire(c, key, found, result);
            && (Deleted(key, c.now) in r.log[|c.log|..] <==> key in c.toDelete && found == Empty && result == Gone)
            && (key in r.toDelete <==> key in c.toDelete && (found != Empty || result.DeleteFailed?))
            && (forall k | k != key :: (k in r.toDelete <==> k in c.toDelete) && (k in r.waiting <==> k in c.waiting))
  {
    var taken := TakeKey(c, key);
    if key in c.toDelete {
      RestIs(taken, key, found, result);
      var r := RestOfFiring(taken, key, found, result);
      assert r.log[|c.log|..] == [FoundPlanned(key, c.now)] + r.log[|taken.log|..];
    } else {
      assert taken.log[|c.log|..] == [];
    }
  }

  /** A firing that fails leaves the map alone and is tried again after the back-off, or
      sooner if the key waits for a sooner time. */
  lemma FailedFiringIsRetried(c: Cleaner, key: string, found: ProbeResult, result: DeleteResult, backoff: int)
    requires key !in c.working && key in c.toDelete
    requires found == ProbeFailed(backoff) || (found == Empty && result == DeleteFailed(backoff))
    ensures var r := Fire(c, key, found, result);
            && r.toDelete == c.toDelete
            && (key in r.ready <==> backoff <= 0)
            && (backoff <= 0 ==> r.waiting == c.waiting)
            && (backoff > 0 ==>
                  && key in r.waiting
                  && r.waiting[key] == if key in c.waiting && c.waiting[key] <= c.now + backoff then c.waiting[key] else c.now + backoff)
  {
  }

  // ----- the DNS table -----

  datatype Listed = Listed(name: string, annotation: Option<string>)

  /** The namespace stands for an upstream namespace of the workspace. */
  predicate StandsFor(codec: Codec, l: Listed, cluster: string, upstream: string) {
    && l.annotation.Some? && codec.decode(l.annotation.value).Some?
    && var decoded := codec.decode(l.annotation.value).value; decoded.clusterName == cluster && decoded.ns == upstream
  }

  function Fill(codec: Codec, list: seq<Listed>, cluster: string): map<string, string> {
    if list == [] then map[]
    else
      var before, last := Fill(codec, list[..|list| - 1], cluster), list[|list| - 1];
      var d := LocatorFromAnnotation(codec, last.annotation);
      if d.Found? && d.locator.clusterName == cluster then before[d.locator.ns := last.name] else before
  }

  /** The table is filled in one pass over the list of downstream namespaces. */
  method UpdateDNSConfigMap(codec: Codec, list: seq<Listed>, cluster: string) returns (data: map<string, string>)
    ensures data == Fill(codec, list, cluster)
    ensures IsTable(codec, list, cluster, data)
  {
    data := map[];
    for n := 0 to |list|
      invariant data == Fill(codec, list[..n], cluster)
    {
      assert list[..n + 1][..n] == list[..n];
      var d := LocatorFromAnnotation(codec, list[n].annotation);
      if d.Found? && d.locator.clusterName == cluster {
        data := data[d.locator.ns := list[n].name];
      }
    }
    assert list[..|list|] == list;
    FillIsTable(codec, list, cluster);
  }

  /** A table has an entry for exactly the upstream namespaces of the workspace that
      some downstream namespace stands for, and each entry names such a one. */
  ghost predicate IsTable(codec: Codec, list: seq<Listed>, cluster: string, data: map<string, string>) {
    && (forall u :: u in data ==> exists l :: l in list && StandsFor(codec, l, cluster, u) && l.name == data[u])
    && (forall l, u | l in list && StandsFor(codec, l, cluster, u) :: u in data)
  }

  lemma {:induction false} FillIsTable(codec: Codec, list: seq<Listed>, cluster: string)
    ensures IsTable(codec, list, cluster, Fill(codec, list, cluster))
  {
    if list != [] {
      var init, last := list[..|list| - 1], list[|list| - 1];
      FillIsTable(codec, init, cluster);
      assert list == init + [last];
      var before, data := Fill(codec, init, cluster), Fill(codec, list, cluster);
      forall u | u in data ensures exists l :: l in list && StandsFor(codec, l, cluster, u) && l.name == data[u] {
        if StandsFor(codec, last, cluster, u) {
          assert last in list && last.name == data[u];
        } else {
          var l :| l in init && StandsFor(codec, l, cluster, u) && l.name == before[u];
          assert l in list;
        }
      }
    }
  }

  /** No two namespaces of different names stand for the same upstream namespace. */
  ghost predicate Unambiguous(codec: Codec, list: seq<Listed>, cluster: string) {
    forall l, l', u | l in list && l' in list && StandsFor(codec, l, cluster, u) && StandsFor(codec, l', cluster, u) ::
      l.name == l'.name
  }

  lemma TablesAgree(codec: Codec, list: seq<Listed>, cluster: string, data: map<string, string>, data': map<string, string>)
    requires Unambiguous(codec, list, cluster) && IsTable(codec, list, cluster, data) && IsTable(codec, list, cluster, data')
    ensures data == data'
  {
    forall u | u in data ensures u in data' && data[u] == data'[u] {
      var l :| l in list && StandsFor(codec, l, cluster, u) && l.name == data[u];
      var l' :| l' in list && StandsFor(codec, l', cluster, u) && l'.name == data'[u];
    }
    forall u | u in data' ensures u in data {
      var l' :| l' in list && StandsFor(codec, l', cluster, u) && l'.name == data'[u];
    }
  }

  /** All tables that fit the list agree exactly when no upstream namespace of the
      workspace has two downstream namespaces. */
  lemma FittingTablesAgreeIff(codec: Codec, list: seq<Listed>, cluster: string)
    ensures Unambiguous(codec, list, cluster)
            <==> forall data, data' | IsTable(codec, list, cluster, data) && IsTable(codec, list, cluster, data') :: data == data'
  {
    if Unambiguous(codec, list, cluster) {
      forall data, data' | IsTable(codec, list, cluster, data) && IsTable(codec, list, cluster, data') ensures data == data' {
        TablesAgree(codec, list, cluster, data, data');
      }
    } else {
      var data, data' := TwoTables(codec, list, cluster);
    }
  }

  lemma TwoTables(codec: Codec, list: seq<Listed>, cluster: string) returns (data: map<string, string>, data': map<string, string>)
    requires !Unambiguous(codec, list, cluster)
    ensures IsTable(codec, list, cluster, data) && IsTable(codec, list, cluster, data') && data != data'
  {
    var l, l', u :| l in list && l' in list && StandsFor(codec, l, cluster, u) && StandsFor(codec, l', cluster, u)
      && l.name != l'.name;
    FillIsTable(codec, list, cluster);
    data := Fill(codec, list, cluster);
    OtherEntry(codec, list, cluster, data, l, u);
    OtherEntry(codec, list, cluster, data, l', u);
    data, data' := data[u := l.name], data[u := l'.name];
    assert data[u] != data'[u];
  }

  lemma OtherEntry(codec: Codec, list: seq<Listed>, cluster: string, data: map<string, string>, l: Listed, u: string)
    requires IsTable(codec, list, cluster, data) && l in list && StandsFor(codec, l, cluster, u)
    ensures IsTable(codec, list, cluster, data[u := l.name])
  {
    var data' := data[u := l.name];
    forall v | v in data' ensures exists m :: m in list && StandsFor(codec, m, cluster, v) && m.name == data'[v] {
      if v == u {
        assert l in list && l.name == data'[v];
      } else {
        var m :| m in list && StandsFor(codec, m, cluster, v) && m.name == data[v];
        assert m.name == data'[v];
      }
    }
  }

  // ----- the order of the list -----

  function MovedToEnd(list: seq<Listed>, i: nat): seq<Listed>
    requires i < |list|
  {
    list[..i] + list[i + 1..] + [list[i]]
  }

  lemma MovedIsPermuted(list: seq<Listed>, i: nat)
    requires i < |list|
    ensures multiset(MovedToEnd(list, i)) == multiset(list)
  {
    assert list == list[..i] + [list[i]] + list[i + 1..];
  }

  /** The last entry for an upstream namespace is the one in the table. */
  lemma LastEntryWins(codec: Codec, list: seq<Listed>, cluster: string, i: nat, u: string)
    requires i < |list| && StandsFor(codec, list[i], cluster, u)
    ensures var data := Fill(codec, MovedToEnd(list, i), cluster); u in data && data[u] == list[i].name
  {
    var moved := MovedToEnd(list, i);
    assert moved[|moved| - 1] == list[i];
  }

  /** An ambiguous list has an order with another table. */
  lemma OtherOrder(codec: Codec, list: seq<Listed>, cluster: string) returns (other: seq<Listed>)
    requires !Unambiguous(codec, list, cluster)
    ensures multiset(other) == multiset(list) && Fill(codec, other, cluster) != Fill(codec, list, cluster)
  {
    var l, l', u :| l in list && l' in list && StandsFor(codec, l, cluster, u) && StandsFor(codec, l', cluster, u)
      && l.name != l'.name;
    var i: nat :| i < |list| && list[i] == l;
    var j: nat :| j < |list| && list[j] == l';
    MovedIsPermuted(list, i);
    MovedIsPermuted(list, j);
    LastEntryWins(codec, list, cluster, i, u);
    LastEntryWins(codec, list, cluster, j, u);
    other := if Fill(codec, MovedToEnd(list, i), cluster) != Fill(codec, list, cluster)
      then MovedToEnd(list, i) else MovedToEnd(list, j);
  }

  /** Which tables fit a list does not depend on its order. */
  lemma PermutedIsTable(codec: Codec, list: seq<Listed>, other: seq<Listed>, cluster: string, data: map<string, string>)
    requires multiset(list) == multiset(other) && IsTable(codec, other, cluster, data)
    ensures IsTable(codec, list, cluster, data)
  {
    forall l ensures l in list <==> l in other {
      assert l in multiset(list) <==> l in multiset(other);
    }
    forall u | u in data ensures exists l :: l in list && StandsFor(codec, l, cluster, u) && l.name == data[u] {
      var l :| l in other && StandsFor(codec, l, cluster, u) && l.name == data[u];
      assert l in list;
    }
  }

  lemma OrderDoesNotMatter(codec: Codec, list: seq<Listed>, other: seq<Listed>, cluster: string)
    requires Unambiguous(codec, list, cluster) && multiset(other) == multiset(list)
    ensures Fill(codec, other, cluster) == Fill(codec, list, cluster)
  {
    FillIsTable(codec, list, cluster);
    FillIsTable(codec, other, cluster);
    PermutedIsTable(codec, list, other, cluster, Fill(codec, other, cluster));
    TablesAgree(codec, list, cluster, Fill(codec, list, cluster), Fill(codec, other, cluster));
  }

  /** Main result: every order in which the namespaces are listed gives the same
      table exactly when no upstream namespace of the workspace has two downstream
      namespaces. It has two when two sync targets of the workspace share the
      cluster, since the sync target of a locator is not looked at. */
  lemma TableIsDeterminedIff(codec: Codec, list: seq<Listed>, cluster: string)
    ensures Unambiguous(codec, list, cluster)
            <==> forall other | multiset(other) == multiset(list) :: Fill(codec, other, cluster) == Fill(codec, list, cluster)
  {
    if Unambiguous(codec, list, cluster) {
      forall other | multiset(other) == multiset(list) ensures Fill(codec, other, cluster) == Fill(codec, list, cluster) {
        OrderDoesNotMatter(codec, list, other, cluster);
      }
    } else {
      var other := OtherOrder(codec, list, cluster);
    }
  }

  /** Two sync targets that sync one upstream namespace to one cluster: the name that
      the table gives depends on which of their namespaces is listed last. */
  lemma TwoTargetsShareAnEntry(codec: Codec, st: SyncTargetLocator, st': SyncTargetLocator, cluster: string, ns: string)
    requires Locators.Lawful(codec)
    ensures var a := Listed("kcp-a", Some(codec.encode(Locator(st, cluster, ns))));
            var b := Listed("kcp-b", Some(codec.encode(Locator(st', cluster, ns))));
            && Fill(codec, [a, b], cluster) == map[ns := "kcp-b"]
            && Fill(codec, [b, a], cluster) == map[ns := "kcp-a"]
  {
    var a := Listed("kcp-a", Some(codec.encode(Locator(st, cluster, ns))));
    var b := Listed("kcp-b", Some(codec.encode(Locator(st', cluster, ns))));
    assert codec.decode(a.annotation.value) == Some(Locator(st, cluster, ns));
    assert codec.decode(b.annotation.value) == Some(Locator(st', cluster, ns));
    assert [a, b][..1] == [a] && [b, a][..1] == [b] && [a][..0] == [] && [b][..0] == [];
    assert Fill(codec, [], cluster) == map[];
    assert Fill(codec, [a], cluster) == map[ns := "kcp-a"];
    assert Fill(codec, [b], cluster) == map[ns := "kcp-b"];
  }
}
