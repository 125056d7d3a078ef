/** One object and one sync target left alone: repeated spec and status steps
    settle, and where they settle. */
module Convergence {
  import opened Wrappers
  import opened Json
  import opened Kube
  import opened Naming
  import opened Locators
  import opened Finalizers
  import opened Syncer
  import opened CopyContents
  import opened Ownership
  import opened Iteration

  /** What a server-side apply of the object sends, without the status. */
  function Sent(c: Conf, deps: Deps, gvr: Gvr, o: KubeObject): Option<KubeObject> {
    match Downstream(c, deps, gvr, o)
    case None => None
    case Some(sent) => Some(sent.(content := sent.content - {"status"}))
  }

  /** Mutators do not look at the status that this syncer writes, and do not fail
      because of its finalizer. */
  ghost predicate Transparent(c: Conf, deps: Deps) {
    && (forall gvr, o, status :: Sent(c, deps, gvr, WithStatus(c, deps, o, status)) == Sent(c, deps, gvr, o))
    && (forall gvr, o :: Sent(c, deps, gvr, Claimed(o, c.target)).Some? <==> Sent(c, deps, gvr, o).Some?)
  }

  /** Nothing stands in the way of the object: its namespace `n` can be used, the
      transformations work, and the store has no object that should have left. */
  ghost predicate Ready(s: Setting, w: World, t: Target, u: UpKey, n: string) {
    && Sound(s) && Consistent(s, w) && t in s.confs
    && Transparent(s.confs[t], s.deps) && !Reserved(u.gvr, u.name)
    && TargetNamespace(s.confs[t], s.deps, w.down[t], u) == Some(n)
    && NamespaceUsable(s.deps, w.down[t].namespaces, n, Desired(s.confs[t], u))
    && !(SYNCER_ID_PREFIX <= n)
    && Presentable(s, w.up, t, u)
  }

  ghost predicate Presentable(s: Setting, up: Upstream, t: Target, u: UpKey)
    requires t in s.confs
  {
    && (View(up, t, u).Some? ==> Sent(s.confs[t], s.deps, u.gvr, up[u]).Some?)
    && (u in up ==> !(up[u].deleting && up[u].finalizers == []))
  }

  function KeyOf(s: Setting, u: UpKey, n: string): DownKey {
    DownKey(u.gvr, n, NameInRun(s, u.gvr, u.name))
  }

  ghost function SpecOnce(s: Setting, w: World, t: Target, u: UpKey): World
    requires Sound(s) && Consistent(s, w) && t in s.confs
  {
    Next(s, w, Spec(t, u, DnsReady))
  }

  /** The status step for the key of the object, once it has had a copy. */
  ghost function StatusOnce(s: Setting, w: World, t: Target, u: UpKey, n: string): World
    requires Sound(s) && Consistent(s, w) && t in s.confs
  {
    if KeyOf(s, u, n) in w.down[t].seen then Next(s, w, Status(t, KeyOf(s, u, n))) else w
  }

  // ----- the two steps, spelled out -----

  /** The spec step finds the same namespace again after it ensured it. */
  lemma NamespaceStays(s: Setting, c: Conf, up: Upstream, d: Down, u: UpKey, n: string)
    requires Lawful(s.deps.codec) && DownConsistent(s, c, up, d)
    requires TargetNamespace(c, s.deps, d, u) == Some(n) && NamespaceUsable(s.deps, d.namespaces, n, Desired(c, u))
    ensures var d' := EnsureNamespace(s.deps, d, n, Desired(c, u));
            && TargetNamespace(c, s.deps, d', u) == Some(n)
            && NamespaceUsable(s.deps, d'.namespaces, n, Desired(c, u))
            && EnsureNamespace(s.deps, d', n, Desired(c, u)) == d'
  {
    var l := Desired(c, u);
    var d' := EnsureNamespace(s.deps, d, n, l);
    EnsureNamespaceKeeps(s, c, up, d, u, n);
    IndexIsScan(s.deps.codec, d.namespaces, l);
    IndexIsScan(s.deps.codec, d'.namespaces, l);
    assert Ours(c, l);
    assert d'.namespaces[n].watched;
    assert ByScan(s.deps.codec, d'.namespaces, l) == {n};
    assert EnsureNamespace(s.deps, d', n, l).namespaces == d'.namespaces;
  }

  /** What is left for the syncer to do, as a number that its steps decrease:
      the namespace, the status, and the stage the object is in. */
  function Measure(s: Setting, w: World, t: Target, u: UpKey, n: string): nat
    requires t in s.confs && t in w.down
  {
    match View(w.up, t, u)
    case None => if DownKey(u.gvr, n, u.name) in w.down[t].objects then 1 else 0
    case Some(o) => WorkLeft(s, s.confs[t], w.down[t], u, n, o)
  }

  function WorkLeft(s: Setting, c: Conf, d: Down, u: UpKey, n: string, o: KubeObject): nat {
    (if EnsureNamespace(s.deps, d, n, Desired(c, u)) == d then 0 else 1)
    + (if StatusSettled(c, s.deps, d, KeyOf(s, u, n), o) then 0 else 1)
    + Stage(s, c, d, u, n, o)
  }

  function Stage(s: Setting, c: Conf, d: Down, u: UpKey, n: string, o: KubeObject): nat {
    if ToBeRemoved(o, c.target) then (if KeyOf(s, u, n) in d.objects then 3 else 2)
    else if NeedsClaim(o, c.target) then 6
    else if CopySettled(c, s.deps, d, KeyOf(s, u, n), u, o) then 2
    else 4
  }

  /** The status controller finds a status at the key. */
  predicate HasStatus(c: Conf, d: Down, k: DownKey) {
    && IsListed(c.target, d, k) && d.objects[k].status.Some?
    && Read(d.objects[k].body.labels, StateLabel(c.target)) != UPSYNC
  }

  /** The status of the copy, if it has one, is upstream. */
  predicate StatusSettled(c: Conf, deps: Deps, d: Down, k: DownKey, o: KubeObject) {
    HasStatus(c, d, k) ==> WithStatus(c, deps, o, d.objects[k].status.value) == o
  }

  /** The copy is what an apply would make it. */
  predicate CopySettled(c: Conf, deps: Deps, d: Down, k: DownKey, u: UpKey, o: KubeObject) {
    k in d.objects && d.objects[k].Copy? && d.objects[k].origin == u && k in d.seen && Some(d.objects[k].body) == Sent(c, deps, u.gvr, o)
  }

  /** Changing the status alone changes nothing that the spec step looks at. */
  lemma StatusChangesOnlyStatus(c: Conf, deps: Deps, o: KubeObject, status: Json)
    ensures var o' := WithStatus(c, deps, o, status);
            && WithStatus(c, deps, o', status) == o'
            && ToBeRemoved(o', c.target) == ToBeRemoved(o, c.target)
            && IntendedForRemoval(o', c.target) == IntendedForRemoval(o, c.target)
            && NeedsClaim(o', c.target) == NeedsClaim(o, c.target)
            && o'.finalizers == o.finalizers && o'.labels == o.labels && o'.deleting == o.deleting
  {
  }

  lemma ClaimKeepsStatus(c: Conf, deps: Deps, o: KubeObject, status: Json)
    ensures WithStatus(c, deps, Claimed(o, c.target), status) == Claimed(o, c.target) <==> WithStatus(c, deps, o, status) == o
  {
    assert WithStatus(c, deps, Claimed(o, c.target), status) == Claimed(WithStatus(c, deps, o, status), c.target);
    if WithStatus(c, deps, Claimed(o, c.target), status) == Claimed(o, c.target) {
      assert WithStatus(c, deps, o, status).annotations == o.annotations;
      assert WithStatus(c, deps, o, status).content == o.content;
    }
  }

  lemma ReleasedIsOutOfView(up: Upstream, t: Target, u: UpKey)
    requires u in up && IntendedForRemoval(up[u], t)
    ensures View(EnsureReleased(up, u, t, Some(up[u])), t, u).None?
  {
  }

  lemma ClaimStages(s: Setting, c: Conf, d: Down, u: UpKey, n: string, o: KubeObject)
    requires NeedsClaim(o, c.target)
    ensures Stage(s, c, d, u, n, Claimed(o, c.target)) <= 4 && Stage(s, c, d, u, n, o) == 6
  {
  }

  lemma ClaimKeepsSettled(c: Conf, deps: Deps, d: Down, k: DownKey, o: KubeObject)
    ensures StatusSettled(c, deps, d, k, Claimed(o, c.target)) == StatusSettled(c, deps, d, k, o)
  {
    if HasStatus(c, d, k) {
      ClaimKeepsStatus(c, deps, o, d.objects[k].status.value);
    }
  }

  /** The number of a claimed object. */
  lemma ClaimLeavesLess(s: Setting, c: Conf, d: Down, u: UpKey, n: string, o: KubeObject)
    requires NeedsClaim(o, c.target)
    ensures WorkLeft(s, c, d, u, n, Claimed(o, c.target)) < WorkLeft(s, c, d, u, n, o)
  {
    ClaimStages(s, c, d, u, n, o);
    ClaimKeepsSettled(c, s.deps, d, KeyOf(s, u, n), o);
  }

  /** The number after a copy was applied. */
  lemma ApplyLeavesLess(s: Setting, c: Conf, d: Down, u: UpKey, n: string, o: KubeObject)
    requires !NeedsClaim(o, c.target) && !ToBeRemoved(o, c.target) && Downstream(c, s.deps, u.gvr, o).Some?
    ensures var d' := Apply(d, KeyOf(s, u, n), u, Downstream(c, s.deps, u.gvr, o).value);
            d' == d || WorkLeft(s, c, d', u, n, o) < WorkLeft(s, c, d, u, n, o)
  {
    var k := KeyOf(s, u, n);
    var d' := Apply(d, k, u, Downstream(c, s.deps, u.gvr, o).value);
    if CopySettled(c, s.deps, d, k, u, o) {
      assert d'.objects == d.objects && d'.seen == d.seen;
    } else {
      assert CopySettled(c, s.deps, d', k, u, o);
      assert (EnsureNamespace(s.deps, d', n, Desired(c, u)) == d') == (EnsureNamespace(s.deps, d, n, Desired(c, u)) == d) by {
        EnsureLooksAtNamespaces(s.deps, d, d', n, Desired(c, u));
      }
    }
  }

  lemma EnsureLooksAtNamespaces(deps: Deps, d: Down, d': Down, n: string, l: Locator)
    requires d.namespaces == d'.namespaces
    ensures EnsureNamespace(deps, d', n, l) == d' <==> EnsureNamespace(deps, d, n, l) == d
  {
    assert EnsureNamespace(deps, d', n, l).namespaces == EnsureNamespace(deps, d, n, l).namespaces;
  }

  /** The number after a copy was removed. */
  lemma RemovalLeavesLess(s: Setting, c: Conf, d: Down, u: UpKey, n: string, o: KubeObject)
    requires ToBeRemoved(o, c.target) && KeyOf(s, u, n) in d.objects
    ensures WorkLeft(s, c, Remove(d, KeyOf(s, u, n)), u, n, o) < WorkLeft(s, c, d, u, n, o)
  {
    EnsureLooksAtNamespaces(s.deps, d, Remove(d, KeyOf(s, u, n)), n, Desired(c, u));
  }

  /** The number after the status went upstream. */
  lemma StatusLeavesLess(s: Setting, c: Conf, d: Down, u: UpKey, n: string, o: KubeObject)
    requires Transparent(c, s.deps)
    requires !StatusSettled(c, s.deps, d, KeyOf(s, u, n), o)
    ensures WorkLeft(s, c, d, u, n, WithStatus(c, s.deps, o, d.objects[KeyOf(s, u, n)].status.value))
            < WorkLeft(s, c, d, u, n, o)
  {
    StatusChangesOnlyStatus(c, s.deps, o, d.objects[KeyOf(s, u, n)].status.value);
  }

  /** Being ready depends on the namespaces and on the one upstream object. */
  lemma ReadyAgain(s: Setting, w: World, w': World, t: Target, u: UpKey, n: string)
    requires Ready(s, w, t, u, n) && Consistent(s, w')
    requires w'.down[t].namespaces == w.down[t].namespaces
    requires Presentable(s, w'.up, t, u)
    ensures Ready(s, w', t, u, n)
  {
  }

  /** The spec step on an object whose namespace is in place: a claim. */
  lemma ClaimDecreases(s: Setting, w: World, t: Target, u: UpKey, n: string, w': World)
    requires Ready(s, w, t, u, n) && View(w.up, t, u).Some? && NeedsClaim(w.up[u], t)
    requires w' == w.(up := w.up[u := Claimed(w.up[u], t)]) && Consistent(s, w')
    ensures Ready(s, w', t, u, n) && Measure(s, w', t, u, n) < Measure(s, w, t, u, n)
  {
    ClaimLeavesLess(s, s.confs[t], w.down[t], u, n, w.up[u]);
    ReadyAgain(s, w, w', t, u, n);
  }

  /** The removal of the copy. */
  lemma RemovalDecreases(s: Setting, w: World, t: Target, u: UpKey, n: string, w': World)
    requires Ready(s, w, t, u, n) && View(w.up, t, u).Some? && ToBeRemoved(w.up[u], t)
    requires KeyOf(s, u, n) in w.down[t].objects
    requires w' == SetDown(w, t, Remove(w.down[t], KeyOf(s, u, n))) && Consistent(s, w')
    ensures Ready(s, w', t, u, n) && Measure(s, w', t, u, n) < Measure(s, w, t, u, n)
  {
    RemovalLeavesLess(s, s.confs[t], w.down[t], u, n, w.up[u]);
    ReadyAgain(s, w, w', t, u, n);
  }

  /** The release of the object. */
  lemma ReleaseDecreases(s: Setting, w: World, t: Target, u: UpKey, n: string, w': World)
    requires Ready(s, w, t, u, n) && View(w.up, t, u).Some? && IntendedForRemoval(w.up[u], t)
    requires w' == w.(up := EnsureReleased(w.up, u, t, Some(w.up[u]))) && Consistent(s, w')
    ensures Ready(s, w', t, u, n) && Measure(s, w', t, u, n) < Measure(s, w, t, u, n)
  {
    ReleaseReady(s, w, t, u, n);
    ReadyAgain(s, w, w', t, u, n);
  }

  lemma SetSameDown(w: World, t: Target)
    requires t in w.down
    ensures SetDown(w, t, w.down[t]) == w
  {
    assert SetDown(w, t, w.down[t]).down == w.down;
  }

  /** The application of the copy. */
  lemma ApplyMeasure(s: Setting, w: World, t: Target, u: UpKey, n: string, w': World)
    requires t in s.confs && s.confs[t].target == t && t in w.down && View(w.up, t, u).Some?
    requires !NeedsClaim(w.up[u], t) && !ToBeRemoved(w.up[u], t) && Downstream(s.confs[t], s.deps, u.gvr, w.up[u]).Some?
    requires w' == SetDown(w, t, Apply(w.down[t], KeyOf(s, u, n), u, Downstream(s.confs[t], s.deps, u.gvr, w.up[u]).value))
    ensures w'.up == w.up && w'.down[t].namespaces == w.down[t].namespaces
    ensures w' == w || Measure(s, w', t, u, n) < Measure(s, w, t, u, n)
  {
    ApplyLeavesLess(s, s.confs[t], w.down[t], u, n, w.up[u]);
    SetSameDown(w, t);
  }

  /** Being ready again after a change that leaves the upstream store alone. */
  lemma ReadyDownstream(s: Setting, w: World, t: Target, u: UpKey, n: string, w': World)
    requires Ready(s, w, t, u, n) && Consistent(s, w')
    requires w'.up == w.up && w'.down[t].namespaces == w.down[t].namespaces
    ensures Ready(s, w', t, u, n)
  {
    ReadyAgain(s, w, w', t, u, n);
  }

  lemma SyncDecreases(s: Setting, w: World, t: Target, u: UpKey, n: string, o: KubeObject)
    requires Ready(s, w, t, u, n) && View(w.up, t, u) == Some(o)
    requires n in w.down[t].namespaces
    ensures var w' := SyncObject(s.confs[t], s.deps, w, u, n, o, FreshReads(w, t, u, DnsReady)).world;
            && Ready(s, w', t, u, n)
            && (w' == w || Measure(s, w', t, u, n) < Measure(s, w, t, u, n))
  {
    var c, d := s.confs[t], w.down[t];
    var k := KeyOf(s, u, n);
    var w' := SyncObject(c, s.deps, w, u, n, o, FreshReads(w, t, u, DnsReady)).world;
    NameOfConforming(s, u, o);
    assert CopyKey(u, n, o) == k;
    SyncObjectKeeps(s, w, t, u, n, o, DnsReady);
    if NeedsClaim(o, t) {
      ClaimDecreases(s, w, t, u, n, w');
    } else if ToBeRemoved(o, t) {
      if k in d.objects {
        RemovalDecreases(s, w, t, u, n, w');
      } else {
        ReleaseDecreases(s, w, t, u, n, w');
      }
    } else {
      ApplyMeasure(s, w, t, u, n, w');
      ReadyDownstream(s, w, t, u, n, w');
    }
  }

  /** A release takes the object out of view and leaves almost nothing to do. */
  lemma ReleaseReady(s: Setting, w: World, t: Target, u: UpKey, n: string)
    requires t in s.confs && t in w.down
    requires View(w.up, t, u).Some? && IntendedForRemoval(w.up[u], t)
    ensures var up := EnsureReleased(w.up, u, t, Some(w.up[u]));
            && (u in up ==> !(up[u].deleting && up[u].finalizers == []) && up[u] == Released(w.up[u], t))
            && View(up, t, u).None?
            && Measure(s, w.(up := up), t, u, n) <= 1 < 2 <= Measure(s, w, t, u, n)
  {
    ReleasedIsOutOfView(w.up, t, u);
  }

  /** Ensuring the namespace changes nothing but the namespace. */
  lemma EnsureNamespaceLeavesLess(s: Setting, c: Conf, d: Down, u: UpKey, n: string, o: KubeObject)
    requires EnsureNamespace(s.deps, EnsureNamespace(s.deps, d, n, Desired(c, u)), n, Desired(c, u))
             == EnsureNamespace(s.deps, d, n, Desired(c, u))
    ensures var d' := EnsureNamespace(s.deps, d, n, Desired(c, u));
            d' == d || WorkLeft(s, c, d', u, n, o) < WorkLeft(s, c, d, u, n, o)
  {
    var d' := EnsureNamespace(s.deps, d, n, Desired(c, u));
    assert d'.objects == d.objects && d'.seen == d.seen;
    assert Stage(s, c, d', u, n, o) == Stage(s, c, d, u, n, o);
    assert StatusSettled(c, s.deps, d', KeyOf(s, u, n), o) == StatusSettled(c, s.deps, d, KeyOf(s, u, n), o);
  }

  lemma EnsureNamespaceReady(s: Setting, w: World, t: Target, u: UpKey, n: string)
    requires Ready(s, w, t, u, n)
    ensures var d' := EnsureNamespace(s.deps, w.down[t], n, Desired(s.confs[t], u));
            Ready(s, SetDown(w, t, d'), t, u, n) && n in d'.namespaces
  {
    var c, d := s.confs[t], w.down[t];
    var w' := SetDown(w, t, EnsureNamespace(s.deps, d, n, Desired(c, u)));
    EnsureNamespaceKeeps(s, c, w.up, d, u, n);
    NamespaceStays(s, c, w.up, d, u, n);
    assert Consistent(s, w');
  }

  lemma EnsureNamespaceMeasure(s: Setting, w: World, t: Target, u: UpKey, n: string)
    requires t in s.confs && t in w.down && View(w.up, t, u).Some?
    requires var l := Desired(s.confs[t], u);
             EnsureNamespace(s.deps, EnsureNamespace(s.deps, w.down[t], n, l), n, l) == EnsureNamespace(s.deps, w.down[t], n, l)
    ensures var w' := SetDown(w, t, EnsureNamespace(s.deps, w.down[t], n, Desired(s.confs[t], u)));
            w' == w || Measure(s, w', t, u, n) < Measure(s, w, t, u, n)
  {
    EnsureNamespaceLeavesLess(s, s.confs[t], w.down[t], u, n, w.up[u]);
    SetSameDown(w, t);
  }

  lemma EnsureNamespaceDecreases(s: Setting, w: World, t: Target, u: UpKey, n: string)
    requires Ready(s, w, t, u, n) && View(w.up, t, u).Some?
    ensures var d' := EnsureNamespace(s.deps, w.down[t], n, Desired(s.confs[t], u));
            var w' := SetDown(w, t, d');
            && Ready(s, w', t, u, n) && n in d'.namespaces
            && (w' == w || Measure(s, w', t, u, n) < Measure(s, w, t, u, n))
  {
    EnsureNamespaceReady(s, w, t, u, n);
    NamespaceStays(s, s.confs[t], w.up, w.down[t], u, n);
    EnsureNamespaceMeasure(s, w, t, u, n);
  }

  /** The spec step on an object it sees and whose namespace it can use. */
  lemma SpecIsSync(c: Conf, deps: Deps, w: World, u: UpKey, n: string, dns: Dns)
    requires c.target in w.down && View(w.up, c.target, u).Some?
    requires TargetNamespace(c, deps, w.down[c.target], u) == Some(n)
    requires NamespaceUsable(deps, w.down[c.target].namespaces, n, Desired(c, u))
    ensures var w1 := SetDown(w, c.target, EnsureNamespace(deps, w.down[c.target], n, Desired(c, u)));
            SpecStep(c, deps, w, u, FreshReads(w, c.target, u, dns)).world
            == SyncObject(c, deps, w1, u, n, w.up[u], FreshReads(w1, c.target, u, dns)).world
  {
  }

  /** An object it does not see: the key under the upstream name is emptied. */
  lemma UnseenDecreases(s: Setting, w: World, t: Target, u: UpKey, n: string)
    requires Ready(s, w, t, u, n) && View(w.up, t, u).None?
    ensures var w' := SpecOnce(s, w, t, u);
            && w' == SetDown(w, t, Remove(w.down[t], DownKey(u.gvr, n, u.name)))
            && Ready(s, w', t, u, n)
            && (w' == w || Measure(s, w', t, u, n) < Measure(s, w, t, u, n))
  {
    var d, gone := w.down[t], DownKey(u.gvr, n, u.name);
    RemoveKeeps(s, w, t, gone);
    if gone !in d.objects {
      assert Remove(d, gone).objects == d.objects;
      SetSameDown(w, t);
    }
  }

  /** A spec step either changes nothing or leaves less to do. */
  lemma SpecDecreases(s: Setting, w: World, t: Target, u: UpKey, n: string)
    requires Ready(s, w, t, u, n)
    ensures var w' := SpecOnce(s, w, t, u);
            && Ready(s, w', t, u, n)
            && (w' == w || Measure(s, w', t, u, n) < Measure(s, w, t, u, n))
  {
    var c, d := s.confs[t], w.down[t];
    if View(w.up, t, u).None? {
      UnseenDecreases(s, w, t, u, n);
    } else {
      var w1 := SetDown(w, t, EnsureNamespace(s.deps, d, n, Desired(c, u)));
      EnsureNamespaceDecreases(s, w, t, u, n);
      SyncDecreases(s, w1, t, u, n, w.up[u]);
      SpecIsSync(c, s.deps, w, u, n, DnsReady);
    }
  }

  /** The key of the object leads back to it as long as the namespace is there. */
  lemma KeyLeadsBack(s: Setting, w: World, t: Target, u: UpKey, n: string)
    requires Ready(s, w, t, u, n)
    ensures var back := WayBack(s.confs[t], s.deps, w.down[t], KeyOf(s, u, n));
            if n in w.down[t].namespaces then back == Some(u) else back == None
  {
    SeenName(s, u.gvr, u.name, n);
    if n in w.down[t].namespaces {
      assert Ours(s.confs[t], Desired(s.confs[t], u));
      assert w.down[t].namespaces[n].watched;
    }
  }

  /** A status step either changes nothing or leaves less to do. */
  lemma StatusDecreases(s: Setting, w: World, t: Target, u: UpKey, n: string)
    requires Ready(s, w, t, u, n)
    ensures var w' := StatusOnce(s, w, t, u, n);
            && Ready(s, w', t, u, n)
            && (w' == w || Measure(s, w', t, u, n) < Measure(s, w, t, u, n))
  {
    var c, d := s.confs[t], w.down[t];
    var k := KeyOf(s, u, n);
    var w' := StatusOnce(s, w, t, u, n);
    KeyLeadsBack(s, w, t, u, n);
    if k in d.seen && n in d.namespaces && View(w.up, t, u).Some? {
      StatusKeeps(s, w, t, k);
      StatusStepDecreases(s, w, t, u, n, w.up[u]);
    } else {
      StatusIsIdle(s, w, t, u, n);
    }
  }

  /** Without the namespace, the key or the object there is nothing to do. */
  lemma StatusIsIdle(s: Setting, w: World, t: Target, u: UpKey, n: string)
    requires Ready(s, w, t, u, n)
    requires KeyOf(s, u, n) !in w.down[t].seen || n !in w.down[t].namespaces || View(w.up, t, u).None?
    ensures StatusOnce(s, w, t, u, n) == w
  {
    KeyLeadsBack(s, w, t, u, n);
  }

  /** The status goes upstream. */
  lemma WrittenDecreases(s: Setting, w: World, t: Target, u: UpKey, n: string, status: Json)
    requires Ready(s, w, t, u, n) && View(w.up, t, u).Some?
    requires var d, k := w.down[t], KeyOf(s, u, n);
             HasStatus(s.confs[t], d, k) && d.objects[k].status == Some(status)
    requires Consistent(s, w.(up := w.up[u := WithStatus(s.confs[t], s.deps, w.up[u], status)]))
    ensures var w' := w.(up := w.up[u := WithStatus(s.confs[t], s.deps, w.up[u], status)]);
            Ready(s, w', t, u, n) && (w' == w || Measure(s, w', t, u, n) < Measure(s, w, t, u, n))
  {
    var c, o := s.confs[t], w.up[u];
    var o' := WithStatus(c, s.deps, o, status);
    StatusWritten(c, s.deps, w, u, o, status);
    assert Sent(c, s.deps, u.gvr, o') == Sent(c, s.deps, u.gvr, o);
    ReadyAgain(s, w, w.(up := w.up[u := o']), t, u, n);
    if o' != o {
      StatusLeavesLess(s, c, w.down[t], u, n, o);
    }
  }

  /** The status step on an object it reaches: a release, a written status, or
      nothing. */
  lemma StatusStepIs(c: Conf, deps: Deps, w: World, k: DownKey, u: UpKey, o: KubeObject)
    requires c.target in w.down && View(w.up, c.target, u) == Some(o) && !(o.deleting && o.finalizers == [])
    requires WayBack(c, deps, w.down[c.target], k) == Some(u)
    ensures var d := w.down[c.target];
            var w' := StatusStep(c, deps, w, k, Some(o)).world;
            && (!IsListed(c.target, d, k) ==> w' == w.(up := EnsureReleased(w.up, u, c.target, Some(o))))
            && (HasStatus(c, d, k) ==> w' == w.(up := w.up[u := WithStatus(c, deps, o, d.objects[k].status.value)]))
            && (IsListed(c.target, d, k) && !HasStatus(c, d, k) ==> w' == w)
  {
    var d := w.down[c.target];
    if HasStatus(c, d, k) { StatusWritten(c, deps, w, u, o, d.objects[k].status.value); }
  }

  lemma StatusStepDecreases(s: Setting, w: World, t: Target, u: UpKey, n: string, o: KubeObject)
    requires Ready(s, w, t, u, n) && View(w.up, t, u) == Some(o)
    requires WayBack(s.confs[t], s.deps, w.down[t], KeyOf(s, u, n)) == Some(u)
    requires Consistent(s, StatusStep(s.confs[t], s.deps, w, KeyOf(s, u, n), Some(o)).world)
    ensures var w' := StatusStep(s.confs[t], s.deps, w, KeyOf(s, u, n), Some(o)).world;
            && Ready(s, w', t, u, n)
            && (w' == w || Measure(s, w', t, u, n) < Measure(s, w, t, u, n))
  {
    var c, d := s.confs[t], w.down[t];
    var k := KeyOf(s, u, n);
    StatusStepIs(c, s.deps, w, k, u, o);
    if !IsListed(t, d, k) {
      if IntendedForRemoval(o, t) {
        ReleaseDecreases(s, w, t, u, n, w.(up := EnsureReleased(w.up, u, t, Some(o))));
      }
    } else if HasStatus(c, d, k) {
      WrittenDecreases(s, w, t, u, n, d.objects[k].status.value);
    }
  }

  /** Writing the status neither removes the object nor takes it out of view. */
  lemma StatusWritten(c: Conf, deps: Deps, w: World, u: UpKey, o: KubeObject, status: Json)
    requires View(w.up, c.target, u) == Some(o) && !(o.deleting && o.finalizers == [])
    ensures var o' := WithStatus(c, deps, o, status);
            && Update(w.up, u, o, o') == w.up[u := o']
            && View(w.up[u := o'], c.target, u) == Some(o')
            && (o' == o ==> w.up[u := o'] == w.up)
  {
    StatusChangesOnlyStatus(c, deps, o, status);
  }

  // ----- settling -----

  /** Neither controller changes anything any more. */
  ghost predicate Settled(s: Setting, w: World, t: Target, u: UpKey, n: string)
    requires Sound(s) && Consistent(s, w) && t in s.confs
  {
    SpecOnce(s, w, t, u) == w && StatusOnce(s, w, t, u, n) == w
  }

  /** One spec step and one status step, as long as nothing stands in the way. */
  ghost function Round(s: Setting, t: Target, u: UpKey, n: string): World -> World {
    w => if Ready(s, w, t, u, n) then RoundFrom(s, w, t, u, n) else w
  }

  ghost function RoundFrom(s: Setting, w: World, t: Target, u: UpKey, n: string): (r: World)
    requires Ready(s, w, t, u, n)
    ensures Ready(s, r, t, u, n)
    ensures r == w ==> Settled(s, w, t, u, n)
    ensures r == w || Measure(s, r, t, u, n) < Measure(s, w, t, u, n)
  {
    SpecDecreases(s, w, t, u, n);
    StatusDecreases(s, SpecOnce(s, w, t, u), t, u, n);
    StatusOnce(s, SpecOnce(s, w, t, u), t, u, n)
  }

  /** How far the object is from rest, as a measure on all states. */
  ghost function Distance(s: Setting, t: Target, u: UpKey, n: string): World -> nat {
    w => if Ready(s, w, t, u, n) then Measure(s, w, t, u, n) else 0
  }

  ghost function IsReady(s: Setting, t: Target, u: UpKey, n: string): World -> bool {
    w => Ready(s, w, t, u, n)
  }

  ghost function IsSettled(s: Setting, t: Target, u: UpKey, n: string): World -> bool {
    w => Ready(s, w, t, u, n) && Settled(s, w, t, u, n)
  }

  lemma RoundProgress(s: Setting, w: World, t: Target, u: UpKey, n: string)
    requires Ready(s, w, t, u, n)
    ensures var f, m := Round(s, t, u, n), Distance(s, t, u, n);
            && IsReady(s, t, u, n)(f(w))
            && (f(w) == w || m(f(w)) < m(w))
            && (f(w) == w ==> IsSettled(s, t, u, n)(w))
  {
    var r := RoundFrom(s, w, t, u, n);
    assert Round(s, t, u, n)(w) == r;
    assert Distance(s, t, u, n)(w) == Measure(s, w, t, u, n);
    assert Distance(s, t, u, n)(r) == Measure(s, r, t, u, n);
  }

  lemma RoundsProgress(s: Setting, t: Target, u: UpKey, n: string, f: World -> World, p: World -> bool, m: World -> nat, q: World -> bool)
    requires f == Round(s, t, u, n) && p == IsReady(s, t, u, n) && m == Distance(s, t, u, n) && q == IsSettled(s, t, u, n)
    ensures forall x :: p(x) ==> p(f(x)) && (f(x) == x || m(f(x)) < m(x)) && (f(x) == x ==> q(x))
  {
    forall x | p(x) ensures p(f(x)) && (f(x) == x || m(f(x)) < m(x)) && (f(x) == x ==> q(x)) {
      assert Ready(s, x, t, u, n);
      RoundProgress(s, x, t, u, n);
    }
  }

  lemma CloseEnough(s: Setting, w: World, t: Target, u: UpKey, n: string)
    requires Ready(s, w, t, u, n)
    ensures IsReady(s, t, u, n)(w) && Distance(s, t, u, n)(w) <= 8
  {
    MeasureBound(s, w, t, u, n);
  }

  lemma RestsAfterEight(f: World -> World, p: World -> bool, m: World -> nat, q: World -> bool, w: World)
    requires p(w) && m(w) <= 8
    requires forall x :: p(x) ==> p(f(x)) && (f(x) == x || m(f(x)) < m(x)) && (f(x) == x ==> q(x))
    ensures q(Iterate(f, w, 8))
  {
    RestAfter(f, p, m, q, w, 8);
  }

  /** Main result: from any state in which nothing stands in the way, eight rounds
      bring both controllers to rest. */
  lemma RoundsSettle(s: Setting, w: World, t: Target, u: UpKey, n: string)
    requires Ready(s, w, t, u, n)
    ensures IsSettled(s, t, u, n)(Iterate(Round(s, t, u, n), w, 8))
  {
    RoundsProgress(s, t, u, n, Round(s, t, u, n), IsReady(s, t, u, n), Distance(s, t, u, n), IsSettled(s, t, u, n));
    CloseEnough(s, w, t, u, n);
    RestsAfterEight(Round(s, t, u, n), IsReady(s, t, u, n), Distance(s, t, u, n), IsSettled(s, t, u, n), w);
  }

  lemma MeasureBound(s: Setting, w: World, t: Target, u: UpKey, n: string)
    requires t in s.confs && t in w.down
    ensures Measure(s, w, t, u, n) <= 8
  {
  }

  /** The object is to stay on the target. */
  ghost predicate Staying(w: World, t: Target, u: UpKey) {
    var read := View(w.up, t, u);
    read.Some? && !IntendedForRemoval(read.value, t)
  }

  /** Nothing of the target is left at the object or of the object at the target. */
  ghost predicate Gone(w: World, t: Target, u: UpKey)
    requires t in w.down
  {
    && View(w.up, t, u).None? && NoCopyOf(w.down[t], u)
    && (u in w.up ==> ShareOf(w.up[u], t) == Share(0, "", false, ExternallyOwned(w.up[u], t)))
  }

  /** The object is on its way from the target, or gone. */
  ghost predicate Leaving(w: World, t: Target, u: UpKey)
    requires t in w.down
  {
    (View(w.up, t, u).Some? && ToBeRemoved(w.up[u], t)) || Gone(w, t, u)
  }

  /** All that a spec step does upstream to an object that is to stay. */
  lemma SpecOnlyClaims(c: Conf, deps: Deps, w: World, u: UpKey, o: KubeObject, dns: Dns)
    requires c.target in w.down && View(w.up, c.target, u) == Some(o) && !IntendedForRemoval(o, c.target)
    ensures var up := SpecStep(c, deps, w, u, FreshReads(w, c.target, u, dns)).world.up;
            up == w.up || up == Put(w.up, u, Claimed(o, c.target))
  {
  }

  lemma ClaimedIsInView(up: Upstream, t: Target, u: UpKey)
    requires View(up, t, u).Some?
    ensures View(Put(up, u, Claimed(up[u], t)), t, u) == Some(Claimed(up[u], t))
  {
  }

  lemma StayingBySpec(s: Setting, w: World, t: Target, u: UpKey, n: string)
    requires Ready(s, w, t, u, n) && Staying(w, t, u)
    ensures Staying(SpecOnce(s, w, t, u), t, u)
  {
    SpecOnlyClaims(s.confs[t], s.deps, w, u, w.up[u], DnsReady);
    ClaimedIsInView(w.up, t, u);
  }

  /** All that a status step does upstream to an object that is to stay. */
  lemma StatusOnlyWrites(c: Conf, deps: Deps, w: World, k: DownKey, u: UpKey, o: KubeObject)
    requires c.target in w.down && View(w.up, c.target, u) == Some(o) && !IntendedForRemoval(o, c.target)
    requires !(o.deleting && o.finalizers == [])
    requires WayBack(c, deps, w.down[c.target], k) == Some(u)
    ensures var up := StatusStep(c, deps, w, k, Some(o)).world.up;
            up == w.up || exists status :: up == w.up[u := WithStatus(c, deps, o, status)]
  {
    StatusStepIs(c, deps, w, k, u, o);
  }

  lemma WrittenStays(c: Conf, deps: Deps, w: World, w': World, u: UpKey, status: Json)
    requires Staying(w, c.target, u) && w'.up == w.up[u := WithStatus(c, deps, w.up[u], status)]
    ensures Staying(w', c.target, u)
  {
    StatusChangesOnlyStatus(c, deps, w.up[u], status);
  }

  lemma StayingByStatusStep(c: Conf, deps: Deps, w: World, k: DownKey, u: UpKey)
    requires c.target in w.down && Staying(w, c.target, u) && !(w.up[u].deleting && w.up[u].finalizers == [])
    requires WayBack(c, deps, w.down[c.target], k) == Some(u)
    ensures Staying(StatusStep(c, deps, w, k, Some(w.up[u])).world, c.target, u)
  {
    var w' := StatusStep(c, deps, w, k, Some(w.up[u])).world;
    StatusOnlyWrites(c, deps, w, k, u, w.up[u]);
    if w'.up != w.up {
      var status :| w'.up == w.up[u := WithStatus(c, deps, w.up[u], status)];
      WrittenStays(c, deps, w, w', u, status);
    }
  }

  lemma StayingByStatus(s: Setting, w: World, t: Target, u: UpKey, n: string)
    requires Ready(s, w, t, u, n) && Staying(w, t, u)
    ensures Staying(StatusOnce(s, w, t, u, n), t, u)
  {
    var k := KeyOf(s, u, n);
    KeyLeadsBack(s, w, t, u, n);
    if k in w.down[t].seen && n in w.down[t].namespaces {
      StayingByStatusStep(s.confs[t], s.deps, w, k, u);
    }
  }

  lemma ReleaseMakesGone(s: Setting, w: World, t: Target, u: UpKey, n: string)
    requires Ready(s, w, t, u, n) && View(w.up, t, u).Some? && IntendedForRemoval(w.up[u], t)
    requires NoCopyOf(w.down[t], u)
    ensures Gone(w.(up := EnsureReleased(w.up, u, t, View(w.up, t, u))), t, u)
  {
    ReleaseReady(s, w, t, u, n);
    ReleasedShare(w.up[u], t);
  }

  lemma LeavingByStatus(s: Setting, w: World, t: Target, u: UpKey, n: string)
    requires Ready(s, w, t, u, n) && Leaving(w, t, u)
    ensures Leaving(StatusOnce(s, w, t, u, n), t, u)
  {
    var c, d := s.confs[t], w.down[t];
    var k := KeyOf(s, u, n);
    KeyLeadsBack(s, w, t, u, n);
    if View(w.up, t, u).Some? && n in d.namespaces && k in d.seen {
      StatusStepIs(c, s.deps, w, k, u, w.up[u]);
      if !IsListed(t, d, k) {
        UnlistedHasNoCopy(s, c, w.up, d, u, n);
        ReleaseMakesGone(s, w, t, u, n);
      } else if HasStatus(c, d, k) {
        StatusChangesOnlyStatus(c, s.deps, w.up[u], d.objects[k].status.value);
      }
    }
  }

  /** The spec step on an object that is to go, whose namespace is in place. */
  lemma LeavingBySync(s: Setting, w: World, t: Target, u: UpKey, n: string)
    requires Ready(s, w, t, u, n) && View(w.up, t, u).Some? && ToBeRemoved(w.up[u], t)
    requires n in w.down[t].namespaces
    ensures Leaving(SyncObject(s.confs[t], s.deps, w, u, n, w.up[u], FreshReads(w, t, u, DnsReady)).world, t, u)
  {
    NameOfConforming(s, u, w.up[u]);
    CopiesOfAreAt(s, s.confs[t], w.up, w.down[t], u, n);
    if KeyOf(s, u, n) !in w.down[t].objects {
      assert NoCopyOf(w.down[t], u);
      ReleaseMakesGone(s, w, t, u, n);
    }
  }

  lemma LeavingBySpec(s: Setting, w: World, t: Target, u: UpKey, n: string)
    requires Ready(s, w, t, u, n) && Leaving(w, t, u)
    ensures Leaving(SpecOnce(s, w, t, u), t, u)
  {
    var c := s.confs[t];
    if View(w.up, t, u).Some? {
      var w1 := SetDown(w, t, EnsureNamespace(s.deps, w.down[t], n, Desired(c, u)));
      EnsureNamespaceDecreases(s, w, t, u, n);
      LeavingBySync(s, w1, t, u, n);
      SpecIsSync(c, s.deps, w, u, n, DnsReady);
    }
  }

  lemma RoundKeepsPhase(s: Setting, w: World, t: Target, u: UpKey, n: string)
    requires Ready(s, w, t, u, n)
    ensures Staying(w, t, u) ==> Staying(RoundFrom(s, w, t, u, n), t, u)
    ensures Leaving(w, t, u) ==> Leaving(RoundFrom(s, w, t, u, n), t, u)
  {
    SpecDecreases(s, w, t, u, n);
    var w1 := SpecOnce(s, w, t, u);
    if Staying(w, t, u) {
      StayingBySpec(s, w, t, u, n);
      StayingByStatus(s, w1, t, u, n);
    }
    if Leaving(w, t, u) {
      LeavingBySpec(s, w, t, u, n);
      LeavingByStatus(s, w1, t, u, n);
    }
  }

  // ----- where it settles -----

  /** A synced object: owned upstream, a copy downstream that carries the whole
      object, in its namespace, and the status of the copy upstream. */
  ghost predicate Synced(s: Setting, w: World, t: Target, u: UpKey, n: string)
    requires t in s.confs && t in w.down
  {
    var c, d, k := s.confs[t], w.down[t], KeyOf(s, u, n);
    && View(w.up, t, u).Some?
    && HasFinalizer(w.up[u], t) && !IntendedForRemoval(w.up[u], t)
    && n in d.namespaces && d.namespaces[n].tenant == Some(s.deps.tenantId(Desired(c, u)))
    && k in d.objects && d.objects[k].Copy? && d.objects[k].origin == u
    && !CannotBeSent(c, s.deps, u.gvr, w.up[u]) && Carries(c, s.deps, u.gvr, w.up[u], d.objects[k].body)
    && (d.objects[k].status.Some? ==> StatusIsUpstream(c, s.deps, w.up[u], d.objects[k].status.value))
  }

  lemma SyncClaims(s: Setting, w: World, t: Target, u: UpKey, n: string)
    requires Ready(s, w, t, u, n) && View(w.up, t, u).Some? && NeedsClaim(w.up[u], t)
    ensures SyncObject(s.confs[t], s.deps, w, u, n, w.up[u], FreshReads(w, t, u, DnsReady)).world != w
  {
    assert |Claimed(w.up[u], t).finalizers| == |w.up[u].finalizers| + 1;
  }

  lemma SyncRemoves(s: Setting, w: World, t: Target, u: UpKey, n: string)
    requires Ready(s, w, t, u, n) && View(w.up, t, u).Some? && ToBeRemoved(w.up[u], t)
    ensures SyncObject(s.confs[t], s.deps, w, u, n, w.up[u], FreshReads(w, t, u, DnsReady)).world != w
  {
    NameOfConforming(s, u, w.up[u]);
    ReleaseReady(s, w, t, u, n);
  }

  lemma SyncApplies(s: Setting, w: World, t: Target, u: UpKey, n: string)
    requires Ready(s, w, t, u, n) && View(w.up, t, u).Some?
    requires !NeedsClaim(w.up[u], t) && !ToBeRemoved(w.up[u], t)
    ensures SyncObject(s.confs[t], s.deps, w, u, n, w.up[u], FreshReads(w, t, u, DnsReady)).world.down[t]
            == Apply(w.down[t], KeyOf(s, u, n), u, Downstream(s.confs[t], s.deps, u.gvr, w.up[u]).value)
  {
    NameOfConforming(s, u, w.up[u]);
  }

  lemma RestingSync(s: Setting, w: World, t: Target, u: UpKey, n: string)
    requires Ready(s, w, t, u, n) && View(w.up, t, u).Some?
    requires SyncObject(s.confs[t], s.deps, w, u, n, w.up[u], FreshReads(w, t, u, DnsReady)).world == w
    ensures !NeedsClaim(w.up[u], t) && !ToBeRemoved(w.up[u], t)
    ensures CopySettled(s.confs[t], s.deps, w.down[t], KeyOf(s, u, n), u, w.up[u])
  {
    if NeedsClaim(w.up[u], t) {
      SyncClaims(s, w, t, u, n);
    } else if ToBeRemoved(w.up[u], t) {
      SyncRemoves(s, w, t, u, n);
    } else {
      SyncApplies(s, w, t, u, n);
    }
  }

  /** Syncing an object leaves the namespaces as they are. */
  lemma SyncKeepsNamespaces(c: Conf, deps: Deps, w: World, u: UpKey, n: string, o: KubeObject, input: Reads)
    requires c.target in w.down
    ensures var r := SyncObject(c, deps, w, u, n, o, input).world;
            c.target in r.down && r.down[c.target].namespaces == w.down[c.target].namespaces
  {
  }

  lemma RestingSpec(s: Setting, w: World, t: Target, u: UpKey, n: string)
    requires Ready(s, w, t, u, n) && View(w.up, t, u).Some? && SpecOnce(s, w, t, u) == w
    ensures var c, d, o := s.confs[t], w.down[t], w.up[u];
            && EnsureNamespace(s.deps, d, n, Desired(c, u)) == d
            && !NeedsClaim(o, t) && !ToBeRemoved(o, t) && CopySettled(c, s.deps, d, KeyOf(s, u, n), u, o)
  {
    var c, d := s.confs[t], w.down[t];
    var d' := EnsureNamespace(s.deps, d, n, Desired(c, u));
    var w1 := SetDown(w, t, d');
    SpecIsSync(c, s.deps, w, u, n, DnsReady);
    SyncKeepsNamespaces(c, s.deps, w1, u, n, w.up[u], FreshReads(w1, t, u, DnsReady));
    assert d' == d;
    assert w1.down == w.down;
    RestingSync(s, w, t, u, n);
  }

  lemma SettledCopyCarries(c: Conf, deps: Deps, d: Down, k: DownKey, u: UpKey, o: KubeObject)
    requires CopySettled(c, deps, d, k, u, o)
    ensures !CannotBeSent(c, deps, u.gvr, o) && Carries(c, deps, u.gvr, o, d.objects[k].body) && HasLabel(c.target, d.objects[k].body)
  {
    SentCarries(c, deps, u.gvr, o);
  }

  lemma RestingStatus(s: Setting, w: World, t: Target, u: UpKey, n: string)
    requires Ready(s, w, t, u, n) && StatusOnce(s, w, t, u, n) == w && Staying(w, t, u) && n in w.down[t].namespaces
    requires IsListed(t, w.down[t], KeyOf(s, u, n)) && KeyOf(s, u, n) in w.down[t].seen
    requires StateLabel(t) !in w.down[t].objects[KeyOf(s, u, n)].body.labels
    requires w.down[t].objects[KeyOf(s, u, n)].status.Some?
    ensures StatusIsUpstream(s.confs[t], s.deps, w.up[u], w.down[t].objects[KeyOf(s, u, n)].status.value)
  {
    var c, d, o, k := s.confs[t], w.down[t], w.up[u], KeyOf(s, u, n);
    KeyLeadsBack(s, w, t, u, n);
    StatusStepIs(c, s.deps, w, k, u, o);
    WrittenStatusIsUpstream(c, s.deps, o, d.objects[k].status.value);
    assert w.up == w.up[u := WithStatus(c, s.deps, o, d.objects[k].status.value)];
  }

  lemma RestingStaying(s: Setting, w: World, t: Target, u: UpKey, n: string)
    requires Ready(s, w, t, u, n) && Settled(s, w, t, u, n) && Staying(w, t, u)
    ensures Synced(s, w, t, u, n)
  {
    RestingSpec(s, w, t, u, n);
    SettledCopyCarries(s.confs[t], s.deps, w.down[t], KeyOf(s, u, n), u, w.up[u]);
    if w.down[t].objects[KeyOf(s, u, n)].status.Some? {
      RestingStatus(s, w, t, u, n);
    }
  }

  /** Main result: an object that is to stay ends up owned, with a copy that carries all
      of it and with the status of the copy upstream. */
  lemma StayingObjectIsSynced(s: Setting, w: World, t: Target, u: UpKey, n: string)
    requires Ready(s, w, t, u, n) && Staying(w, t, u)
    ensures var r := Iterate(Round(s, t, u, n), w, 8);
            t in r.down && Synced(s, r, t, u, n)
  {
    var f := Round(s, t, u, n);
    var p: World -> bool := w => Ready(s, w, t, u, n) && Staying(w, t, u);
    forall x | p(x) ensures p(f(x)) {
      RoundKeepsPhase(s, x, t, u, n);
    }
    IterateKeeps(f, p, w, 8);
    RoundsSettle(s, w, t, u, n);
    RestingStaying(s, Iterate(f, w, 8), t, u, n);
  }

  /** Main result: an object that is to go ends up without a copy, and with
      finalizer, state label and deletion intent gone together. */
  lemma LeavingObjectIsGone(s: Setting, w: World, t: Target, u: UpKey, n: string)
    requires Ready(s, w, t, u, n) && Leaving(w, t, u)
    ensures var r := Iterate(Round(s, t, u, n), w, 8);
            t in r.down && Gone(r, t, u)
  {
    var f := Round(s, t, u, n);
    var p: World -> bool := w => Ready(s, w, t, u, n) && Leaving(w, t, u);
    forall x | p(x) ensures p(f(x)) {
      RoundKeepsPhase(s, x, t, u, n);
    }
    IterateKeeps(f, p, w, 8);
    RoundsSettle(s, w, t, u, n);
    if View(Iterate(f, w, 8).up, t, u).Some? {
      RestingSpec(s, Iterate(f, w, 8), t, u, n);
    }
  }

  lemma GoneBySpec(s: Setting, w: World, t: Target, u: UpKey, n: string)
    requires Ready(s, w, t, u, n) && Gone(w, t, u)
    ensures Gone(SpecOnce(s, w, t, u), t, u) && SpecOnce(s, w, t, u).up == w.up
  {
  }

  lemma GoneByStatus(s: Setting, w: World, t: Target, u: UpKey, n: string)
    requires Ready(s, w, t, u, n) && Gone(w, t, u)
    ensures StatusOnce(s, w, t, u, n) == w
  {
    KeyLeadsBack(s, w, t, u, n);
  }

  // ----- any interleaving -----

  datatype Half = SpecHalf | StatusHalf

  /** One of the two controllers makes a step. */
  ghost predicate Takes(s: Setting, w: World, half: Half, w': World, t: Target, u: UpKey, n: string) {
    Ready(s, w, t, u, n) && w' == if half.SpecHalf? then SpecOnce(s, w, t, u) else StatusOnce(s, w, t, u, n)
  }

  /** Steps of the two controllers in any order, and the states between them. */
  ghost predicate IsSchedule(s: Setting, worlds: seq<World>, halves: seq<Half>, t: Target, u: UpKey, n: string) {
    && |worlds| == |halves| + 1
    && Ready(s, worlds[0], t, u, n)
    && forall i | 0 <= i < |halves| :: Takes(s, worlds[i], halves[i], worlds[i + 1], t, u, n)
  }

  /** How many of the first steps changed anything. */
  ghost function Changes(worlds: seq<World>, i: nat): nat
    requires i < |worlds|
  {
    if i == 0 then 0 else Changes(worlds, i - 1) + if worlds[i] == worlds[i - 1] then 0 else 1
  }

  lemma TakesKeeps(s: Setting, w: World, half: Half, w': World, t: Target, u: UpKey, n: string)
    requires Takes(s, w, half, w', t, u, n)
    ensures Ready(s, w', t, u, n)
    ensures w' == w || Measure(s, w', t, u, n) < Measure(s, w, t, u, n)
    ensures Staying(w, t, u) ==> Staying(w', t, u)
    ensures Leaving(w, t, u) ==> Leaving(w', t, u)
  {
    if half.SpecHalf? {
      SpecDecreases(s, w, t, u, n);
      if Staying(w, t, u) { StayingBySpec(s, w, t, u, n); }
      if Leaving(w, t, u) { LeavingBySpec(s, w, t, u, n); }
    } else {
      StatusDecreases(s, w, t, u, n);
      if Staying(w, t, u) { StayingByStatus(s, w, t, u, n); }
      if Leaving(w, t, u) { LeavingByStatus(s, w, t, u, n); }
    }
  }

  /** The state `w` is reached from `start` in steps of which `changes` changed
      anything. */
  ghost predicate Along(s: Setting, start: World, w: World, changes: nat, t: Target, u: UpKey, n: string) {
    && Ready(s, w, t, u, n) && t in s.confs && t in start.down
    && changes + Measure(s, w, t, u, n) <= Measure(s, start, t, u, n)
    && (Staying(start, t, u) ==> Staying(w, t, u))
    && (Leaving(start, t, u) ==> Leaving(w, t, u))
  }

  lemma AlongStart(s: Setting, start: World, t: Target, u: UpKey, n: string)
    requires Ready(s, start, t, u, n)
    ensures Along(s, start, start, 0, t, u, n)
  {
  }

  lemma AlongNext(s: Setting, start: World, w: World, changes: nat, half: Half, w': World, changes': nat,
                  t: Target, u: UpKey, n: string)
    requires Takes(s, w, half, w', t, u, n) && changes' == changes + if w' == w then 0 else 1
    requires Along(s, start, w, changes, t, u, n)
    ensures Along(s, start, w', changes', t, u, n)
  {
    TakesKeeps(s, w, half, w', t, u, n);
  }

  ghost function AlongAt(s: Setting, worlds: seq<World>, t: Target, u: UpKey, n: string): nat -> bool {
    (i: nat) => i < |worlds| && Along(s, worlds[0], worlds[i], Changes(worlds, i), t, u, n)
  }

  lemma ScheduleStarts(s: Setting, worlds: seq<World>, halves: seq<Half>, t: Target, u: UpKey, n: string)
    requires IsSchedule(s, worlds, halves, t, u, n)
    ensures AlongAt(s, worlds, t, u, n)(0)
  {
    AlongStart(s, worlds[0], t, u, n);
  }

  lemma ScheduleGoesOn(s: Setting, worlds: seq<World>, halves: seq<Half>, t: Target, u: UpKey, n: string, i: nat)
    requires IsSchedule(s, worlds, halves, t, u, n) && i < |halves| && AlongAt(s, worlds, t, u, n)(i)
    ensures AlongAt(s, worlds, t, u, n)(i + 1)
  {
    assert Takes(s, worlds[i], halves[i], worlds[i + 1], t, u, n);
    AlongNext(s, worlds[0], worlds[i], Changes(worlds, i), halves[i], worlds[i + 1], Changes(worlds, i + 1), t, u, n);
  }

  lemma ScheduleKeeps(s: Setting, worlds: seq<World>, halves: seq<Half>, t: Target, u: UpKey, n: string, i: nat)
    requires IsSchedule(s, worlds, halves, t, u, n) && i < |worlds|
    ensures AlongAt(s, worlds, t, u, n)(i)
  {
    var p := AlongAt(s, worlds, t, u, n);
    ScheduleStarts(s, worlds, halves, t, u, n);
    forall j: nat | j < |halves| && p(j) ensures p(j + 1) {
      ScheduleGoesOn(s, worlds, halves, t, u, n, j);
    }
    HoldsAlong(p, |halves|, i);
  }

  /** Main result: in every interleaving of the two controllers at most eight steps
      change anything. */
  lemma FewStepsChangeAnything(s: Setting, worlds: seq<World>, halves: seq<Half>, t: Target, u: UpKey, n: string, i: nat)
    requires IsSchedule(s, worlds, halves, t, u, n) && i < |worlds|
    ensures Changes(worlds, i) <= 8
  {
    ScheduleKeeps(s, worlds, halves, t, u, n, i);
    MeasureBound(s, worlds[0], t, u, n);
  }

  /** Main result: wherever an interleaving comes to rest, an object that was to
      stay is synced, and one that was to go is gone. */
  lemma RestIsTheGoal(s: Setting, worlds: seq<World>, halves: seq<Half>, t: Target, u: UpKey, n: string, i: nat)
    requires IsSchedule(s, worlds, halves, t, u, n) && i < |worlds|
    requires Takes(s, worlds[i], SpecHalf, worlds[i], t, u, n) && Takes(s, worlds[i], StatusHalf, worlds[i], t, u, n)
    ensures Staying(worlds[0], t, u) ==> Synced(s, worlds[i], t, u, n)
    ensures Leaving(worlds[0], t, u) ==> Gone(worlds[i], t, u)
  {
    ScheduleKeeps(s, worlds, halves, t, u, n, i);
    RestsAtGoal(s, worlds[i], t, u, n);
  }

  lemma RestsAtGoal(s: Setting, w: World, t: Target, u: UpKey, n: string)
    requires Ready(s, w, t, u, n) && Settled(s, w, t, u, n)
    ensures Staying(w, t, u) ==> Synced(s, w, t, u, n)
    ensures Leaving(w, t, u) ==> Gone(w, t, u)
  {
    if Staying(w, t, u) { RestingStaying(s, w, t, u, n); }
    if View(w.up, t, u).Some? { RestingSpec(s, w, t, u, n); }
  }

  lemma GoneTakes(s: Setting, w: World, half: Half, w': World, t: Target, u: UpKey, n: string)
    requires Takes(s, w, half, w', t, u, n) && Gone(w, t, u)
    ensures Ready(s, w', t, u, n) && Gone(w', t, u)
  {
    if half.SpecHalf? {
      SpecDecreases(s, w, t, u, n);
      GoneBySpec(s, w, t, u, n);
    } else {
      GoneByStatus(s, w, t, u, n);
    }
  }

  ghost function GoneAt(s: Setting, worlds: seq<World>, t: Target, u: UpKey, n: string, from: nat): nat -> bool {
    (i: nat) => from + i < |worlds| && Ready(s, worlds[from + i], t, u, n) && Gone(worlds[from + i], t, u)
  }

  lemma GoneGoesOn(s: Setting, worlds: seq<World>, halves: seq<Half>, t: Target, u: UpKey, n: string, from: nat, i: nat)
    requires IsSchedule(s, worlds, halves, t, u, n) && from + i < |halves| && GoneAt(s, worlds, t, u, n, from)(i)
    ensures GoneAt(s, worlds, t, u, n, from)(i + 1)
  {
    assert Takes(s, worlds[from + i], halves[from + i], worlds[from + i + 1], t, u, n);
    GoneTakes(s, worlds[from + i], halves[from + i], worlds[from + i + 1], t, u, n);
  }

  lemma ReadyAlong(s: Setting, worlds: seq<World>, halves: seq<Half>, t: Target, u: UpKey, n: string, i: nat)
    requires IsSchedule(s, worlds, halves, t, u, n) && i < |worlds|
    ensures Ready(s, worlds[i], t, u, n)
  {
    ScheduleKeeps(s, worlds, halves, t, u, n, i);
  }

  lemma GoneAlong(s: Setting, worlds: seq<World>, halves: seq<Half>, t: Target, u: UpKey, n: string, from: nat, i: nat)
    requires IsSchedule(s, worlds, halves, t, u, n) && from + i < |worlds| && GoneAt(s, worlds, t, u, n, from)(0)
    ensures GoneAt(s, worlds, t, u, n, from)(i)
  {
    var p := GoneAt(s, worlds, t, u, n, from);
    forall j: nat | j < |halves| - from && p(j) ensures p(j + 1) {
      GoneGoesOn(s, worlds, halves, t, u, n, from, j);
    }
    HoldsAlong(p, |halves| - from, i);
  }

  /** Main result: in every interleaving, what is gone at some point is never
      recreated. */
  lemma GoneIsForever(s: Setting, worlds: seq<World>, halves: seq<Half>, t: Target, u: UpKey, n: string, from: nat, more: nat)
    requires IsSchedule(s, worlds, halves, t, u, n) && from + more < |worlds|
    requires t in worlds[from].down && Gone(worlds[from], t, u)
    ensures t in worlds[from + more].down && Gone(worlds[from + more], t, u)
  {
    ReadyAlong(s, worlds, halves, t, u, n, from);
    GoneAlong(s, worlds, halves, t, u, n, from, more);
    assert Ready(s, worlds[from + more], t, u, n);
  }

  // ----- the corners -----

  /** An object that the syncer no longer sees is deleted downstream under its
      upstream name, so its copy goes exactly when the copy was not renamed. */
  lemma UnseenCopyRemovedIff(s: Setting, w: World, t: Target, u: UpKey, n: string)
    requires Ready(s, w, t, u, n) && View(w.up, t, u).None? && KeyOf(s, u, n) in w.down[t].objects
    ensures KeyOf(s, u, n) !in SpecOnce(s, w, t, u).down[t].objects <==> NameInRun(s, u.gvr, u.name) == u.name
  {
  }
}
