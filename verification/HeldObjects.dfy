/** Objects that are to go from a target but are held back by an external owner
    (pkg/syncer/spec/spec_process.go, pkg/syncer/shared/finalizer.go): exactly when
    the syncer keeps them. */
module HeldObjects {
  import opened Json
  import opened Kube
  import opened Naming
  import opened Finalizers
  import opened Syncer
  import opened Ownership
  import opened OwnershipLimits
  import opened Iteration
  import opened Convergence

  /** The object is to go, is held, and is still owned by the syncer. */
  ghost predicate Held(w: World, t: Target, u: UpKey) {
    && View(w.up, t, u).Some?
    && IntendedForRemoval(w.up[u], t) && ExternallyOwned(w.up[u], t) && HasFinalizer(w.up[u], t)
  }

  /** The status controller may come by the key of the object and finds no copy. */
  ghost predicate LacksCopy(s: Setting, w: World, t: Target, u: UpKey, n: string)
    requires t in w.down
  {
    var d, k := w.down[t], KeyOf(s, u, n);
    n in d.namespaces && k in d.seen && !IsListed(t, d, k)
  }

  lemma HeldBySync(c: Conf, deps: Deps, w: World, u: UpKey, n: string)
    requires c.target in w.down && Held(w, c.target, u)
    ensures SyncObject(c, deps, w, u, n, w.up[u], FreshReads(w, c.target, u, DnsReady)).world.up == w.up
  {
  }

  /** A spec step never changes a held object. */
  lemma HeldBySpec(s: Setting, w: World, t: Target, u: UpKey, n: string)
    requires Ready(s, w, t, u, n) && Held(w, t, u)
    ensures SpecOnce(s, w, t, u).up == w.up
  {
    var c := s.confs[t];
    var w1 := SetDown(w, t, EnsureNamespace(s.deps, w.down[t], n, Desired(c, u)));
    SpecIsSync(c, s.deps, w, u, n, DnsReady);
    HeldBySync(c, s.deps, w1, u, n);
  }

  /** It puts the copy of a held object back. */
  lemma HeldObjectIsRestoredBySpec(s: Setting, w: World, t: Target, u: UpKey, n: string)
    requires Ready(s, w, t, u, n) && Held(w, t, u)
    ensures CopySettled(s.confs[t], s.deps, SpecOnce(s, w, t, u).down[t], KeyOf(s, u, n), u, w.up[u])
  {
    var c := s.confs[t];
    var w1 := SetDown(w, t, EnsureNamespace(s.deps, w.down[t], n, Desired(c, u)));
    EnsureNamespaceReady(s, w, t, u, n);
    SyncApplies(s, w1, t, u, n);
    SpecIsSync(c, s.deps, w, u, n, DnsReady);
  }

  lemma WrittenStaysHeld(c: Conf, deps: Deps, w: World, t: Target, u: UpKey, status: Json, w': World)
    requires c.target == t && Held(w, t, u) && w'.up == w.up[u := WithStatus(c, deps, w.up[u], status)]
    ensures Held(w', t, u)
  {
  }

  /** A status step that finds a copy writes its status at most. */
  lemma HeldByStatusWithCopy(s: Setting, w: World, t: Target, u: UpKey, n: string)
    requires Ready(s, w, t, u, n) && Held(w, t, u) && !LacksCopy(s, w, t, u, n)
    ensures Held(StatusOnce(s, w, t, u, n), t, u)
  {
    var c, d, k := s.confs[t], w.down[t], KeyOf(s, u, n);
    KeyLeadsBack(s, w, t, u, n);
    if n in d.namespaces && k in d.seen {
      StatusStepIs(c, s.deps, w, k, u, w.up[u]);
      if HasStatus(c, d, k) { WrittenStaysHeld(c, s.deps, w, t, u, d.objects[k].status.value, StatusOnce(s, w, t, u, n)); }
    } else {
      StatusIsIdle(s, w, t, u, n);
    }
  }

  /** A status step that finds none gives the object up although it is held. */
  lemma HeldByStatusWithoutCopy(s: Setting, w: World, t: Target, u: UpKey, n: string)
    requires Ready(s, w, t, u, n) && Held(w, t, u) && LacksCopy(s, w, t, u, n)
    ensures Gone(StatusOnce(s, w, t, u, n), t, u)
  {
    KeyLeadsBack(s, w, t, u, n);
    UnlistedHasNoCopy(s, s.confs[t], w.up, w.down[t], u, n);
    ReleaseMakesGone(s, w, t, u, n);
  }

  lemma GoneIsNotOwned(w: World, t: Target, u: UpKey)
    requires t in w.down && Gone(w, t, u) && u in w.up
    ensures !HasFinalizer(w.up[u], t)
  {
    CountIsMembership(w.up[u].finalizers, t);
  }

  /** Main result: a status step leaves a held object with its finalizer if and only
      if it does not come by a key that lacks its copy. */
  lemma HeldObjectIsKeptIff(s: Setting, w: World, t: Target, u: UpKey, n: string)
    requires Ready(s, w, t, u, n) && Held(w, t, u)
    ensures var w' := StatusOnce(s, w, t, u, n);
            && (Held(w', t, u) <==> !LacksCopy(s, w, t, u, n))
            && (u in w'.up && HasFinalizer(w'.up[u], t) <==> !LacksCopy(s, w, t, u, n))
  {
    if LacksCopy(s, w, t, u, n) {
      HeldByStatusWithoutCopy(s, w, t, u, n);
      if u in StatusOnce(s, w, t, u, n).up { GoneIsNotOwned(StatusOnce(s, w, t, u, n), t, u); }
    } else {
      HeldByStatusWithCopy(s, w, t, u, n);
    }
  }

  // ----- any interleaving -----

  /** The step gives up a held object. */
  ghost predicate GivesUp(s: Setting, w: World, half: Half, t: Target, u: UpKey, n: string) {
    half.StatusHalf? && t in w.down && LacksCopy(s, w, t, u, n)
  }

  lemma HeldTakes(s: Setting, w: World, half: Half, w': World, t: Target, u: UpKey, n: string)
    requires Takes(s, w, half, w', t, u, n) && Held(w, t, u)
    ensures Ready(s, w', t, u, n)
    ensures if GivesUp(s, w, half, t, u, n) then Gone(w', t, u) else Held(w', t, u)
  {
    TakesKeeps(s, w, half, w', t, u, n);
    if half.SpecHalf? {
      HeldBySpec(s, w, t, u, n);
    } else if LacksCopy(s, w, t, u, n) {
      HeldByStatusWithoutCopy(s, w, t, u, n);
    } else {
      HeldByStatusWithCopy(s, w, t, u, n);
    }
  }

  ghost predicate NeverGivesUp(s: Setting, worlds: seq<World>, halves: seq<Half>, t: Target, u: UpKey, n: string, i: nat)
    requires i <= |halves| < |worlds|
  {
    forall j | 0 <= j < i :: !GivesUp(s, worlds[j], halves[j], t, u, n)
  }

  /** The object is as it was, or given up. */
  ghost predicate HeldOrGone(s: Setting, w: World, kept: bool, t: Target, u: UpKey, n: string) {
    Ready(s, w, t, u, n) && if kept then Held(w, t, u) else Gone(w, t, u)
  }

  ghost function HeldAt(s: Setting, worlds: seq<World>, halves: seq<Half>, t: Target, u: UpKey, n: string): nat -> bool {
    (i: nat) => i <= |halves| < |worlds|
      && HeldOrGone(s, worlds[i], NeverGivesUp(s, worlds, halves, t, u, n, i), t, u, n)
  }

  lemma HeldOrGoneTakes(s: Setting, w: World, half: Half, w': World, kept: bool, t: Target, u: UpKey, n: string)
    requires Takes(s, w, half, w', t, u, n) && HeldOrGone(s, w, kept, t, u, n)
    ensures HeldOrGone(s, w', kept && !GivesUp(s, w, half, t, u, n), t, u, n)
  {
    if kept {
      HeldTakes(s, w, half, w', t, u, n);
    } else {
      GoneTakes(s, w, half, w', t, u, n);
    }
  }

  lemma {:induction false} NeverGivesUpNext(s: Setting, worlds: seq<World>, halves: seq<Half>, t: Target, u: UpKey, n: string, i: nat)
    requires i < |halves| < |worlds|
    ensures NeverGivesUp(s, worlds, halves, t, u, n, i + 1)
            <==> NeverGivesUp(s, worlds, halves, t, u, n, i) && !GivesUp(s, worlds[i], halves[i], t, u, n)
  {
  }

  lemma HeldGoesOn(s: Setting, worlds: seq<World>, halves: seq<Half>, t: Target, u: UpKey, n: string, i: nat)
    requires IsSchedule(s, worlds, halves, t, u, n) && i < |halves| && HeldAt(s, worlds, halves, t, u, n)(i)
    ensures HeldAt(s, worlds, halves, t, u, n)(i + 1)
  {
    assert Takes(s, worlds[i], halves[i], worlds[i + 1], t, u, n);
    NeverGivesUpNext(s, worlds, halves, t, u, n, i);
    HeldOrGoneTakes(s, worlds[i], halves[i], worlds[i + 1], NeverGivesUp(s, worlds, halves, t, u, n, i), t, u, n);
  }

  /** Main result: in every interleaving of the two controllers a held object stays
      as it is if and only if no status step comes by its key while its copy is
      missing; otherwise it is gone for good. */
  lemma HeldObjectIsKeptAlongIff(s: Setting, worlds: seq<World>, halves: seq<Half>, t: Target, u: UpKey, n: string, i: nat)
    requires IsSchedule(s, worlds, halves, t, u, n) && i < |worlds| && Held(worlds[0], t, u)
    ensures t in worlds[i].down
    ensures Held(worlds[i], t, u) <==> NeverGivesUp(s, worlds, halves, t, u, n, i)
    ensures !Held(worlds[i], t, u) ==> Gone(worlds[i], t, u)
  {
    var p := HeldAt(s, worlds, halves, t, u, n);
    assert p(0);
    forall j: nat | j < |halves| && p(j) ensures p(j + 1) {
      HeldGoesOn(s, worlds, halves, t, u, n, j);
    }
    HoldsAlong(p, |halves|, i);
  }

  // ----- an object that is given up although it is held -----

  function HeldKey(): UpKey {
    UpKey(CONFIG_MAPS, "root", "default", "settings")
  }

  function HeldSettings(t: Target): KubeObject {
    KubeObject([SyncerFinalizer(t)], map[StateLabel(t) := SYNC],
               map[DeletionAnn(t) := "2023-01-01T00:00:00Z", SoftFinalizerAnn(t) := "held"], false, map[], map[])
  }

  /** The object had a copy, which somebody deleted downstream. */
  function HeldWorld(c: Conf, deps: Deps): World {
    World(map[HeldKey() := HeldSettings(c.target)],
          map[c.target := Down(map["kcp-a" := NewNamespace(deps, Desired(c, HeldKey()))], map[],
                               {DownKey(CONFIG_MAPS, "kcp-a", "settings")})])
  }

  lemma HeldWorldIsReady(s: Setting, t: Target)
    requires Sound(s) && s.confs.Keys == {t} && Transparent(s.confs[t], s.deps)
    requires Sent(s.confs[t], s.deps, CONFIG_MAPS, HeldSettings(t)).Some?
    ensures Ready(s, HeldWorld(s.confs[t], s.deps), t, HeldKey(), "kcp-a")
  {
    var c := s.confs[t];
    var w := HeldWorld(c, s.deps);
    OnlyNamespace(c, s.deps, w.down[t], HeldKey());
    assert "settings"[0] != KCP_ROOT_CA[0] && "settings"[0] != KUBE_ROOT_CA[0];
    assert SeenConsistent(s, DownKey(CONFIG_MAPS, "kcp-a", "settings"));
    assert DownConsistent(s, c, w.up, w.down[t]);
  }

  /** The next status step for the deleted copy takes finalizer and state label off
      the object, before the spec controller could put the copy back. */
  lemma HeldObjectIsGivenUp(s: Setting, t: Target)
    requires Sound(s) && s.confs.Keys == {t} && Transparent(s.confs[t], s.deps)
    requires Sent(s.confs[t], s.deps, CONFIG_MAPS, HeldSettings(t)).Some?
    ensures var w := HeldWorld(s.confs[t], s.deps);
            && Ready(s, w, t, HeldKey(), "kcp-a") && Held(w, t, HeldKey())
            && var w' := StatusOnce(s, w, t, HeldKey(), "kcp-a");
               t in w'.down && Gone(w', t, HeldKey())
  {
    HeldWorldIsReady(s, t);
    HeldByStatusWithoutCopy(s, HeldWorld(s.confs[t], s.deps), t, HeldKey(), "kcp-a");
  }
}
