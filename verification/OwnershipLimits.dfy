/** Exactly when a single step keeps ownership, whatever its listers returned,
    and what goes wrong where the assumptions of the protocol end. */
module OwnershipLimits {
  import opened Wrappers
  import opened Kube
  import opened Naming
  import opened Locators
  import opened Finalizers
  import opened Syncer
  import opened Ownership

  /** The step gets as far as the object in namespace `n`. */
  ghost predicate ReachesObject(c: Conf, deps: Deps, d: Down, u: UpKey, input: Reads, n: string) {
    && TargetNamespace(c, deps, d, u) == Some(n)
    && NamespaceUsable(deps, d.namespaces, n, Desired(c, u))
    && input.first.Some?
    && !input.dns.DnsError?
    && !(input.dns.DnsNotReady? && u.gvr == DEPLOYMENTS)
    && !NeedsClaim(input.first.value, c.target)
  }

  /** The step is going to apply a copy. */
  ghost predicate WillApply(c: Conf, deps: Deps, d: Down, u: UpKey, input: Reads) {
    exists n :: ReachesObject(c, deps, d, u, input, n)
      && !ToBeRemoved(input.first.value, c.target) && Downstream(c, deps, u.gvr, input.first.value).Some?
  }

  /** The release update is going to be accepted. */
  ghost predicate WillRelease(up: Upstream, u: UpKey, t: Target, again: Option<KubeObject>) {
    again.Some? && IntendedForRemoval(again.value, t) && u in up && up[u] == again.value
  }

  /** The step found no copy to delete and is going to give up the finalizer. */
  ghost predicate WillGiveUp(c: Conf, deps: Deps, w: World, u: UpKey, input: Reads)
    requires c.target in w.down
  {
    exists n :: ReachesObject(c, deps, w.down[c.target], u, input, n)
      && ToBeRemoved(input.first.value, c.target)
      && CopyKey(u, n, input.first.value) !in w.down[c.target].objects
      && WillRelease(w.up, u, c.target, input.again)
  }

  /** An accepted release keeps ownership exactly when the target has no copy. */
  lemma ReleaseOwnedIff(s: Setting, w: World, t: Target, u: UpKey, again: Option<KubeObject>)
    requires Sound(s) && Owned(s, w) && t in s.confs && t in w.down
    ensures Owned(s, w.(up := EnsureReleased(w.up, u, t, again)))
            <==> (WillRelease(w.up, u, t, again) ==> NoCopyOf(w.down[t], u))
  {
    var up := EnsureReleased(w.up, u, t, again);
    var w' := w.(up := up);
    if WillRelease(w.up, u, t, again) {
      WithoutMembers(w.up[u].finalizers, t);
      if NoCopyOf(w.down[t], u) {
        forall t', k | t' in s.confs && t' in w'.down && k in w'.down[t'].objects && w'.down[t'].objects[k].Copy?
          ensures var v := w'.down[t'].objects[k].origin; v in up && HasFinalizer(up[v], s.confs[t'].target)
        {
          var v := w.down[t'].objects[k].origin;
          assert v in w.up && HasFinalizer(w.up[v], s.confs[t'].target);
        }
      } else {
        var k :| k in w.down[t].objects && w.down[t].objects[k].Copy? && w.down[t].objects[k].origin == u;
        assert !(u in up && HasFinalizer(up[u], s.confs[t].target));
      }
    } else {
      assert up == w.up;
    }
  }

  /** Claiming and editing keep ownership as long as they keep finalizers. */
  lemma UpdateOwned(s: Setting, w: World, u: UpKey, read: KubeObject, o: KubeObject)
    requires Owned(s, w) && KeepsSyncerFinalizers(read, o)
    ensures Owned(s, w.(up := Update(w.up, u, read, o)))
  {
    var up := Update(w.up, u, read, o);
    forall t, k | t in s.confs && t in w.down && k in w.down[t].objects && w.down[t].objects[k].Copy?
      ensures var v := w.down[t].objects[k].origin; v in up && HasFinalizer(up[v], s.confs[t].target)
    {
      var v := w.down[t].objects[k].origin;
      assert v in w.up && HasFinalizer(w.up[v], s.confs[t].target);
    }
  }

  lemma SetDownOwned(s: Setting, w: World, t: Target, d: Down)
    requires Owned(s, w) && t in w.down
    requires forall k | k in d.objects && d.objects[k].Copy? ::
               k in w.down[t].objects && w.down[t].objects[k].Copy? && w.down[t].objects[k].origin == d.objects[k].origin
    ensures Owned(s, SetDown(w, t, d))
  {
    var w' := SetDown(w, t, d);
    forall t', k | t' in s.confs && t' in w'.down && k in w'.down[t'].objects && w'.down[t'].objects[k].Copy?
      ensures var v := w'.down[t'].objects[k].origin; v in w'.up && HasFinalizer(w'.up[v], s.confs[t'].target)
    {
      assert t' in w.down && k in w.down[t'].objects && w.down[t'].objects[k].Copy?;
    }
  }

  lemma ApplyOwnedIff(s: Setting, w: World, t: Target, k: DownKey, u: UpKey, sent: KubeObject)
    requires Sound(s) && Owned(s, w) && t in s.confs && t in w.down
    ensures Owned(s, SetDown(w, t, Apply(w.down[t], k, u, sent))) <==> u in w.up && HasFinalizer(w.up[u], t)
  {
    var w' := SetDown(w, t, Apply(w.down[t], k, u, sent));
    assert k in w'.down[t].objects && w'.down[t].objects[k].Copy? && w'.down[t].objects[k].origin == u;
    if u in w.up && HasFinalizer(w.up[u], t) {
      forall t', k' | t' in s.confs && t' in w'.down && k' in w'.down[t'].objects && w'.down[t'].objects[k'].Copy?
        ensures var v := w'.down[t'].objects[k'].origin; v in w'.up && HasFinalizer(w'.up[v], s.confs[t'].target)
      {
        if t' != t || k' != k {
          assert k' in w.down[t'].objects && w.down[t'].objects[k'].Copy?;
        }
      }
    }
  }

  lemma SyncObjectOwnedIff(s: Setting, w: World, t: Target, u: UpKey, n: string, input: Reads)
    requires Sound(s) && Owned(s, w) && t in s.confs && t in w.down
    requires input.first.Some?
    ensures var c, o, d := s.confs[t], input.first.value, w.down[t];
            var goesOn := !input.dns.DnsError? && !(input.dns.DnsNotReady? && u.gvr == DEPLOYMENTS) && !NeedsClaim(o, t);
            Owned(s, SyncObject(c, s.deps, w, u, n, o, input).world)
            <==> && (goesOn && !ToBeRemoved(o, t) && Downstream(c, s.deps, u.gvr, o).Some?
                     ==> u in w.up && HasFinalizer(w.up[u], t))
                 && (goesOn && ToBeRemoved(o, t) && CopyKey(u, n, o) !in d.objects && WillRelease(w.up, u, t, input.again)
                     ==> NoCopyOf(d, u))
  {
    var c, o, d := s.confs[t], input.first.value, w.down[t];
    var k := CopyKey(u, n, o);
    if NeedsClaim(o, t) {
      UpdateOwned(s, w, u, o, Claimed(o, t));
    } else if ToBeRemoved(o, t) {
      if k in d.objects {
        SetDownOwned(s, w, t, Remove(d, k));
      } else {
        ReleaseOwnedIff(s, w, t, u, input.again);
      }
    } else if Downstream(c, s.deps, u.gvr, o).Some? {
      ApplyOwnedIff(s, w, t, k, u, Downstream(c, s.deps, u.gvr, o).value);
    }
  }

  /** Main result: whatever a spec step read, even from stale listers, it keeps
      ownership exactly when, in case it applies a copy, the stored object has the
      finalizer and, in case it gives up the finalizer, no copy is left under any
      name. */
  lemma SpecStepOwnedIff(s: Setting, w: World, t: Target, u: UpKey, input: Reads)
    requires Sound(s) && Owned(s, w) && t in s.confs && t in w.down
    ensures Owned(s, SpecStep(s.confs[t], s.deps, w, u, input).world)
            <==> && (WillApply(s.confs[t], s.deps, w.down[t], u, input) ==> u in w.up && HasFinalizer(w.up[u], t))
                 && (WillGiveUp(s.confs[t], s.deps, w, u, input) ==> NoCopyOf(w.down[t], u))
  {
    var c, d := s.confs[t], w.down[t];
    var found := TargetNamespace(c, s.deps, d, u);
    if found.Some? {
      var n := found.value;
      if input.first.None? {
        SetDownOwned(s, w, t, Remove(d, DownKey(u.gvr, n, u.name)));
      } else if NamespaceUsable(s.deps, d.namespaces, n, Desired(c, u)) {
        var d' := EnsureNamespace(s.deps, d, n, Desired(c, u));
        var w' := SetDown(w, t, d');
        SetDownOwned(s, w, t, d');
        SyncObjectOwnedIff(s, w', t, u, n, input);
        assert NoCopyOf(d', u) == NoCopyOf(d, u);
        assert ReachesObject(c, s.deps, d, u, input, n) <==>
          !input.dns.DnsError? && !(input.dns.DnsNotReady? && u.gvr == DEPLOYMENTS) && !NeedsClaim(input.first.value, t);
      }
    }
  }

  /** Main result: the same for the status step, which gives up the finalizer
      when the one key it was called for is not listed, whether or not a copy is there. */
  lemma StatusStepOwnedIff(s: Setting, w: World, t: Target, k: DownKey, read: Option<KubeObject>)
    requires Sound(s) && Owned(s, w) && t in s.confs && t in w.down
    ensures var d := w.down[t];
            var back := WayBack(s.confs[t], s.deps, d, k);
            Owned(s, StatusStep(s.confs[t], s.deps, w, k, read).world)
            <==> (back.Some? && !IsListed(t, d, k) && WillRelease(w.up, back.value, t, read)
                  ==> NoCopyOf(d, back.value))
  {
    var c, d := s.confs[t], w.down[t];
    var back := WayBack(c, s.deps, d, k);
    if back.Some? {
      if !IsListed(t, d, k) {
        ReleaseOwnedIff(s, w, t, back.value, read);
      } else if read.Some? && d.objects[k].status.Some? {
        UpdateOwned(s, w, back.value, read.value, WithStatus(c, s.deps, read.value, d.objects[k].status.value));
      }
    }
  }

  // ----- an annotation edit that renames a copy -----

  function TokenKey(): UpKey {
    UpKey(SECRETS, "root", "default", "default-token-x")
  }

  function TokenCopyKey(): DownKey {
    DownKey(SECRETS, "kcp-a", "default-token-x")
  }

  function Token(account: string, t: Target): KubeObject {
    KubeObject([SyncerFinalizer(t)], map[StateLabel(t) := SYNC],
               map[ServiceAccountAnn := account, DeletionAnn(t) := "2023-01-01T00:00:00Z"], false, map[], map[])
  }

  /** A synced default token of another account, about to be removed. */
  function TokenWorld(c: Conf, deps: Deps): World {
    World(map[TokenKey() := Token("other", c.target)],
          map[c.target := Down(map["kcp-a" := NewNamespace(deps, Desired(c, TokenKey()))],
                               map[TokenCopyKey() := Copy(TokenKey(), Sanitised(c.target, Token("other", c.target)), None)],
                               {TokenCopyKey()})])
  }

  /** A cluster with no namespace but the one for `u`. */
  lemma OnlyNamespace(c: Conf, deps: Deps, d: Down, u: UpKey)
    requires Lawful(deps.codec) && d.namespaces == map["kcp-a" := NewNamespace(deps, Desired(c, u))]
    ensures TargetNamespace(c, deps, d, u) == Some("kcp-a") && NamespaceUsable(deps, d.namespaces, "kcp-a", Desired(c, u))
    ensures NamespacesConsistent(c, deps, d.namespaces) && !(SYNCER_ID_PREFIX <= "kcp-a")
  {
    NewNamespaceLocator(c, deps, u);
    IndexIsScan(deps.codec, d.namespaces, Desired(c, u));
    assert ByIndex(deps.codec, d.namespaces, deps.codec.encode(Desired(c, u))) == {"kcp-a"};
    assert SYNCER_ID_PREFIX[4] != "kcp-a"[4];
  }

  /** The copy of the edited secret would have another name. */
  lemma TokenIsRenamed(t: Target)
    ensures CopyKey(TokenKey(), "kcp-a", Token("default", t)) != TokenCopyKey()
  {
    assert CopyKey(TokenKey(), "kcp-a", Token("default", t)).name == KCP_PREFIX + "default-token-x";
    assert |KCP_PREFIX + "default-token-x"| != |"default-token-x"|;
  }

  lemma RenamingIsOwned(s: Setting, t: Target)
    requires Sound(s) && s.confs.Keys == {t}
    ensures var w := TokenWorld(s.confs[t], s.deps);
            && Owned(s, w) && Owned(s, w.(up := Put(w.up, TokenKey(), Token("default", t))))
            && !NoCopyOf(w.down[t], TokenKey())
  {
    var w := TokenWorld(s.confs[t], s.deps);
    assert w.down[t].objects[TokenCopyKey()].origin == TokenKey();
  }

  /** The assumption on secrets is needed: when the service account annotation of
      a synced secret is edited, the next spec step looks for the copy under its
      new name, finds none, and gives up the finalizer while the copy is still
      there under its old name. */
  lemma RenamingEditStrandsCopy(s: Setting, t: Target)
    requires Sound(s) && s.confs.Keys == {t}
    ensures var w := TokenWorld(s.confs[t], s.deps);
            var edited := w.(up := Put(w.up, TokenKey(), Token("default", t)));
            && Owned(s, w) && Owned(s, edited)
            && !Owned(s, SpecStep(s.confs[t], s.deps, edited, TokenKey(), FreshReads(edited, t, TokenKey(), DnsReady)).world)
  {
    var c := s.confs[t];
    var w := TokenWorld(c, s.deps);
    var u := TokenKey();
    var edited := w.(up := Put(w.up, u, Token("default", t)));
    RenamingIsOwned(s, t);
    OnlyNamespace(c, s.deps, w.down[t], TokenKey());
    TokenIsRenamed(t);
    var input := FreshReads(edited, t, u, DnsReady);
    assert ReachesObject(c, s.deps, w.down[t], u, input, "kcp-a");
    assert WillGiveUp(c, s.deps, edited, u, input);
    SpecStepOwnedIff(s, edited, t, u, input);
  }

  // ----- an edit that hides a copy -----

  /** Somebody takes all labels off the copy. */
  function Unlabelling(c: Conf, deps: Deps): Step {
    var body := TokenWorld(c, deps).down[c.target].objects[TokenCopyKey()].body;
    EditDownstream(c.target, TokenCopyKey(), body.(labels := map[]), None)
  }

  lemma TokenLeadsBack(c: Conf, deps: Deps, d: Down)
    requires Lawful(deps.codec) && d.namespaces == TokenWorld(c, deps).down[c.target].namespaces
    ensures WayBack(c, deps, d, TokenCopyKey()) == Some(TokenKey())
  {
    NewNamespaceLocator(c, deps, TokenKey());
    assert Ours(c, Desired(c, TokenKey()));
    assert SYNCER_ID_PREFIX[4] != "kcp-a"[4];
  }

  lemma UnlabellingIsOwned(s: Setting, t: Target)
    requires Sound(s) && s.confs.Keys == {t}
    ensures var w, step := TokenWorld(s.confs[t], s.deps), Unlabelling(s.confs[t], s.deps);
            && Possible(s, w, step) && !WithinLimits(s, w, step)
            && var edited := Next(s, w, step);
               && edited.up == w.up && edited.down[t].namespaces == w.down[t].namespaces
               && TokenCopyKey() in edited.down[t].seen && !IsListed(t, edited.down[t], TokenCopyKey())
               && !NoCopyOf(edited.down[t], TokenKey())
               && Owned(s, w) && Owned(s, edited)
  {
    var w := TokenWorld(s.confs[t], s.deps);
    var edited := Next(s, w, Unlabelling(s.confs[t], s.deps));
    assert edited.down[t].objects[TokenCopyKey()].origin == TokenKey();
    assert Owned(s, w);
    assert Owned(s, edited);
  }

  /** The assumption on labels is needed: when the syncer's label is taken off the
      copy of an object that is to go, the informers report the copy as deleted, and
      the next status step gives up the finalizer while the copy is still there. */
  lemma UnlabellingEditStrandsCopy(s: Setting, t: Target)
    requires Sound(s) && s.confs.Keys == {t}
    ensures var w, step := TokenWorld(s.confs[t], s.deps), Unlabelling(s.confs[t], s.deps);
            && Possible(s, w, step) && !WithinLimits(s, w, step)
            && var edited := Next(s, w, step);
               && Owned(s, w) && Owned(s, edited) && Possible(s, edited, Status(t, TokenCopyKey()))
               && !Owned(s, Next(s, edited, Status(t, TokenCopyKey())))
  {
    var c := s.confs[t];
    var w := TokenWorld(c, s.deps);
    UnlabellingIsOwned(s, t);
    var edited := Next(s, w, Unlabelling(c, s.deps));
    TokenLeadsBack(c, s.deps, edited.down[t]);
    assert WillRelease(edited.up, TokenKey(), t, View(edited.up, t, TokenKey()));
    StatusStepOwnedIff(s, edited, t, TokenCopyKey(), View(edited.up, t, TokenKey()));
  }
}
