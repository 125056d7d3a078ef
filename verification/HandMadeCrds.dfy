/** CRDs made by hand, and what publishing and cleaning up leave alone
    (pkg/reconciler/apiresource/negotiation.go). */
module HandMadeCrds {
  import opened Wrappers
  import opened CrdVersions

  /** No owner is a negotiated resource. */
  predicate IsHandMade(c: Crd) {
    forall o | o in c.owners :: !o.negotiated
  }

  /** A cleanup for an owner of the CRD, of a version that it has. */
  predicate Disturbs(s: Setting, c: Crd, step: Step) {
    && step.CleanupStep?
    && (exists o :: o in c.owners && o.name == NegotiatedName(s.group, s.resource, step.version) && o.uid == step.uid)
    && (exists v :: v in c.versions && v.name == step.version)
  }

  /** Nothing but such a cleanup changes it. */
  lemma StepLeavesIff(s: Setting, c: Crd, step: Step)
    requires IsHandMade(c)
    ensures Next(s, Some(c), step) == Some(c) <==> !Disturbs(s, c, step)
  {
    if step.CleanupStep? {
      WithoutShortens(c.versions, step.version);
      assert CleansUp(c, NegotiatedName(s.group, s.resource, step.version), step.uid, step.version) <==> Disturbs(s, c, step);
    }
  }

  /** It has fewer versions than it had, or was replaced by a negotiated one. */
  ghost predicate IsDisturbed(s: Setting, c: Crd, crd: Option<Crd>) {
    Inv(s, crd) || (crd.Some? && IsHandMade(crd.value) && |crd.value.versions| < |c.versions|)
  }

  lemma DisturbedIsDifferent(s: Setting, c: Crd, crd: Option<Crd>)
    requires IsHandMade(c) && IsDisturbed(s, c, crd)
    ensures crd != Some(c)
  {
    if crd.Some? && Inv(s, crd) { OwnedIsNotManual(s.cmp, s.group, s.resource, crd.value); }
  }

  lemma CleanupDisturbs(s: Setting, c: Crd, step: Step)
    requires IsHandMade(c) && Disturbs(s, c, step)
    ensures IsDisturbed(s, c, Next(s, Some(c), step))
  {
    var name := NegotiatedName(s.group, s.resource, step.version);
    WithoutShortens(c.versions, step.version);
    OwnersWithoutIs(c.owners, name, step.uid);
    assert CleansUp(c, name, step.uid, step.version);
  }

  lemma StaysDisturbed(s: Setting, c: Crd, crd: Option<Crd>, step: Step)
    requires CrdVersions.Lawful(s.cmp) && IsDisturbed(s, c, crd)
    ensures IsDisturbed(s, c, Next(s, crd, step))
  {
    if Inv(s, crd) {
      match step
      case PublishStep(uid, version, schema) => PublishKeeps(s, crd, uid, version, schema);
      case CleanupStep(uid, version) => CleanupKeeps(s, crd, uid, version);
    } else {
      StepLeavesIff(s, crd.value, step);
      if Disturbs(s, crd.value, step) { CleanupDisturbs(s, crd.value, step); }
    }
  }

  lemma {:induction false} NeverTheSameAgain(s: Setting, c: Crd, crd: Option<Crd>, steps: seq<Step>)
    requires CrdVersions.Lawful(s.cmp) && IsHandMade(c) && IsDisturbed(s, c, crd)
    ensures Run(s, crd, steps) != Some(c)
    decreases |steps|
  {
    if steps == [] {
      DisturbedIsDifferent(s, c, crd);
    } else {
      StaysDisturbed(s, c, crd, steps[0]);
      NeverTheSameAgain(s, c, Next(s, crd, steps[0]), steps[1..]);
    }
  }

  /** Main result: over every run a CRD made by hand is in the end as it was made if and
      only if no cleanup named one of its owners and versions: publishing never touches
      it, and what a cleanup takes away never comes back. */
  lemma {:induction false} HandMadeStaysIff(s: Setting, c: Crd, steps: seq<Step>)
    requires CrdVersions.Lawful(s.cmp) && IsHandMade(c)
    ensures Run(s, Some(c), steps) == Some(c) <==> forall step | step in steps :: !Disturbs(s, c, step)
    decreases |steps|
  {
    if steps != [] {
      assert steps == [steps[0]] + steps[1..];
      StepLeavesIff(s, c, steps[0]);
      if Disturbs(s, c, steps[0]) {
        CleanupDisturbs(s, c, steps[0]);
        NeverTheSameAgain(s, c, Next(s, Some(c), steps[0]), steps[1..]);
      } else {
        HandMadeStaysIff(s, c, steps[1..]);
      }
    }
  }

  // ----- what stays of a CRD that is negotiated -----

  /** Which version is the latest is decided by the comparison of the names. */
  lemma LatestIff(cmp: Compare, vs: seq<Version>, name: string)
    ensures IsLatest(cmp, vs, name) <==> forall v | v in vs :: cmp(v.name, name) <= 0
  {
    forall v | v in vs ensures !Greater(cmp, v.name, name) <==> cmp(v.name, name) <= 0 {
    }
  }

  /** Main result: publishing writes the version of the name, at its place or at the
      end, makes it the storage version exactly if no version is greater, and takes that
      role from the others then; names and schemas of all others stay in place. */
  lemma PublishWritesOneVersion(s: Setting, c: Crd, uid: string, version: string, schema: string, i: nat)
    requires Inv(s, Some(c))
    ensures var r := Next(s, Some(c), PublishStep(uid, version, schema));
            var latest := forall v | v in c.versions :: s.cmp(v.name, version) <= 0;
            && r.Some?
            && |r.value.versions| == |c.versions| + (if exists v :: v in c.versions && v.name == version then 0 else 1)
            && (i < |r.value.versions| ==>
                  r.value.versions[i]
                  == if i < |c.versions| && c.versions[i].name != version
                     then Version(c.versions[i].name, c.versions[i].storage && !latest, c.versions[i].schema)
                     else Version(version, latest, schema))
  {
    OwnedIsNotManual(s.cmp, s.group, s.resource, c);
    LatestIff(s.cmp, c.versions, version);
    LastNamedIs(c.versions, version);
    LastStorageIs(c.versions);
    if i < |PublishedVersions(s.cmp, c.versions, version, schema)| {
      PublishAt(s.cmp, c.versions, version, schema, i);
    }
  }

  /** The resource is added to the owners unless it is one. */
  lemma PublishAddsItsOwner(s: Setting, c: Crd, uid: string, version: string, schema: string)
    requires Inv(s, Some(c))
    ensures var name := NegotiatedName(s.group, s.resource, version);
            var r := Next(s, Some(c), PublishStep(uid, version, schema));
            && r.Some?
            && ((exists o :: o in c.owners && o.name == name && o.uid == uid) ==> r.value.owners == c.owners)
            && ((forall o | o in c.owners :: o.name != name || o.uid != uid) ==> r.value.owners == c.owners + [Owner(name, uid, true)])
  {
    OwnedIsNotManual(s.cmp, s.group, s.resource, c);
    var name := NegotiatedName(s.group, s.resource, version);
    assert forall o :: IsOwner(o, name, uid) <==> o.name == name && o.uid == uid;
  }

  /** The lists are filtered in order: what is kept of a beginning comes first. */
  lemma {:induction false} VersionsKeepOrder(vs: seq<Version>, i: nat, version: string)
    requires i <= |vs|
    ensures VersionsWithout(vs[..i], version) <= VersionsWithout(vs, version)
  {
    if i < |vs| {
      VersionsKeepOrder(vs[..|vs| - 1], i, version);
      assert vs[..|vs| - 1][..i] == vs[..i];
    } else {
      assert vs[..i] == vs;
    }
  }

  lemma {:induction false} OwnersKeepOrder(os: seq<Owner>, i: nat, name: string, uid: string)
    requires i <= |os|
    ensures OwnersWithout(os[..i], name, uid) <= OwnersWithout(os, name, uid)
  {
    if i < |os| {
      OwnersKeepOrder(os[..|os| - 1], i, name, uid);
      assert os[..|os| - 1][..i] == os[..i];
    } else {
      assert os[..i] == os;
    }
  }

  lemma {:induction false} VersionsWithoutIs(vs: seq<Version>, version: string)
    ensures forall v :: v in VersionsWithout(vs, version) <==> v in vs && v.name != version
  {
    if vs != [] {
      VersionsWithoutIs(vs[..|vs| - 1], version);
      assert vs == vs[..|vs| - 1] + [vs[|vs| - 1]];
    }
  }

  /** `r` has the versions and owners of `c` but those that go. */
  ghost predicate AreKept(c: Crd, r: Crd, name: string, uid: string, version: string) {
    && (forall v :: v in r.versions <==> v in c.versions && v.name != version)
    && (forall o :: o in r.owners <==> o in c.owners && !(o.name == name && o.uid == uid))
  }

  lemma CleanedIs(c: Crd, owner: string, uid: string, version: string)
    requires exists o :: o in c.owners && o.name == owner && o.uid == uid
    requires exists v :: v in c.versions && v.name == version
    ensures var r := Cleanup(Some(c), owner, uid, version);
            && (r.None? <==> forall v | v in c.versions :: v.name == version)
            && (r.Some? ==> AreKept(c, r.value, owner, uid, version))
  {
    VersionsWithoutIs(c.versions, version);
    OwnersWithoutIs(c.owners, owner, uid);
    assert CleansUp(c, owner, uid, version);
    var rest := VersionsWithout(c.versions, version);
    assert rest != [] ==> rest[0] in rest;
  }

  /** Main result: a cleanup for an owner takes away the version and the owner that it
      names, and the CRD if no version is left; every other version and owner stays as
      it was. Any other cleanup does nothing. */
  lemma CleanupTakesOneVersion(s: Setting, c: Crd, uid: string, version: string)
    ensures var name := NegotiatedName(s.group, s.resource, version);
            var r := Next(s, Some(c), CleanupStep(uid, version));
            if (exists o :: o in c.owners && o.name == name && o.uid == uid) && (exists v :: v in c.versions && v.name == version)
            then && (r.None? <==> forall v | v in c.versions :: v.name == version)
                 && (r.Some? ==> AreKept(c, r.value, name, uid, version))
            else r == Some(c)
  {
    var name := NegotiatedName(s.group, s.resource, version);
    if (exists o :: o in c.owners && o.name == name && o.uid == uid) && (exists v :: v in c.versions && v.name == version) {
      CleanedIs(c, name, uid, version);
    } else {
      assert !CleansUp(c, name, uid, version);
    }
  }

  /** Names as they are read by others. */
  lemma NamesAreWritten()
    ensures NegotiatedName("", "pods", "v1") == "pods.v1.core"
    ensures NegotiatedName("apps", "deployments", "v1") == "deployments.v1.apps"
  {
  }
}
