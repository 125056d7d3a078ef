/** Publishing negotiated resources as versions of one CRD, and cleaning up after
    them (pkg/reconciler/apiresource/negotiation.go). */
module CrdVersions {
  import opened Wrappers

  datatype Version = Version(name: string, storage: bool, schema: string)

  /** An owner reference; `negotiated` says that it is to a negotiated resource. */
  datatype Owner = Owner(name: string, uid: string, negotiated: bool)

  datatype Crd = Crd(versions: seq<Version>, owners: seq<Owner>)

  /** The comparison of version names, kept abstract; positive is greater. */
  type Compare = (string, string) -> int

  predicate Greater(cmp: Compare, a: string, b: string) {
    cmp(a, b) > 0
  }

  /** A total preorder. */
  ghost predicate Lawful(cmp: Compare) {
    && (forall a, b {:trigger Greater(cmp, a, b)} :: !(Greater(cmp, a, b) && Greater(cmp, b, a)))
    && (forall a, b, c :: AtMostTransitive(cmp, a, b, c))
  }

  predicate AtMostTransitive(cmp: Compare, a: string, b: string, c: string) {
    !Greater(cmp, a, b) && !Greater(cmp, b, c) ==> !Greater(cmp, a, c)
  }

  /** The name of the negotiated resource of one version. */
  function NegotiatedName(group: string, resource: string, version: string): string {
    resource + "." + version + "." + if group == "" then "core" else group
  }

  lemma NegotiatedNamesDiffer(group: string, resource: string, a: string, b: string)
    ensures NegotiatedName(group, resource, a) == NegotiatedName(group, resource, b) <==> a == b
  {
    var tail := "." + if group == "" then "core" else group;
    var head := resource + ".";
    var x, y := NegotiatedName(group, resource, a), NegotiatedName(group, resource, b);
    assert x == head + a + tail && y == head + b + tail;
    if x == y {
      assert |a| == |b|;
      assert a == x[|head|..|head| + |a|] && b == y[|head|..|head| + |b|];
    }
  }

  // ----- the operations as functions -----

  predicate IsManual(c: Crd) {
    forall o | o in c.owners :: !o.negotiated
  }

  predicate IsLatest(cmp: Compare, vs: seq<Version>, name: string) {
    forall v | v in vs :: !Greater(cmp, v.name, name)
  }

  /** The last position whose version has the name. */
  function LastNamed(vs: seq<Version>, name: string): Option<nat> {
    if vs == [] then None
    else if vs[|vs| - 1].name == name then Some(|vs| - 1)
    else LastNamed(vs[..|vs| - 1], name)
  }

  function LastStorage(vs: seq<Version>): Option<nat> {
    if vs == [] then None
    else if vs[|vs| - 1].storage then Some(|vs| - 1)
    else LastStorage(vs[..|vs| - 1])
  }

  lemma {:induction false} LastNamedIs(vs: seq<Version>, name: string)
    ensures LastNamed(vs, name).Some? ==> LastNamed(vs, name).value < |vs| && vs[LastNamed(vs, name).value].name == name
    ensures LastNamed(vs, name).None? ==> forall v | v in vs :: v.name != name
  {
    if vs != [] {
      LastNamedIs(vs[..|vs| - 1], name);
      assert vs == vs[..|vs| - 1] + [vs[|vs| - 1]];
    }
  }

  lemma {:induction false} LastStorageIs(vs: seq<Version>)
    ensures LastStorage(vs).Some? ==> LastStorage(vs).value < |vs| && vs[LastStorage(vs).value].storage
    ensures LastStorage(vs).None? ==> forall v | v in vs :: !v.storage
  {
    if vs != [] {
      LastStorageIs(vs[..|vs| - 1]);
      assert vs == vs[..|vs| - 1] + [vs[|vs| - 1]];
    }
  }

  /** The version list after publishing a version. */
  function PublishedVersions(cmp: Compare, vs: seq<Version>, name: string, schema: string): seq<Version> {
    var latest := IsLatest(cmp, vs, name);
    var added := Version(name, latest, schema);
    LastStorageIs(vs);
    LastNamedIs(vs, name);
    var demoted :=
      if latest && LastStorage(vs).Some?
      then vs[LastStorage(vs).value := vs[LastStorage(vs).value].(storage := false)]
      else vs;
    if LastNamed(vs, name).None? then demoted + [added] else demoted[LastNamed(vs, name).value := added]
  }

  predicate IsOwner(o: Owner, name: string, uid: string) {
    o.name == name && o.uid == uid
  }

  function PublishedOwners(owners: seq<Owner>, name: string, uid: string): seq<Owner> {
    if exists o | o in owners :: IsOwner(o, name, uid) then owners else owners + [Owner(name, uid, true)]
  }

  function Publish(cmp: Compare, crd: Option<Crd>, owner: string, uid: string, version: string, schema: string): Option<Crd> {
    match crd
    case None => Some(Crd([Version(version, true, schema)], [Owner(owner, uid, true)]))
    case Some(c) =>
      if IsManual(c) then crd
      else Some(Crd(PublishedVersions(cmp, c.versions, version, schema), PublishedOwners(c.owners, owner, uid)))
  }

  function VersionsWithout(vs: seq<Version>, name: string): seq<Version> {
    if vs == [] then []
    else VersionsWithout(vs[..|vs| - 1], name) + if vs[|vs| - 1].name == name then [] else [vs[|vs| - 1]]
  }

  function OwnersWithout(os: seq<Owner>, name: string, uid: string): seq<Owner> {
    if os == [] then []
    else OwnersWithout(os[..|os| - 1], name, uid) + if IsOwner(os[|os| - 1], name, uid) then [] else [os[|os| - 1]]
  }

  /** The cleanup after a deleted negotiated resource takes effect. */
  predicate CleansUp(c: Crd, owner: string, uid: string, version: string) {
    && (exists o | o in c.owners :: IsOwner(o, owner, uid))
    && (exists v | v in c.versions :: v.name == version)
  }

  function Cleanup(crd: Option<Crd>, owner: string, uid: string, version: string): Option<Crd> {
    if crd.None? || !CleansUp(crd.value, owner, uid, version) then crd
    else
      var versions := VersionsWithout(crd.value.versions, version);
      if versions == [] then None else Some(Crd(versions, OwnersWithout(crd.value.owners, owner, uid)))
  }

  // ----- the controller -----

  class CrdController {
    const cmp: Compare
    var crd: Option<Crd>

    constructor (cmp: Compare, crd: Option<Crd>)
      ensures this.cmp == cmp && this.crd == crd
    {
      this.cmp, this.crd := cmp, crd;
    }

    static method IsManuallyCreatedCRD(c: Crd) returns (manual: bool)
      ensures manual <==> IsManual(c)
    {
      for i := 0 to |c.owners|
        invariant forall o | o in c.owners[..i] :: !o.negotiated
      {
        if c.owners[i].negotiated { return false; }
      }
      return true;
    }

    /** One pass over the versions: is the version the latest, where is it, and
        which one is the storage version? */
    static method Survey(cmp: Compare, versions: seq<Version>, version: string)
      returns (latest: bool, existingIndex: Option<nat>, storageIndex: Option<nat>)
      ensures latest <==> IsLatest(cmp, versions, version)
      ensures existingIndex == LastNamed(versions, version) && storageIndex == LastStorage(versions)
    {
      latest, existingIndex, storageIndex := true, None, None;
      for index := 0 to |versions|
        invariant latest <==> IsLatest(cmp, versions[..index], version)
        invariant existingIndex == LastNamed(versions[..index], version)
        invariant storageIndex == LastStorage(versions[..index])
      {
        assert versions[..index + 1][..index] == versions[..index];
        if versions[index].name == version { existingIndex := Some(index); }
        if cmp(versions[index].name, version) > 0 { latest := false; }
        if versions[index].storage { storageIndex := Some(index); }
      }
      assert versions[..|versions|] == versions;
    }

    static method UpdateVersions(cmp: Compare, vs: seq<Version>, version: string, schema: string) returns (versions: seq<Version>)
      ensures versions == PublishedVersions(cmp, vs, version, schema)
    {
      versions := vs;
      var crdVersion := Version(version, true, schema);
      var latest, existingIndex, storageIndex := Survey(cmp, versions, version);
      LastStorageIs(versions);
      LastNamedIs(versions, version);
      if !latest {
        crdVersion := crdVersion.(storage := false);
      } else if storageIndex.Some? {
        versions := versions[storageIndex.value := versions[storageIndex.value].(storage := false)];
      }
      if existingIndex.None? {
        versions := versions + [crdVersion];
      } else {
        versions := versions[existingIndex.value := crdVersion];
      }
    }

    static method UpdateOwners(os: seq<Owner>, owner: string, uid: string) returns (owners: seq<Owner>)
      ensures owners == PublishedOwners(os, owner, uid)
    {
      owners := os;
      for i := 0 to |owners|
        invariant owners == os && !exists o | o in os[..i] :: IsOwner(o, owner, uid)
      {
        if IsOwner(owners[i], owner, uid) { return; }
      }
      assert os[..|os|] == os;
      owners := owners + [Owner(owner, uid, true)];
    }

    method PublishNegotiatedResource(owner: string, uid: string, version: string, schema: string)
      modifies this
      ensures crd == Publish(cmp, old(crd), owner, uid, version, schema)
      ensures old(crd).Some? && (forall o | o in old(crd).value.owners :: !o.negotiated) ==> crd == old(crd)
    {
      if crd.None? {
        crd := Some(Crd([Version(version, true, schema)], [Owner(owner, uid, true)]));
        return;
      }
      var manual := IsManuallyCreatedCRD(crd.value);
      if manual { return; }
      var versions := UpdateVersions(cmp, crd.value.versions, version, schema);
      var owners := UpdateOwners(crd.value.owners, owner, uid);
      crd := Some(Crd(versions, owners));
    }

    static method RemoveOwner(os: seq<Owner>, owner: string, uid: string) returns (found: bool, owners: seq<Owner>)
      ensures found <==> exists o | o in os :: IsOwner(o, owner, uid)
      ensures owners == OwnersWithout(os, owner, uid)
    {
      found, owners := false, [];
      for i := 0 to |os|
        invariant found <==> exists o | o in os[..i] :: IsOwner(o, owner, uid)
        invariant owners == OwnersWithout(os[..i], owner, uid)
      {
        assert os[..i + 1] == os[..i] + [os[i]] && os[..i + 1][..i] == os[..i];
        if IsOwner(os[i], owner, uid) { found := true; } else { owners := owners + [os[i]]; }
      }
      assert os[..|os|] == os;
    }

    static method RemoveVersion(vs: seq<Version>, version: string) returns (versions: seq<Version>)
      ensures versions == VersionsWithout(vs, version)
    {
      versions := [];
      for i := 0 to |vs|
        invariant versions == VersionsWithout(vs[..i], version)
      {
        assert vs[..i + 1][..i] == vs[..i];
        if vs[i].name != version { versions := versions + [vs[i]]; }
      }
      assert vs[..|vs|] == vs;
    }

    method CleanupNegotiatedAPIResource(owner: string, uid: string, version: string)
      modifies this
      ensures crd == Cleanup(old(crd), owner, uid, version)
    {
      if crd.None? { return; }
      var c := crd.value;
      var isOwner, owners := RemoveOwner(c.owners, owner, uid);
      if !isOwner { return; }
      var versions := RemoveVersion(c.versions, version);
      WithoutShortens(c.versions, version);
      if |versions| == |c.versions| { return; }
      if |versions| == 0 { crd := None; } else { crd := Some(Crd(versions, owners)); }
    }
  }

  lemma {:induction false} WithoutShortens(vs: seq<Version>, name: string)
    ensures |VersionsWithout(vs, name)| <= |vs|
    ensures |VersionsWithout(vs, name)| == |vs| <==> !exists v | v in vs :: v.name == name
  {
    if vs != [] {
      WithoutShortens(vs[..|vs| - 1], name);
      assert vs == vs[..|vs| - 1] + [vs[|vs| - 1]];
    }
  }

  // ----- what every run keeps -----

  predicate UniqueNames(vs: seq<Version>) {
    forall i, j | 0 <= i < j < |vs| :: vs[i].name != vs[j].name
  }

  predicate AtMostOneStorage(vs: seq<Version>) {
    forall i, j | 0 <= i < |vs| && 0 <= j < |vs| && vs[i].storage && vs[j].storage :: i == j
  }

  predicate StorageIsGreatest(cmp: Compare, vs: seq<Version>) {
    forall i | 0 <= i < |vs| && vs[i].storage :: IsLatest(cmp, vs, vs[i].name)
  }

  ghost predicate VersionsOk(cmp: Compare, vs: seq<Version>) {
    UniqueNames(vs) && AtMostOneStorage(vs) && StorageIsGreatest(cmp, vs)
  }

  /** Every version has a negotiated resource of its name among the owners. */
  ghost predicate OwnersOk(group: string, resource: string, c: Crd) {
    forall v | v in c.versions :: HasOwner(c.owners, NegotiatedName(group, resource, v.name))
  }

  predicate HasOwner(owners: seq<Owner>, name: string) {
    exists o | o in owners :: o.name == name && o.negotiated
  }

  ghost predicate CrdOk(cmp: Compare, group: string, resource: string, crd: Option<Crd>) {
    crd.Some? ==> crd.value.versions != [] && VersionsOk(cmp, crd.value.versions) && OwnersOk(group, resource, crd.value)
  }

  lemma OwnedIsNotManual(cmp: Compare, group: string, resource: string, c: Crd)
    requires CrdOk(cmp, group, resource, Some(c))
    ensures !IsManual(c)
  {
    assert c.versions[0] in c.versions;
  }

  predicate HasStorage(vs: seq<Version>) {
    exists v | v in vs :: v.storage
  }

  /** In a list with unique names a version is where its name is. */
  lemma PublishAt(cmp: Compare, vs: seq<Version>, name: string, schema: string, i: nat)
    requires UniqueNames(vs) && AtMostOneStorage(vs)
    requires i < |PublishedVersions(cmp, vs, name, schema)|
    ensures var r := PublishedVersions(cmp, vs, name, schema);
            var latest := IsLatest(cmp, vs, name);
            && |vs| <= |r| <= |vs| + 1
            && (r[i].name == name ==> r[i] == Version(name, latest, schema))
            && (r[i].name != name ==> i < |vs| && r[i] == vs[i].(storage := vs[i].storage && !latest))
            && (i < |vs| ==> r[i].name == vs[i].name)
            && (i == |vs| ==> r[i].name == name && LastNamed(vs, name).None?)
  {
    LastStorageIs(vs);
    LastNamedIs(vs, name);
    if i < |vs| { assert vs[i] in vs; }
  }

  lemma PublishHasNew(cmp: Compare, vs: seq<Version>, name: string, schema: string)
    ensures Version(name, IsLatest(cmp, vs, name), schema) in PublishedVersions(cmp, vs, name, schema)
    ensures |vs| <= |PublishedVersions(cmp, vs, name, schema)|
  {
    LastStorageIs(vs);
    LastNamedIs(vs, name);
    var r := PublishedVersions(cmp, vs, name, schema);
    if LastNamed(vs, name).Some? {
      assert r[LastNamed(vs, name).value] == Version(name, IsLatest(cmp, vs, name), schema);
    } else {
      assert r[|vs|] == Version(name, IsLatest(cmp, vs, name), schema);
    }
  }

  lemma PublishKeepsNamesUnique(cmp: Compare, vs: seq<Version>, name: string, schema: string)
    requires UniqueNames(vs) && AtMostOneStorage(vs)
    ensures UniqueNames(PublishedVersions(cmp, vs, name, schema))
  {
    var r := PublishedVersions(cmp, vs, name, schema);
    forall i, j | 0 <= i < j < |r| ensures r[i].name != r[j].name {
      PublishAt(cmp, vs, name, schema, i);
      PublishAt(cmp, vs, name, schema, j);
      LastNamedIs(vs, name);
      if j == |vs| { assert vs[i] in vs; }
    }
  }

  lemma PublishKeepsStorage(cmp: Compare, vs: seq<Version>, name: string, schema: string)
    requires Lawful(cmp) && VersionsOk(cmp, vs)
    ensures var r := PublishedVersions(cmp, vs, name, schema);
            AtMostOneStorage(r) && StorageIsGreatest(cmp, r)
  {
    var r := PublishedVersions(cmp, vs, name, schema);
    PublishKeepsNamesUnique(cmp, vs, name, schema);
    forall i, j | 0 <= i < |r| && 0 <= j < |r| && r[i].storage && r[j].storage ensures i == j {
      PublishAt(cmp, vs, name, schema, i);
      PublishAt(cmp, vs, name, schema, j);
    }
    forall i, j | 0 <= i < |r| && 0 <= j < |r| && r[i].storage ensures !Greater(cmp, r[j].name, r[i].name) {
      PublishAt(cmp, vs, name, schema, i);
      PublishAt(cmp, vs, name, schema, j);
      if j < |vs| { assert vs[j] in vs; }
      if i < |vs| && r[i].name != name {
        StorageStaysGreatest(cmp, vs, name, vs[i].name);
      }
    }
  }

  /** A storage version that is kept when a version is published which is not the
      latest is not smaller than that version either. */
  lemma StorageStaysGreatest(cmp: Compare, vs: seq<Version>, name: string, storage: string)
    requires Lawful(cmp) && IsLatest(cmp, vs, storage) && !IsLatest(cmp, vs, name)
    ensures !Greater(cmp, name, storage)
  {
    var v :| v in vs && Greater(cmp, v.name, name);
    assert AtMostTransitive(cmp, name, v.name, storage);
  }

  lemma {:induction false} WithoutIs(vs: seq<Version>, name: string)
    requires UniqueNames(vs) && AtMostOneStorage(vs)
    ensures forall v :: v in VersionsWithout(vs, name) <==> v in vs && v.name != name
    ensures UniqueNames(VersionsWithout(vs, name)) && AtMostOneStorage(VersionsWithout(vs, name))
  {
    if vs != [] {
      var init := vs[..|vs| - 1];
      WithoutIs(init, name);
      assert vs == init + [vs[|vs| - 1]];
      var r := VersionsWithout(vs, name);
      forall i | 0 <= i < |VersionsWithout(init, name)|
        ensures VersionsWithout(init, name)[i].name != vs[|vs| - 1].name
        ensures !(VersionsWithout(init, name)[i].storage && vs[|vs| - 1].storage)
      {
        assert VersionsWithout(init, name)[i] in init;
      }
    }
  }

  lemma CleanupKeepsVersions(cmp: Compare, vs: seq<Version>, name: string)
    requires VersionsOk(cmp, vs)
    ensures VersionsOk(cmp, VersionsWithout(vs, name))
  {
    WithoutIs(vs, name);
    var r := VersionsWithout(vs, name);
    forall i | 0 <= i < |r| && r[i].storage ensures IsLatest(cmp, r, r[i].name) {
      assert r[i] in vs;
    }
  }

  lemma {:induction false} OwnersWithoutIs(os: seq<Owner>, name: string, uid: string)
    ensures forall o :: o in OwnersWithout(os, name, uid) <==> o in os && !IsOwner(o, name, uid)
  {
    if os != [] {
      OwnersWithoutIs(os[..|os| - 1], name, uid);
      assert os == os[..|os| - 1] + [os[|os| - 1]];
    }
  }

  lemma PublishKeepsOwners(cmp: Compare, group: string, resource: string, c: Crd, uid: string, version: string, schema: string)
    requires VersionsOk(cmp, c.versions) && OwnersOk(group, resource, c)
    requires forall o | o in c.owners && o.name == NegotiatedName(group, resource, version) :: o.negotiated
    ensures OwnersOk(group, resource, Crd(PublishedVersions(cmp, c.versions, version, schema),
                                          PublishedOwners(c.owners, NegotiatedName(group, resource, version), uid)))
  {
    var name := NegotiatedName(group, resource, version);
    var r, os := PublishedVersions(cmp, c.versions, version, schema), PublishedOwners(c.owners, name, uid);
    assert HasOwner(os, name) by {
      if os == c.owners {
        var o :| o in c.owners && IsOwner(o, name, uid);
      } else {
        assert os[|c.owners|] == Owner(name, uid, true);
      }
    }
    forall v | v in r ensures HasOwner(os, NegotiatedName(group, resource, v.name)) {
      var i :| 0 <= i < |r| && r[i] == v;
      PublishAt(cmp, c.versions, version, schema, i);
      if v.name != version {
        assert c.versions[i] in c.versions;
        var o :| o in c.owners && o.name == NegotiatedName(group, resource, c.versions[i].name) && o.negotiated;
        assert o in os;
      }
    }
  }

  lemma CleanupKeepsOwners(cmp: Compare, group: string, resource: string, c: Crd, uid: string, version: string)
    requires VersionsOk(cmp, c.versions) && OwnersOk(group, resource, c)
    ensures OwnersOk(group, resource, Crd(VersionsWithout(c.versions, version),
                                          OwnersWithout(c.owners, NegotiatedName(group, resource, version), uid)))
  {
    var name := NegotiatedName(group, resource, version);
    WithoutIs(c.versions, version);
    OwnersWithoutIs(c.owners, name, uid);
    forall v | v in VersionsWithout(c.versions, version)
      ensures HasOwner(OwnersWithout(c.owners, name, uid), NegotiatedName(group, resource, v.name))
    {
      NegotiatedNamesDiffer(group, resource, v.name, version);
      var o :| o in c.owners && o.name == NegotiatedName(group, resource, v.name) && o.negotiated;
      assert o in OwnersWithout(c.owners, name, uid);
    }
  }

  // ----- runs -----

  datatype Step = PublishStep(uid: string, version: string, schema: string) | CleanupStep(uid: string, version: string)

  datatype Setting = Setting(cmp: Compare, group: string, resource: string)

  function Next(s: Setting, crd: Option<Crd>, step: Step): Option<Crd> {
    var name := NegotiatedName(s.group, s.resource, step.version);
    match step
    case PublishStep(uid, version, schema) => Publish(s.cmp, crd, name, uid, version, schema)
    case CleanupStep(uid, version) => Cleanup(crd, name, uid, version)
  }

  function Run(s: Setting, crd: Option<Crd>, steps: seq<Step>): Option<Crd>
    decreases |steps|
  {
    if steps == [] then crd else Run(s, Next(s, crd, steps[0]), steps[1..])
  }

  /** All owners are negotiated resources. */
  ghost predicate Inv(s: Setting, crd: Option<Crd>) {
    CrdOk(s.cmp, s.group, s.resource, crd) && (crd.Some? ==> forall o | o in crd.value.owners :: o.negotiated)
  }

  lemma PublishKeeps(s: Setting, crd: Option<Crd>, uid: string, version: string, schema: string)
    requires Lawful(s.cmp) && Inv(s, crd)
    ensures Inv(s, Next(s, crd, PublishStep(uid, version, schema)))
  {
    var name := NegotiatedName(s.group, s.resource, version);
    if crd.None? {
      assert Owner(name, uid, true) in Next(s, crd, PublishStep(uid, version, schema)).value.owners;
    } else {
      var c := crd.value;
      OwnedIsNotManual(s.cmp, s.group, s.resource, c);
      PublishKeepsNamesUnique(s.cmp, c.versions, version, schema);
      PublishKeepsStorage(s.cmp, c.versions, version, schema);
      PublishKeepsOwners(s.cmp, s.group, s.resource, c, uid, version, schema);
      PublishHasNew(s.cmp, c.versions, version, schema);
    }
  }

  lemma CleanupKeeps(s: Setting, crd: Option<Crd>, uid: string, version: string)
    requires Inv(s, crd)
    ensures Inv(s, Next(s, crd, CleanupStep(uid, version)))
  {
    if crd.Some? {
      CleanupKeepsVersions(s.cmp, crd.value.versions, version);
      CleanupKeepsOwners(s.cmp, s.group, s.resource, crd.value, uid, version);
      OwnersWithoutIs(crd.value.owners, NegotiatedName(s.group, s.resource, version), uid);
    }
  }

  /** Main result: over every run of publishing and cleaning up, a CRD that exists
      has versions, their names are unique, at most one is the storage version, no
      version is greater than it, and every version has an owner that keeps the
      CRD from being taken for one created by hand. */
  lemma {:induction false} RunsKeepVersions(s: Setting, crd: Option<Crd>, steps: seq<Step>)
    requires Lawful(s.cmp) && Inv(s, crd)
    ensures Inv(s, Run(s, crd, steps))
    ensures Run(s, crd, steps).Some? ==> !IsManual(Run(s, crd, steps).value)
    decreases |steps|
  {
    if steps == [] {
      if crd.Some? { OwnedIsNotManual(s.cmp, s.group, s.resource, crd.value); }
    } else {
      match steps[0]
      case PublishStep(uid, version, schema) =>
        PublishKeeps(s, crd, uid, version, schema);
        RunsKeepVersions(s, Next(s, crd, steps[0]), steps[1..]);
      case CleanupStep(uid, version) =>
        CleanupKeeps(s, crd, uid, version);
        RunsKeepVersions(s, Next(s, crd, steps[0]), steps[1..]);
    }
  }

  // ----- whether there is a storage version -----

  /** Main result: publishing leaves a storage version exactly when there was one
      or the version is the latest; then it is the storage version itself. */
  lemma PublishStorageIff(s: Setting, c: Crd, uid: string, version: string, schema: string)
    requires Lawful(s.cmp) && Inv(s, Some(c))
    ensures var r := Next(s, Some(c), PublishStep(uid, version, schema));
            && r.Some?
            && (HasStorage(r.value.versions) <==> HasStorage(c.versions) || IsLatest(s.cmp, c.versions, version))
            && (Version(version, true, schema) in r.value.versions <==> IsLatest(s.cmp, c.versions, version))
  {
    OwnedIsNotManual(s.cmp, s.group, s.resource, c);
    var vs, r := c.versions, PublishedVersions(s.cmp, c.versions, version, schema);
    PublishHasNew(s.cmp, vs, version, schema);
    forall i | 0 <= i < |r| ensures r[i].name == version ==> r[i] == Version(version, IsLatest(s.cmp, vs, version), schema) {
      PublishAt(s.cmp, vs, version, schema, i);
    }
    if !IsLatest(s.cmp, vs, version) {
      if HasStorage(vs) {
        var i :| 0 <= i < |vs| && vs[i].storage;
        PublishAt(s.cmp, vs, version, schema, i);
        assert r[i] in r;
      }
      if HasStorage(r) {
        var i :| 0 <= i < |r| && r[i].storage;
        PublishAt(s.cmp, vs, version, schema, i);
        assert vs[i] in vs;
      }
    }
  }

  /** Main result: cleaning up leaves the CRD without a storage version exactly
      when there was none or when it took the storage version away and other
      versions remain: nothing is promoted. */
  lemma CleanupStorageIff(s: Setting, c: Crd, uid: string, version: string)
    requires Inv(s, Some(c))
    ensures var name := NegotiatedName(s.group, s.resource, version);
            var r := Next(s, Some(c), CleanupStep(uid, version));
            && (r.None? <==> CleansUp(c, name, uid, version) && forall v | v in c.versions :: v.name == version)
            && (r.Some? ==>
                  (HasStorage(r.value.versions)
                   <==> HasStorage(c.versions)
                        && !(CleansUp(c, name, uid, version) && exists v | v in c.versions :: v.name == version && v.storage)))
  {
    WithoutIs(c.versions, version);
    var r := VersionsWithout(c.versions, version);
    if r == [] {
      forall v | v in c.versions ensures v.name == version {
        assert v !in r;
      }
    } else {
      assert r[0] in r;
    }
    if exists v | v in c.versions :: v.name == version && v.storage {
      forall v | v in r ensures !v.storage {
        var i :| 0 <= i < |c.versions| && c.versions[i] == v;
      }
    } else if HasStorage(c.versions) {
      var v :| v in c.versions && v.storage;
      assert v in r;
    }
  }

  ghost predicate RemovesStorage(s: Setting, crd: Option<Crd>, step: Step) {
    && step.CleanupStep? && crd.Some?
    && CleansUp(crd.value, NegotiatedName(s.group, s.resource, step.version), step.uid, step.version)
    && exists v | v in crd.value.versions :: v.name == step.version && v.storage
  }

  ghost predicate NeverRemovesStorage(s: Setting, crd: Option<Crd>, steps: seq<Step>)
    decreases |steps|
  {
    steps == [] || (!RemovesStorage(s, crd, steps[0]) && NeverRemovesStorage(s, Next(s, crd, steps[0]), steps[1..]))
  }

  /** Main result: a CRD that has a storage version has exactly one, and keeps one
      over every run in which no cleanup takes the storage version away. */
  lemma {:induction false} StorageStaysUntilRemoved(s: Setting, c: Crd, steps: seq<Step>)
    requires Lawful(s.cmp) && Inv(s, Some(c)) && HasStorage(c.versions)
    requires NeverRemovesStorage(s, Some(c), steps)
    ensures var r := Run(s, Some(c), steps);
            && r.Some? && HasStorage(r.value.versions)
            && forall v, v' | v in r.value.versions && v' in r.value.versions && v.storage && v'.storage :: v == v'
    decreases |steps|
  {
    if steps == [] {
    } else {
      var r := Next(s, Some(c), steps[0]);
      if steps[0].PublishStep? {
        PublishKeeps(s, Some(c), steps[0].uid, steps[0].version, steps[0].schema);
        PublishStorageIff(s, c, steps[0].uid, steps[0].version, steps[0].schema);
      } else {
        CleanupKeeps(s, Some(c), steps[0].uid, steps[0].version);
        CleanupStorageIff(s, c, steps[0].uid, steps[0].version);
      }
      StorageStaysUntilRemoved(s, r.value, steps[1..]);
    }
  }

  lemma {:induction false} RunOneMore(s: Setting, crd: Option<Crd>, steps: seq<Step>, last: Step)
    ensures Run(s, crd, steps + [last]) == Next(s, Run(s, crd, steps), last)
    decreases |steps|
  {
    if steps == [] {
      assert [] + [last] == [last] && [last][1..] == [];
    } else {
      RunOneMore(s, Next(s, crd, steps[0]), steps[1..], last);
      assert (steps + [last])[1..] == steps[1..] + [last];
    }
  }

  // ----- whether a cleanup takes a version away -----

  predicate HasVersion(crd: Option<Crd>, version: string) {
    crd.Some? && exists v :: v in crd.value.versions && v.name == version
  }

  predicate IsOwnedBy(crd: Option<Crd>, name: string, uid: string) {
    crd.Some? && exists o :: o in crd.value.owners && IsOwner(o, name, uid)
  }

  /** Main result: a version survives a cleanup for a negotiated resource of its name
      if and only if the uid of that resource is not among the owners; whether
      another resource of the name is among them does not matter. */
  lemma VersionSurvivesIff(s: Setting, c: Crd, uid: string, version: string)
    requires Inv(s, Some(c)) && HasVersion(Some(c), version)
    ensures HasVersion(Next(s, Some(c), CleanupStep(uid, version)), version)
            <==> !IsOwnedBy(Some(c), NegotiatedName(s.group, s.resource, version), uid)
  {
    WithoutIs(c.versions, version);
  }

  /** A cleanup that takes the owner away, of this resource or with the whole CRD. */
  predicate Disowns(s: Setting, crd: Option<Crd>, step: Step, uid: string, version: string) {
    && step.CleanupStep? && crd.Some?
    && CleansUp(crd.value, NegotiatedName(s.group, s.resource, step.version), step.uid, step.version)
    && ((step.uid == uid && step.version == version) || Next(s, crd, step) == None)
  }

  predicate IsPublishOf(step: Step, uid: string, version: string) {
    step.PublishStep? && step.uid == uid && step.version == version
  }

  lemma PublishedOwnersAre(owners: seq<Owner>, own: string, published: string, name: string, uid: string)
    ensures (exists o :: o in PublishedOwners(owners, own, published) && IsOwner(o, name, uid))
            <==> (exists o :: o in owners && IsOwner(o, name, uid)) || (name == own && uid == published)
  {
    var r := PublishedOwners(owners, own, published);
    if exists o | o in owners :: IsOwner(o, own, published) {
      assert r == owners;
    } else {
      var added := Owner(own, published, true);
      assert r == owners + [added] && r[|owners|] == added && IsOwner(added, own, published);
      assert forall o :: o in r <==> o in owners || o == added;
    }
  }

  lemma OwnedAfterPublish(s: Setting, crd: Option<Crd>, step: Step, uid: string, version: string)
    requires Inv(s, crd) && step.PublishStep?
    ensures var name := NegotiatedName(s.group, s.resource, version);
            IsOwnedBy(Next(s, crd, step), name, uid) <==> IsOwnedBy(crd, name, uid) || IsPublishOf(step, uid, version)
  {
    var name, own := NegotiatedName(s.group, s.resource, version), NegotiatedName(s.group, s.resource, step.version);
    NegotiatedNamesDiffer(s.group, s.resource, version, step.version);
    if crd.None? {
      var added := Owner(own, step.uid, true);
      assert Next(s, crd, step).value.owners == [added];
      assert added in [added] && IsOwner(added, own, step.uid);
    } else {
      OwnedIsNotManual(s.cmp, s.group, s.resource, crd.value);
      PublishedOwnersAre(crd.value.owners, own, step.uid, name, uid);
    }
  }

  lemma OwnedAfterCleanup(s: Setting, crd: Option<Crd>, step: Step, uid: string, version: string)
    requires Inv(s, crd) && step.CleanupStep?
    ensures var name := NegotiatedName(s.group, s.resource, version);
            IsOwnedBy(Next(s, crd, step), name, uid) <==> IsOwnedBy(crd, name, uid) && !Disowns(s, crd, step, uid, version)
  {
    var name, own := NegotiatedName(s.group, s.resource, version), NegotiatedName(s.group, s.resource, step.version);
    NegotiatedNamesDiffer(s.group, s.resource, version, step.version);
    if crd.Some? && CleansUp(crd.value, own, step.uid, step.version) {
      OwnersWithoutIs(crd.value.owners, own, step.uid);
      if IsOwnedBy(crd, name, uid) && !Disowns(s, crd, step, uid, version) {
        var o :| o in crd.value.owners && IsOwner(o, name, uid);
        assert o in Next(s, crd, step).value.owners;
      }
    }
  }

  /** The resource was published, and no cleanup disowned it since. */
  ghost predicate PublishedSince(s: Setting, steps: seq<Step>, uid: string, version: string) {
    exists i | 0 <= i < |steps| :: IsPublishOf(steps[i], uid, version)
      && forall j | i < j < |steps| :: !Disowns(s, Run(s, None, steps[..j]), steps[j], uid, version)
  }

  lemma SinceGrows(s: Setting, steps: seq<Step>, last: Step, uid: string, version: string)
    requires PublishedSince(s, steps, uid, version) && !Disowns(s, Run(s, None, steps), last, uid, version)
    ensures PublishedSince(s, steps + [last], uid, version)
  {
    var all := steps + [last];
    var i :| 0 <= i < |steps| && IsPublishOf(steps[i], uid, version)
      && forall j | i < j < |steps| :: !Disowns(s, Run(s, None, steps[..j]), steps[j], uid, version);
    assert IsPublishOf(all[i], uid, version);
    forall j | i < j < |all| ensures !Disowns(s, Run(s, None, all[..j]), all[j], uid, version) {
      assert all[..j] == steps[..j];
      if j == |steps| { assert steps[..j] == steps; }
    }
  }

  lemma SinceShrinks(s: Setting, steps: seq<Step>, last: Step, uid: string, version: string)
    requires PublishedSince(s, steps + [last], uid, version) && !IsPublishOf(last, uid, version)
    ensures PublishedSince(s, steps, uid, version) && !Disowns(s, Run(s, None, steps), last, uid, version)
  {
    var all := steps + [last];
    var i :| 0 <= i < |all| && IsPublishOf(all[i], uid, version)
      && forall j | i < j < |all| :: !Disowns(s, Run(s, None, all[..j]), all[j], uid, version);
    assert i < |steps| && all[..|steps|] == steps;
    assert !Disowns(s, Run(s, None, all[..|steps|]), all[|steps|], uid, version);
    forall j | i < j < |steps| ensures !Disowns(s, Run(s, None, steps[..j]), steps[j], uid, version) {
      assert all[..j] == steps[..j] && all[j] == steps[j];
    }
    assert IsPublishOf(steps[i], uid, version);
  }

  lemma PublishedSinceNext(s: Setting, steps: seq<Step>, last: Step, uid: string, version: string)
    ensures PublishedSince(s, steps + [last], uid, version)
            <==> IsPublishOf(last, uid, version)
                 || (PublishedSince(s, steps, uid, version) && !Disowns(s, Run(s, None, steps), last, uid, version))
  {
    if IsPublishOf(last, uid, version) {
      assert IsPublishOf((steps + [last])[|steps|], uid, version);
    } else {
      if PublishedSince(s, steps + [last], uid, version) { SinceShrinks(s, steps, last, uid, version); }
      if PublishedSince(s, steps, uid, version) && !Disowns(s, Run(s, None, steps), last, uid, version) {
        SinceGrows(s, steps, last, uid, version);
      }
    }
  }

  /** Over every run a resource is an owner if and only if it was published and no
      cleanup disowned it since. */
  lemma {:induction false} OwnedIffPublishedSince(s: Setting, steps: seq<Step>, uid: string, version: string)
    requires Lawful(s.cmp)
    ensures IsOwnedBy(Run(s, None, steps), NegotiatedName(s.group, s.resource, version), uid)
            <==> PublishedSince(s, steps, uid, version)
    decreases |steps|
  {
    if steps != [] {
      var init, last := steps[..|steps| - 1], steps[|steps| - 1];
      assert steps == init + [last];
      OwnedIffPublishedSince(s, init, uid, version);
      RunsKeepVersions(s, None, init);
      RunOneMore(s, None, init, last);
      PublishedSinceNext(s, init, last, uid, version);
      if last.PublishStep? {
        OwnedAfterPublish(s, Run(s, None, init), last, uid, version);
      } else {
        OwnedAfterCleanup(s, Run(s, None, init), last, uid, version);
      }
    }
  }

  /** Main result: after any run, a version survives the cleanup for a negotiated
      resource of its name if and only if that resource was not published since the
      last cleanup that disowned it. */
  lemma VersionSurvivesRunIff(s: Setting, steps: seq<Step>, uid: string, version: string)
    requires Lawful(s.cmp) && HasVersion(Run(s, None, steps), version)
    ensures HasVersion(Run(s, None, steps + [CleanupStep(uid, version)]), version) <==> !PublishedSince(s, steps, uid, version)
  {
    RunsKeepVersions(s, None, steps);
    RunOneMore(s, None, steps, CleanupStep(uid, version));
    VersionSurvivesIff(s, Run(s, None, steps).value, uid, version);
    OwnedIffPublishedSince(s, steps, uid, version);
  }

  /** Publishing the only version of a CRD again, for a new negotiated resource. */
  lemma PublishAgain(s: Setting, first: string, second: string, version: string, schema: string)
    requires Lawful(s.cmp) && first != second
    ensures var name := NegotiatedName(s.group, s.resource, version);
            var c := Crd([Version(version, true, schema)], [Owner(name, first, true)]);
            Next(s, Some(c), PublishStep(second, version, schema))
            == Some(Crd([Version(version, true, schema)], [Owner(name, first, true), Owner(name, second, true)]))
  {
    var name := NegotiatedName(s.group, s.resource, version);
    var v := Version(version, true, schema);
    var vs, os := [v], [Owner(name, first, true)];
    assert os[0] in os;
    assert !Greater(s.cmp, version, version);
    assert IsLatest(s.cmp, vs, version);
    assert LastNamed(vs, version) == Some(0) && LastStorage(vs) == Some(0);
    assert PublishedVersions(s.cmp, vs, version, schema) == vs;
    assert PublishedOwners(os, name, second) == [Owner(name, first, true), Owner(name, second, true)];
  }

  /** A negotiated resource that was deleted and made again loses its version when
      the late cleanup after the first one comes: only the uid of the deleted
      one is looked for among the owners, not the uid of the one that took its
      place. */
  lemma LateCleanupRemovesNewVersion(s: Setting, first: string, second: string, version: string, schema: string)
    requires Lawful(s.cmp) && first != second
    ensures var steps := [PublishStep(first, version, schema), PublishStep(second, version, schema)];
            && Run(s, None, steps).Some?
            && Run(s, None, steps + [CleanupStep(first, version)]) == None
  {
    var name := NegotiatedName(s.group, s.resource, version);
    var c := Crd([Version(version, true, schema)], [Owner(name, first, true), Owner(name, second, true)]);
    var p1, p2, q := PublishStep(first, version, schema), PublishStep(second, version, schema), CleanupStep(first, version);
    PublishAgain(s, first, second, version, schema);
    assert Next(s, Some(c), q) == None by {
      assert IsOwner(c.owners[0], name, first) && c.owners[0] in c.owners;
      assert c.versions[0].name == version && c.versions[0] in c.versions;
      assert CleansUp(c, name, first, version);
      assert c.versions[..0] == [];
      assert VersionsWithout(c.versions, version) == VersionsWithout([], version) == [];
    }
    RunOneMore(s, None, [], p1);
    RunOneMore(s, None, [p1], p2);
    RunOneMore(s, None, [p1, p2], q);
    assert [] + [p1] == [p1] && [p1] + [p2] == [p1, p2];
  }

  /** Publishing a greater version beside the only one. */
  lemma PublishGreater(s: Setting, uid: string, uid': string, older: string, newer: string, schema: string)
    requires older != newer && !Greater(s.cmp, older, newer)
    ensures var owner := Owner(NegotiatedName(s.group, s.resource, older), uid, true);
            Next(s, Some(Crd([Version(older, true, schema)], [owner])), PublishStep(uid', newer, schema))
            == Some(Crd([Version(older, false, schema), Version(newer, true, schema)],
                        [owner, Owner(NegotiatedName(s.group, s.resource, newer), uid', true)]))
  {
    NegotiatedNamesDiffer(s.group, s.resource, older, newer);
    var owner := Owner(NegotiatedName(s.group, s.resource, older), uid, true);
    var vs := [Version(older, true, schema)];
    var os := [owner];
    assert os[0] in os && !IsManual(Crd(vs, os));
    assert IsLatest(s.cmp, vs, newer);
    LastNamedIs(vs, newer);
    assert vs[0].name == older && LastNamed(vs, newer).None?;
    assert LastStorage(vs) == Some(0);
    assert PublishedVersions(s.cmp, vs, newer, schema) == [Version(older, false, schema), Version(newer, true, schema)];
    assert PublishedOwners(os, NegotiatedName(s.group, s.resource, newer), uid')
        == [owner, Owner(NegotiatedName(s.group, s.resource, newer), uid', true)];
  }

  lemma WithoutLast(vs: seq<Version>, v: Version, os: seq<Owner>, o: Owner, name: string, uid: string)
    ensures VersionsWithout(vs + [v], v.name) == VersionsWithout(vs, v.name)
    ensures IsOwner(o, name, uid) ==> OwnersWithout(os + [o], name, uid) == OwnersWithout(os, name, uid)
  {
    assert (vs + [v])[..|vs|] == vs && (os + [o])[..|os|] == os;
  }

  lemma WithoutOther(v: Version, o: Owner, version: string, name: string, uid: string)
    requires v.name != version && o.name != name
    ensures VersionsWithout([v], version) == [v] && OwnersWithout([o], name, uid) == [o]
  {
    assert [v][..0] == [] && [o][..0] == [];
    assert VersionsWithout([], version) == [] && OwnersWithout([], name, uid) == [];
  }

  /** Cleaning up after the greater one. */
  lemma CleanupGreater(s: Setting, v: Version, v': Version, o: Owner, o': Owner)
    requires v.name != v'.name && o.name != o'.name && o'.name == NegotiatedName(s.group, s.resource, v'.name)
    ensures Next(s, Some(Crd([v] + [v'], [o] + [o'])), CleanupStep(o'.uid, v'.name)) == Some(Crd([v], [o]))
  {
    var c := Crd([v] + [v'], [o] + [o']);
    assert c.versions[1] == v' && c.owners[1] == o';
    assert CleansUp(c, o'.name, o'.uid, v'.name) by {
      assert c.versions[1] in c.versions && c.owners[1] in c.owners;
    }
    WithoutLast([v], v', [o], o', o'.name, o'.uid);
    WithoutOther(v, o, v'.name, o'.name, o'.uid);
  }

  /** Nothing is promoted: when the storage version goes, the older one that is left
      is not made the storage version again. */
  lemma CleanupLeavesNoStorage(s: Setting, uid: string, uid': string, older: string, newer: string, schema: string)
    requires older != newer && !Greater(s.cmp, older, newer)
    ensures var owner := Owner(NegotiatedName(s.group, s.resource, older), uid, true);
            Run(s, None, [PublishStep(uid, older, schema), PublishStep(uid', newer, schema), CleanupStep(uid', newer)])
            == Some(Crd([Version(older, false, schema)], [owner]))
  {
    var owner := Owner(NegotiatedName(s.group, s.resource, older), uid, true);
    var steps := [PublishStep(uid, older, schema), PublishStep(uid', newer, schema), CleanupStep(uid', newer)];
    NegotiatedNamesDiffer(s.group, s.resource, older, newer);
    PublishGreater(s, uid, uid', older, newer, schema);
    var owner' := Owner(NegotiatedName(s.group, s.resource, newer), uid', true);
    CleanupGreater(s, Version(older, false, schema), Version(newer, true, schema), owner, owner');
    var v, v' := Version(older, false, schema), Version(newer, true, schema);
    assert [owner, owner'] == [owner] + [owner'] && [v, v'] == [v] + [v'];
    assert Next(s, Next(s, Next(s, None, steps[0]), steps[1]), steps[2]) == Some(Crd([v], [owner]));
    RunOneMore(s, None, steps[..2], steps[2]);
    RunOneMore(s, None, steps[..1], steps[1]);
    RunOneMore(s, None, [], steps[0]);
    assert steps[..2] + [steps[2]] == steps && steps[..1] + [steps[1]] == steps[..2] && [] + [steps[0]] == steps[..1];
  }
}
