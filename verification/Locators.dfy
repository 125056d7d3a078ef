/** Namespace locators, their v0.6.0 form, and the index that finds a downstream
    namespace by its locator (pkg/syncer/shared/namespace.go,
    pkg/syncer/indexers/indexes.go). */
module Locators {
  import opened Wrappers

  datatype SyncTargetLocator = SyncTargetLocator(clusterName: string, deprecatedPath: string, name: string, uid: string)

  datatype Locator = Locator(syncTarget: SyncTargetLocator, clusterName: string, ns: string)

  function NewLocator(workspace: string, targetCluster: string, targetUid: string, targetName: string, ns: string): Locator {
    Locator(SyncTargetLocator(targetCluster, "", targetName, targetUid), workspace, ns)
  }

  function NewLocatorV060(workspace: string, targetCluster: string, targetUid: string, targetName: string, ns: string): Locator {
    Locator(SyncTargetLocator("", targetCluster, targetName, targetUid), workspace, ns)
  }

  /** Reading a locator moves the v0.6.0 path into the cluster name. */
  function Normalise(l: Locator): Locator {
    var st := l.syncTarget;
    l.(syncTarget := st.(clusterName := if st.clusterName == "" then st.deprecatedPath else st.clusterName,
                         deprecatedPath := ""))
  }

  predicate IsNormal(l: Locator) {
    l.syncTarget.deprecatedPath == ""
  }

  /** JSON encoding of locators, kept abstract. */
  datatype Codec = Codec(encode: Locator -> string, decode: string -> Option<Locator>)

  /** What is assumed of the encoding: decoding recovers what was encoded. */
  ghost predicate Lawful(c: Codec) {
    forall l :: c.decode(c.encode(l)) == Some(l)
  }

  datatype Decoded = NoLocator | Corrupt | Found(locator: Locator)

  function LocatorFromAnnotation(c: Codec, annotation: Option<string>): Decoded {
    match annotation
    case None => NoLocator
    case Some(text) =>
      match c.decode(text)
      case None => Corrupt
      case Some(l) => Found(Normalise(l))
  }

  /** A downstream namespace: its locator annotation, its tenant label, and
      whether it carries the label that the syncer's informers select on. */
  datatype Namespace = Namespace(annotation: Option<string>, tenant: Option<string>, watched: bool)

  type Namespaces = map<string, Namespace>

  function LocatorOf(c: Codec, ns: Namespace): Decoded {
    LocatorFromAnnotation(c, ns.annotation)
  }

  /** The index key of a namespace: its normalised locator, encoded again. */
  function IndexKey(c: Codec, ns: Namespace): Option<string> {
    match LocatorOf(c, ns)
    case Found(l) => Some(c.encode(l))
    case _ => None
  }

  function ByIndex(c: Codec, namespaces: Namespaces, key: string): set<string> {
    set n | n in namespaces && namespaces[n].watched && IndexKey(c, namespaces[n]) == Some(key)
  }

  function ByScan(c: Codec, namespaces: Namespaces, l: Locator): set<string> {
    set n | n in namespaces && namespaces[n].watched && LocatorOf(c, namespaces[n]) == Found(l)
  }

  lemma EncodeInjective(c: Codec, a: Locator, b: Locator)
    requires Lawful(c)
    ensures c.encode(a) == c.encode(b) <==> a == b
  {
    assert c.decode(c.encode(a)) == Some(a);
    assert c.decode(c.encode(b)) == Some(b);
  }

  /** Reading a locator again changes nothing; it moves a path to the cluster name
      where that is missing, and drops it elsewhere. */
  lemma NormaliseIdempotent(l: Locator)
    ensures IsNormal(Normalise(l)) && Normalise(Normalise(l)) == Normalise(l)
    ensures Normalise(l) == l <==> IsNormal(l)
    ensures var st, read := l.syncTarget, Normalise(l).syncTarget;
            && read.clusterName == (if st.clusterName != "" then st.clusterName else st.deprecatedPath)
            && read.name == st.name && read.uid == st.uid && Normalise(l).clusterName == l.clusterName && Normalise(l).ns == l.ns
  {
  }

  /** Both annotation formats of one upstream namespace decode to the locator
      that the spec step asks for. */
  lemma FormatsAgree(c: Codec, workspace: string, targetCluster: string, targetUid: string, targetName: string, ns: string)
    requires Lawful(c)
    ensures var desired := NewLocator(workspace, targetCluster, targetUid, targetName, ns);
            var v060 := NewLocatorV060(workspace, targetCluster, targetUid, targetName, ns);
            && IsNormal(desired)
            && LocatorFromAnnotation(c, Some(c.encode(desired))) == Found(desired)
            && LocatorFromAnnotation(c, Some(c.encode(v060))) == Found(desired)
  {
    var desired := NewLocator(workspace, targetCluster, targetUid, targetName, ns);
    var v060 := NewLocatorV060(workspace, targetCluster, targetUid, targetName, ns);
    assert c.decode(c.encode(desired)) == Some(desired);
    assert c.decode(c.encode(v060)) == Some(v060);
  }

  /** Main result: looking up an encoded locator finds the namespaces that a scan
      would find, in either annotation format; and a locator that is still in
      the old form is never found. */
  lemma IndexIsScan(c: Codec, namespaces: Namespaces, l: Locator)
    requires Lawful(c)
    ensures ByIndex(c, namespaces, c.encode(l)) == ByScan(c, namespaces, l)
    ensures forall n | n in ByIndex(c, namespaces, c.encode(l)) :: namespaces[n].watched
    ensures !IsNormal(l) ==> ByIndex(c, namespaces, c.encode(l)) == {}
  {
    forall n | n in namespaces
      ensures IndexKey(c, namespaces[n]) == Some(c.encode(l)) <==> LocatorOf(c, namespaces[n]) == Found(l)
    {
      if LocatorOf(c, namespaces[n]).Found? {
        EncodeInjective(c, LocatorOf(c, namespaces[n]).locator, l);
      }
    }
  }
}
