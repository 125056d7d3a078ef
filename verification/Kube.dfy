/** Kubernetes objects as the syncer sees them. Annotation keys, label keys and
    finalizers that the source builds from a prefix and a sync target key are
    constructors applied to that key. */
module Kube {
  import opened Wrappers
  import opened Json

  type Target = string

  datatype Gvr = Gvr(group: string, version: string, resource: string)

  const CONFIG_MAPS := Gvr("", "v1", "configmaps")
  const SECRETS := Gvr("", "v1", "secrets")
  const DEPLOYMENTS := Gvr("apps", "v1", "deployments")

  /** The key of an upstream object; only namespaced objects are modelled. */
  datatype AnyUpKey = UpKey(gvr: Gvr, cluster: string, ns: string, name: string)
  type UpKey = k: AnyUpKey | k.ns != "" witness UpKey(CONFIG_MAPS, "root", "default", "a")

  datatype DownKey = DownKey(gvr: Gvr, ns: string, name: string)

  datatype Finalizer = SyncerFinalizer(target: Target) | OtherFinalizer(name: string)

  datatype Annotation =
    | DeletionAnn(target: Target)
    | SoftFinalizerAnn(target: Target)
    | StatusAnn(target: Target)
    | SpecDiffAnn(target: Target)
    | ClusterAnn
    | ServiceAccountAnn
    | OtherAnn(name: string)

  datatype Label = StateLabel(target: Target) | DownstreamLabel | OtherLabel(name: string)

  datatype MetaField = Uid | ResourceVersion | ManagedFields | OwnerReferences | GracePeriod | OtherMeta(name: string)

  type Annotations = map<Annotation, string>
  type Labels = map<Label, string>

  /** `content` holds the top-level fields other than metadata. */
  datatype KubeObject = KubeObject(
    finalizers: seq<Finalizer>,
    labels: Labels,
    annotations: Annotations,
    deleting: bool,
    meta: map<MetaField, Json>,
    content: Members)

  type Upstream = map<UpKey, KubeObject>

  /** A map read the way Go reads one: a missing key gives the empty string. */
  function Read<K>(m: map<K, string>, k: K): string {
    if k in m then m[k] else ""
  }

  /** Storing an object: one that is marked deleted and has no finalizer left
      leaves the store. */
  function Put(up: Upstream, u: UpKey, o: KubeObject): Upstream {
    if o.deleting && o.finalizers == [] then up - {u} else up[u := o]
  }

  /** An update made from a copy read earlier succeeds only while the stored
      object is still that copy. */
  function Update(up: Upstream, u: UpKey, read: KubeObject, o: KubeObject): Upstream {
    if u in up && up[u] == read then Put(up, u, o) else up
  }

  function RequestDeletion(up: Upstream, u: UpKey): Upstream
    requires u in up
  {
    Put(up, u, up[u].(deleting := true))
  }

  const SYNC := "Sync"
  const UPSYNC := "Upsync"

  /** What the syncer of a target reads of an upstream object: only objects whose
      state label for that target is Sync are served to it. */
  function View(up: Upstream, t: Target, u: UpKey): Option<KubeObject> {
    if u in up && Read(up[u].labels, StateLabel(t)) == SYNC then Some(up[u]) else None
  }
}
