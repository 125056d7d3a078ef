/** One step of the spec controller and one of the status controller, over the
    upstream store and one downstream cluster per sync target
    (pkg/syncer/spec/spec_process.go, pkg/syncer/status/status_process.go). */
module Syncer {
  import opened Wrappers
  import opened Json
  import opened Kube
  import opened Naming
  import opened Locators
  import opened Finalizers

  const SYNCER_ID_PREFIX := "kcp-syncer-"

  /** The configuration of the syncer of one target. */
  datatype Conf = Conf(target: Target, clusterName: string, uid: string, name: string, advanced: bool)

  /** Code outside the model: locator encoding, the hashes behind namespace names
      and tenant labels, mutators, JSON patches and JSON text. */
  datatype Deps = Deps(
    codec: Codec,
    namespaceName: Locator -> string,
    tenantId: Locator -> string,
    mutate: (Gvr, KubeObject) -> Option<KubeObject>,
    patchSpec: (string, Json) -> Option<Json>,
    jsonText: Json -> string)

  /** An object of a downstream cluster: a copy that a syncer applied, or something
      nobody synced. `origin` is bookkeeping of the model: the upstream object the
      copy was made from. No step reads it. */
  datatype DownObject =
    | Unmanaged(body: KubeObject, status: Option<Json>)
    | Copy(origin: UpKey, body: KubeObject, status: Option<Json>)

  /** A downstream cluster. `seen` holds every key at which there ever was an object
      that the informers list: the keys they may have queued. */
  datatype Down = Down(namespaces: Namespaces, objects: map<DownKey, DownObject>, seen: set<DownKey>)

  datatype World = World(up: Upstream, down: map<Target, Down>)

  datatype CleanerCall = PlanCleaning(ns: string) | CancelCleaning(ns: string)

  datatype Outcome = Done | RetryLater | Failed

  datatype StepResult = StepResult(world: World, outcome: Outcome, calls: seq<CleanerCall>)

  datatype Dns = DnsError | DnsNotReady | DnsReady

  /** What a step reads: the object from the lister, the object again when the
      finalizer is to be removed, and the state of the DNS server. */
  datatype Reads = Reads(first: Option<KubeObject>, again: Option<KubeObject>, dns: Dns)

  function Desired(c: Conf, u: UpKey): Locator {
    NewLocator(u.cluster, c.clusterName, c.uid, c.name, u.ns)
  }

  datatype Lookup = Absent | One(name: string) | Several

  ghost function FindNamespace(deps: Deps, namespaces: Namespaces, l: Locator): (r: Lookup)
    ensures r.Absent? <==> ByIndex(deps.codec, namespaces, deps.codec.encode(l)) == {}
    ensures forall n :: r == One(n) <==> ByIndex(deps.codec, namespaces, deps.codec.encode(l)) == {n}
  {
    var found := ByIndex(deps.codec, namespaces, deps.codec.encode(l));
    if found == {} then Absent
    else
      var n :| n in found;
      if found == {n} then One(n) else Several
  }

  /** The downstream namespace of an upstream object, unless there are several. */
  ghost function TargetNamespace(c: Conf, deps: Deps, d: Down, u: UpKey): Option<string> {
    match FindNamespace(deps, d.namespaces, Desired(c, u))
    case Absent => Some(deps.namespaceName(Desired(c, u)))
    case One(n) => Some(n)
    case Several => None
  }

  function NewNamespace(deps: Deps, l: Locator): Namespace {
    Namespace(Some(deps.codec.encode(l)), Some(deps.tenantId(l)), true)
  }

  predicate NamespaceUsable(deps: Deps, namespaces: Namespaces, n: string, l: Locator) {
    n in namespaces ==> LocatorOf(deps.codec, namespaces[n]) == Found(l)
  }

  /** Creates the namespace, or checks its locator and repairs its tenant label. */
  function EnsureNamespace(deps: Deps, d: Down, n: string, l: Locator): Down {
    if !NamespaceUsable(deps, d.namespaces, n, l) then d
    else if n !in d.namespaces then d.(namespaces := d.namespaces[n := NewNamespace(deps, l)])
    else d.(namespaces := d.namespaces[n := d.namespaces[n].(tenant := Some(deps.tenantId(l)))])
  }

  const STRIPPED: set<MetaField> := {Uid, ResourceVersion, ManagedFields, OwnerReferences, GracePeriod}

  /** The metadata that is sent downstream. */
  function Sanitised(t: Target, o: KubeObject): KubeObject {
    KubeObject([],
               (o.labels - {StateLabel(t)})[DownstreamLabel := t],
               o.annotations - {ClusterAnn, StatusAnn(t)},
               false,
               o.meta - STRIPPED,
               o.content)
  }

  predicate HasSpecDiff(c: Conf, o: KubeObject) {
    c.advanced && Read(o.annotations, SpecDiffAnn(c.target)) != "" && "spec" in o.content
  }

  /** The object to apply downstream. A spec diff is applied to the upstream
      spec, and its result replaces whatever the mutator made of the spec. */
  function Downstream(c: Conf, deps: Deps, gvr: Gvr, o: KubeObject): Option<KubeObject> {
    match deps.mutate(gvr, o)
    case None => None
    case Some(mutated) =>
      var sent := Sanitised(c.target, mutated);
      if !HasSpecDiff(c, o) then Some(sent)
      else
        match deps.patchSpec(o.annotations[SpecDiffAnn(c.target)], o.content["spec"])
        case None => None
        case Some(spec) =>
          if spec.Object? || spec.Null? then Some(sent.(content := sent.content["spec" := spec])) else None
  }

  /** A server-side apply: everything but the status, which the API server takes
      from status writers only. */
  function Apply(d: Down, k: DownKey, u: UpKey, sent: KubeObject): Down {
    var status := if k in d.objects then d.objects[k].status else None;
    d.(objects := d.objects[k := Copy(u, sent.(content := sent.content - {"status"}), status)],
       seen := d.seen + {k})
  }

  function CopyKey(u: UpKey, n: string, o: KubeObject): DownKey {
    DownKey(u.gvr, n, TransformedName(u.gvr, u.name, o.annotations))
  }

  function Remove(d: Down, k: DownKey): Down {
    d.(objects := d.objects - {k})
  }

  function SetDown(w: World, t: Target, d: Down): World {
    w.(down := w.down[t := d])
  }

  /** Everything after the finalizer is in place, in namespace `n`. */
  function ApplyToDownstream(c: Conf, deps: Deps, w: World, u: UpKey, n: string, o: KubeObject, again: Option<KubeObject>)
    : StepResult
    requires c.target in w.down
  {
    var d := w.down[c.target];
    var k := CopyKey(u, n, o);
    if ToBeRemoved(o, c.target) then
      if k in d.objects then
        StepResult(SetDown(w, c.target, Remove(d, k)), Done, [PlanCleaning(n)])
      else
        var up := EnsureReleased(w.up, u, c.target, again);
        StepResult(w.(up := up), if Conflicts(w.up, u, c.target, again) then Failed else Done, [])
    else
      match Downstream(c, deps, u.gvr, o)
      case None => StepResult(w, Failed, [])
      case Some(sent) => StepResult(SetDown(w, c.target, Apply(d, k, u, sent)), Done, [])
  }

  /** The update of a release is refused because the stored object moved on. */
  predicate Conflicts(up: Upstream, u: UpKey, t: Target, read: Option<KubeObject>) {
    read.Some? && IntendedForRemoval(read.value, t) && !(u in up && up[u] == read.value)
  }

  /** The spec step on an object it read, in namespace `n` that it ensured. */
  function SyncObject(c: Conf, deps: Deps, w: World, u: UpKey, n: string, o: KubeObject, input: Reads): StepResult
    requires c.target in w.down
  {
    if input.dns.DnsError? then StepResult(w, Failed, [])
    else if input.dns.DnsNotReady? && u.gvr == DEPLOYMENTS then StepResult(w, RetryLater, [])
    else if NeedsClaim(o, c.target) then
      StepResult(w.(up := Update(w.up, u, o, Claimed(o, c.target))),
                 if u in w.up && w.up[u] == o then Done else Failed, [])
    else ApplyToDownstream(c, deps, w, u, n, o, input.again)
  }

  /** One step of the spec controller. */
  ghost function SpecStep(c: Conf, deps: Deps, w: World, u: UpKey, input: Reads): StepResult
    requires c.target in w.down
  {
    var d := w.down[c.target];
    match TargetNamespace(c, deps, d, u)
    case None => StepResult(w, Failed, [])
    case Some(n) =>
      match input.first
      case None =>
        // deleted upstream: the name is used as it is upstream
        StepResult(SetDown(w, c.target, Remove(d, DownKey(u.gvr, n, u.name))), Done, [PlanCleaning(n)])
      case Some(o) =>
        if !NamespaceUsable(deps, d.namespaces, n, Desired(c, u)) then StepResult(w, Failed, [CancelCleaning(n)])
        else
          var ensured := SetDown(w, c.target, EnsureNamespace(deps, d, n, Desired(c, u)));
          var r := SyncObject(c, deps, ensured, u, n, o, input);
          r.(calls := [CancelCleaning(n)] + r.calls)
  }

  /** The locator belongs to the sync target of this syncer. */
  predicate Ours(c: Conf, l: Locator) {
    l.syncTarget.uid == c.uid && l.syncTarget.clusterName == c.clusterName
  }

  /** Where the status controller and the delete handler look for the upstream
      object of a downstream key. */
  function WayBack(c: Conf, deps: Deps, d: Down, k: DownKey): Option<UpKey> {
    if SYNCER_ID_PREFIX <= k.ns || k.ns !in d.namespaces || !d.namespaces[k.ns].watched then None
    else
      match LocatorOf(deps.codec, d.namespaces[k.ns])
      case Found(l) =>
        if Ours(c, l) && l.ns != "" then Some(UpKey(k.gvr, l.clusterName, l.ns, UpstreamName(k.gvr, k.name))) else None
      case _ => None
  }

  /** The downstream delete handler for an object with the given body: it plans the
      cleaning of the namespace and queues the upstream key, from the annotation as
      it is written, unless the object was in Upsync mode. */
  function DeleteHandler(c: Conf, deps: Deps, d: Down, k: DownKey, body: KubeObject): (Option<UpKey>, seq<CleanerCall>) {
    if Read(body.labels, StateLabel(c.target)) == UPSYNC then (None, [])
    else if k.ns !in d.namespaces || !d.namespaces[k.ns].watched then (None, [])
    else
      var queued :=
        match d.namespaces[k.ns].annotation
        case None => None
        case Some(text) =>
          match deps.codec.decode(text)
          case None => None
          case Some(l) => if l.ns != "" then Some(UpKey(k.gvr, l.clusterName, l.ns, UpstreamName(k.gvr, k.name))) else None;
      (queued, [PlanCleaning(k.ns)])
  }

  /** The informers of a syncer list only objects with the label that it puts on its
      copies. */
  predicate HasLabel(t: Target, body: KubeObject) {
    DownstreamLabel in body.labels && body.labels[DownstreamLabel] == t
  }

  predicate IsListed(t: Target, d: Down, k: DownKey) {
    k in d.objects && HasLabel(t, d.objects[k].body)
  }

  function WithStatus(c: Conf, deps: Deps, o: KubeObject, status: Json): KubeObject {
    if c.advanced
    then o.(annotations := o.annotations[StatusAnn(c.target) := deps.jsonText(status)])
    else o.(content := o.content["status" := status])
  }

  /** One step of the status controller. */
  function StatusStep(c: Conf, deps: Deps, w: World, k: DownKey, read: Option<KubeObject>): StepResult
    requires c.target in w.down
  {
    var d := w.down[c.target];
    match WayBack(c, deps, d, k)
    case None => StepResult(w, Done, [])
    case Some(u) =>
      if !IsListed(c.target, d, k) then
        var up := EnsureReleased(w.up, u, c.target, read);
        StepResult(w.(up := up), if Conflicts(w.up, u, c.target, read) then Failed else Done, [])
      else
        var copy := d.objects[k];
        if Read(copy.body.labels, StateLabel(c.target)) == UPSYNC || copy.status.None? then StepResult(w, Done, [])
        else if read.None? then StepResult(w, Failed, [])
        else
          var o := WithStatus(c, deps, read.value, copy.status.value);
          if c.advanced && o == read.value then StepResult(w, Done, [])
          else
            StepResult(w.(up := Update(w.up, u, read.value, o)),
                       if u in w.up && w.up[u] == read.value then Done else Failed, [])
  }

  /** The reads of a step whose listers are up to date. */
  function FreshReads(w: World, t: Target, u: UpKey, dns: Dns): Reads {
    Reads(View(w.up, t, u), View(w.up, t, u), dns)
  }
}
