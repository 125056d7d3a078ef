/** The worker that follows upstream namespaces, next to everybody else who plans and
    cancels cleaning: which keys are planned, over all runs
    (pkg/syncer/namespace/namespace_downstream_process.go). */
module NamespaceWorker {
  import opened Wrappers
  import opened Locators
  import opened NamespaceCleaner
  import opened NamespaceController

  /** The cleaner, the downstream namespaces, and the upstream namespaces that exist,
      by cluster and name. */
  datatype Scene = Scene(cleaner: Cleaner, namespaces: map<string, View>, upstream: set<(string, string)>)

  /** A turn of the worker for a key (`known` says that the lister answers), a step of
      the cleaner, or a change of namespaces. */
  datatype Act =
    | WorkerTurn(key: string, dnsUpdated: bool, known: bool)
    | Machine(step: Step)
    | ChangeDownstream(namespaces: map<string, View>)
    | ChangeUpstream(upstream: set<(string, string)>)

  /** Which downstream namespaces the syncer of this target follows. */
  datatype Setting = Setting(codec: Codec, uid: string, delay: int)

  function ViewOf(s: Scene, key: string): Option<View> {
    if key in s.namespaces then Some(s.namespaces[key]) else None
  }

  function ListerOf(s: Scene, known: bool): Lister {
    (cluster, ns) => if known then Some((cluster, ns) in s.upstream) else None
  }

  function LearnedBy(t: Setting, s: Scene, act: Act): Option<bool>
    requires act.WorkerTurn?
  {
    Learned(t.codec, t.uid, ViewOf(s, act.key), act.dnsUpdated, ListerOf(s, act.known))
  }

  predicate CanDo(s: Scene, act: Act) {
    act.Machine? ==> Enabled(s.cleaner, act.step)
  }

  function Done(t: Setting, s: Scene, act: Act): Scene
    requires CanDo(s, act)
  {
    match act
    case WorkerTurn(key, _, _) => s.(cleaner := Turn(t.delay, s.cleaner, key, LearnedBy(t, s, act)))
    case Machine(step) => s.(cleaner := Next(t.delay, s.cleaner, step))
    case ChangeDownstream(namespaces) => s.(namespaces := namespaces)
    case ChangeUpstream(upstream) => s.(upstream := upstream)
  }

  predicate Leads(t: Setting, s: Scene, act: Act, s': Scene) {
    CanDo(s, act) && s' == Done(t, s, act)
  }

  ghost predicate IsRun(t: Setting, scenes: seq<Scene>, acts: seq<Act>) {
    && |scenes| == |acts| + 1 && scenes[0].cleaner == INITIAL
    && forall i | 0 <= i < |acts| :: Leads(t, scenes[i], acts[i], scenes[i + 1])
  }

  /** The worker sees a live namespace of its sync target whose upstream namespace
      does not exist at that moment. */
  predicate FindsOrphan(t: Setting, s: Scene, act: Act, key: string) {
    && act.WorkerTurn? && act.key == key && act.dnsUpdated && act.known
    && key in s.namespaces && !s.namespaces[key].deleting && s.namespaces[key].annotation != ""
    && t.codec.decode(s.namespaces[key].annotation).Some?
    && var l := t.codec.decode(s.namespaces[key].annotation).value; l.syncTarget.uid == t.uid && (l.clusterName, l.ns) !in s.upstream
  }

  /** The same, of an upstream namespace that exists. */
  predicate FindsInUse(t: Setting, s: Scene, act: Act, key: string) {
    && act.WorkerTurn? && act.key == key && act.dnsUpdated && act.known
    && key in s.namespaces && !s.namespaces[key].deleting && s.namespaces[key].annotation != ""
    && t.codec.decode(s.namespaces[key].annotation).Some?
    && var l := t.codec.decode(s.namespaces[key].annotation).value; l.syncTarget.uid == t.uid && (l.clusterName, l.ns) in s.upstream
  }

  /** The key is to be cleaned: the worker finds an orphan, or somebody else plans. */
  predicate Condemns(t: Setting, s: Scene, act: Act, key: string) {
    FindsOrphan(t, s, act, key) || act == Machine(Plan(key))
  }

  /** The key is not to be cleaned any more: the worker finds it in use, somebody else
      cancels, or a firing has ended. */
  predicate Spares(t: Setting, s: Scene, act: Act, key: string) {
    FindsInUse(t, s, act, key) || act == Machine(Cancel(key)) || act == Machine(Finish(key))
  }

  lemma StepDecides(delay: int, c: Cleaner, step: Step, key: string)
    requires Enabled(c, step)
    ensures key in Next(delay, c, step).toDelete
            <==> step == Plan(key) || (key in c.toDelete && step != Cancel(key) && step != Finish(key))
  {
  }

  lemma TurnDecides(t: Setting, s: Scene, act: Act, key: string)
    requires act.WorkerTurn?
    ensures FindsOrphan(t, s, act, key) <==> act.key == key && LearnedBy(t, s, act) == Some(false)
    ensures FindsInUse(t, s, act, key) <==> act.key == key && LearnedBy(t, s, act) == Some(true)
  {
  }

  lemma ActDecides(t: Setting, s: Scene, act: Act, key: string)
    requires CanDo(s, act)
    ensures key in Done(t, s, act).cleaner.toDelete
            <==> Condemns(t, s, act, key) || (key in s.cleaner.toDelete && !Spares(t, s, act, key))
  {
    if act.WorkerTurn? {
      TurnDecides(t, s, act, key);
    } else if act.Machine? {
      StepDecides(t.delay, s.cleaner, act.step, key);
    }
  }

  /** The last act before `i` that decided about the key condemned it. */
  ghost predicate Condemned(t: Setting, scenes: seq<Scene>, acts: seq<Act>, key: string, i: nat)
    requires i <= |acts| < |scenes|
  {
    exists j | 0 <= j < i :: Condemns(t, scenes[j], acts[j], key) && forall m | j < m < i :: !Spares(t, scenes[m], acts[m], key)
  }

  lemma CondemnedNext(t: Setting, scenes: seq<Scene>, acts: seq<Act>, key: string, i: nat)
    requires i < |acts| < |scenes|
    ensures Condemned(t, scenes, acts, key, i + 1)
            <==> Condemns(t, scenes[i], acts[i], key)
                 || (Condemned(t, scenes, acts, key, i) && !Spares(t, scenes[i], acts[i], key))
  {
    if Condemned(t, scenes, acts, key, i) && !Spares(t, scenes[i], acts[i], key) {
      var j :| 0 <= j < i && Condemns(t, scenes[j], acts[j], key) && forall m | j < m < i :: !Spares(t, scenes[m], acts[m], key);
      assert forall m | j < m < i + 1 :: !Spares(t, scenes[m], acts[m], key);
    }
  }

  /** Main result: over every run of the worker, the cleaner and changes of
      namespaces, a key is planned if and only if the last act that decided about
      it condemned it; for the worker that is a turn at which the upstream namespace
      did not exist. */
  lemma {:induction false} PlannedIffCondemned(t: Setting, scenes: seq<Scene>, acts: seq<Act>, key: string, i: nat)
    requires IsRun(t, scenes, acts) && i <= |acts|
    ensures key in scenes[i].cleaner.toDelete <==> Condemned(t, scenes, acts, key, i)
    decreases i
  {
    if i > 0 {
      PlannedIffCondemned(t, scenes, acts, key, i - 1);
      assert Leads(t, scenes[i - 1], acts[i - 1], scenes[i - 1 + 1]);
      ActDecides(t, scenes[i - 1], acts[i - 1], key);
      CondemnedNext(t, scenes, acts, key, i - 1);
    }
  }

  /** The cleaner is concerned with the key in any way. */
  predicate Touches(c: Cleaner, key: string) {
    key in c.toDelete || key in c.waiting || key in c.ready || key in c.working
  }

  lemma StepTouches(delay: int, c: Cleaner, step: Step, key: string)
    requires Enabled(c, step) && !Touches(c, key) && Touches(Next(delay, c, step), key)
    ensures step == Plan(key)
  {
  }

  lemma ActTouches(t: Setting, s: Scene, act: Act, key: string)
    requires CanDo(s, act) && !Touches(s.cleaner, key) && Touches(Done(t, s, act).cleaner, key)
    ensures Condemns(t, s, act, key)
  {
    if act.WorkerTurn? {
      TurnDecides(t, s, act, key);
    } else if act.Machine? {
      StepTouches(t.delay, s.cleaner, act.step, key);
    }
  }

  lemma {:induction false} TouchedWasOrphan(t: Setting, scenes: seq<Scene>, acts: seq<Act>, key: string, i: nat)
    requires IsRun(t, scenes, acts) && i <= |acts| && Machine(Plan(key)) !in acts && Touches(scenes[i].cleaner, key)
    ensures exists j | 0 <= j < i :: FindsOrphan(t, scenes[j], acts[j], key)
    decreases i
  {
    if i > 0 {
      assert Leads(t, scenes[i - 1], acts[i - 1], scenes[i - 1 + 1]);
      if Touches(scenes[i - 1].cleaner, key) {
        TouchedWasOrphan(t, scenes, acts, key, i - 1);
      } else {
        assert acts[i - 1] in acts;
        ActTouches(t, scenes[i - 1], acts[i - 1], key);
      }
    }
  }

  /** Main result: where nobody but the worker plans a key, its namespace is deleted
      only after a turn that found it live while its upstream namespace was gone. */
  lemma DeletedWasOrphan(t: Setting, scenes: seq<Scene>, acts: seq<Act>, key: string, i: nat)
    requires IsRun(t, scenes, acts) && i < |acts| && Machine(Plan(key)) !in acts
    requires acts[i] == Machine(Delete(key, Gone))
    ensures exists j | 0 <= j < i :: FindsOrphan(t, scenes[j], acts[j], key)
  {
    assert Leads(t, scenes[i], acts[i], scenes[i + 1]);
    TouchedWasOrphan(t, scenes, acts, key, i);
  }
}
