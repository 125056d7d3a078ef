/** Delayed cleaning of downstream namespaces
    (pkg/syncer/namespace/namespace_downstream_controller.go): every interleaving
    of planning, cancelling and the phases of a firing, over time. */
module NamespaceCleaner {

  /** What happened, in order. A Planned event is a plan that took effect, an
      Ignored event one that did not; FoundMissing is a deletion that came after
      somebody else's. */
  datatype Event =
    | Planned(key: string, at: int)
    | Ignored(key: string, at: int)
    | Cancelled(key: string, at: int)
    | FoundPlanned(key: string, at: int)
    | FoundEmpty(key: string, at: int)
    | FoundFull(key: string, at: int)
    | FoundMissing(key: string, at: int)
    | Deleted(key: string, at: int)

  datatype Phase = Checked | SeenEmpty | Cleaned

  /** A firing in progress; `check` and `probe` are the positions of its events. */
  datatype Firing = Firing(phase: Phase, check: nat, probe: nat)

  /** The map of planned times, and the delayed queue: keys that wait for a time,
      keys that are ready, and firings in progress. The log is bookkeeping. */
  datatype Cleaner = Cleaner(
    now: int,
    toDelete: map<string, int>,
    waiting: map<string, int>,
    ready: set<string>,
    working: map<string, Firing>,
    log: seq<Event>)

  datatype ProbeResult = Empty | NotEmpty | ProbeFailed(backoff: int)
  datatype DeleteResult = Gone | NotFound | DeleteFailed(backoff: int)

  datatype Step =
    | Wait(until: int)
    | Plan(key: string)
    | Cancel(key: string)
    | BecomeReady(key: string)
    | Take(key: string)
    | Probe(key: string, found: ProbeResult)
    | Delete(key: string, result: DeleteResult)
    | Finish(key: string)

  // ----- the operations -----

  /** Queueing a key after a delay: a key that is already waiting keeps the
      earlier of the two times. */
  function AddAfter(waiting: map<string, int>, key: string, at: int): map<string, int> {
    if key in waiting && waiting[key] <= at then waiting else waiting[key := at]
  }

  function Enqueue(c: Cleaner, key: string, after: int): Cleaner {
    if after <= 0 then c.(ready := c.ready + {key})
    else c.(waiting := AddAfter(c.waiting, key, c.now + after))
  }

  function Logged(c: Cleaner, e: Event): Cleaner {
    c.(log := c.log + [e])
  }

  predicate PlanTakesEffect(c: Cleaner, key: string) {
    key !in c.toDelete || c.now > c.toDelete[key]
  }

  function PlanCleaning(delay: int, c: Cleaner, key: string): Cleaner {
    if PlanTakesEffect(c, key)
    then Logged(Enqueue(c.(toDelete := c.toDelete[key := c.now + delay]), key, delay), Planned(key, c.now))
    else Logged(c, Ignored(key, c.now))
  }

  function CancelCleaning(c: Cleaner, key: string): Cleaner {
    Logged(c.(toDelete := c.toDelete - {key}), Cancelled(key, c.now))
  }

  /** The first thing a firing does: it looks for the key in the map, but not at
      the time the key is planned for. */
  function TakeKey(c: Cleaner, key: string): Cleaner {
    var taken := c.(ready := c.ready - {key});
    if key !in c.toDelete then taken
    else Logged(taken.(working := c.working[key := Firing(Checked, |c.log|, 0)]), FoundPlanned(key, c.now))
  }

  function Retry(c: Cleaner, key: string, backoff: int): Cleaner {
    Enqueue(c.(working := c.working - {key}), key, backoff)
  }

  function ProbeKey(c: Cleaner, key: string, found: ProbeResult): Cleaner
    requires key in c.working
  {
    match found
    case ProbeFailed(backoff) => Retry(c, key, backoff)
    case NotEmpty => Logged(c.(working := c.working - {key}), FoundFull(key, c.now))
    case Empty =>
      Logged(c.(working := c.working[key := c.working[key].(phase := SeenEmpty, probe := |c.log|)]), FoundEmpty(key, c.now))
  }

  function DeleteKey(c: Cleaner, key: string, result: DeleteResult): Cleaner
    requires key in c.working
  {
    var cleaned := c.(working := c.working[key := c.working[key].(phase := Cleaned)]);
    match result
    case DeleteFailed(backoff) => Retry(c, key, backoff)
    case NotFound => Logged(cleaned, FoundMissing(key, c.now))
    case Gone => Logged(cleaned, Deleted(key, c.now))
  }

  function FinishKey(c: Cleaner, key: string): Cleaner {
    CancelCleaning(c.(working := c.working - {key}), key)
  }

  predicate Enabled(c: Cleaner, step: Step) {
    match step
    case Wait(until) => until >= c.now
    case Plan(key) => true
    case Cancel(key) => true
    case BecomeReady(key) => key in c.waiting && c.waiting[key] <= c.now
    case Take(key) => key in c.ready && key !in c.working
    case Probe(key, found) => key in c.working && c.working[key].phase == Checked
    case Delete(key, result) => key in c.working && c.working[key].phase == SeenEmpty
    case Finish(key) => key in c.working && c.working[key].phase == Cleaned
  }

  function Next(delay: int, c: Cleaner, step: Step): Cleaner
    requires Enabled(c, step)
  {
    match step
    case Wait(until) => c.(now := until)
    case Plan(key) => PlanCleaning(delay, c, key)
    case Cancel(key) => CancelCleaning(c, key)
    case BecomeReady(key) => c.(waiting := c.waiting - {key}, ready := c.ready + {key})
    case Take(key) => TakeKey(c, key)
    case Probe(key, found) => ProbeKey(c, key, found)
    case Delete(key, result) => DeleteKey(c, key, result)
    case Finish(key) => FinishKey(c, key)
  }

  ghost predicate IsRun(delay: int, c: Cleaner, steps: seq<Step>)
    decreases |steps|
  {
    steps == [] || (Enabled(c, steps[0]) && IsRun(delay, Next(delay, c, steps[0]), steps[1..]))
  }

  ghost function After(delay: int, c: Cleaner, steps: seq<Step>): Cleaner
    requires IsRun(delay, c, steps)
    decreases |steps|
  {
    if steps == [] then c else After(delay, Next(delay, c, steps[0]), steps[1..])
  }

  const INITIAL := Cleaner(0, map[], map[], {}, map[], [])

  // ----- reading the log -----

  /** The last plan or cancellation of the key was a plan. */
  predicate PlannedIn(log: seq<Event>, key: string) {
    log != [] &&
    var e := log[|log| - 1];
    if e == Planned(key, e.at) then true
    else if e == Cancelled(key, e.at) then false
    else PlannedIn(log[..|log| - 1], key)
  }

  /** The key was found in use after it was last planned. */
  predicate FullSincePlanned(log: seq<Event>, key: string) {
    log != [] &&
    var e := log[|log| - 1];
    if e == FoundFull(key, e.at) then true
    else if e == Planned(key, e.at) then false
    else FullSincePlanned(log[..|log| - 1], key)
  }

  /** Some plan of the key took effect at least the delay before time `t`. */
  predicate PlannedLongBefore(log: seq<Event>, delay: int, key: string, t: int) {
    exists i | 0 <= i < |log| :: IsOldPlan(log[i], delay, key, t)
  }

  predicate IsOldPlan(e: Event, delay: int, key: string, t: int) {
    e.Planned? && e.key == key && e.at + delay <= t
  }

  /** The last firing before `i`, whose check is at `j` and whose probe is at `m`. */
  predicate IsFiring(log: seq<Event>, key: string, j: nat, m: nat, i: nat) {
    && j < m < i <= |log|
    && log[j] == FoundPlanned(key, log[j].at) && PlannedIn(log[..j], key)
    && log[m] == FoundEmpty(key, log[m].at)
    && forall y | j < y < i :: !IsCheck(log[y], key)
  }

  /** The key was cancelled within the stretch and not planned again in it. */
  predicate CancelledWithin(log: seq<Event>, key: string, j: nat, i: nat) {
    exists x :: j <= x < i <= |log| && IsCancel(log[x], key) && forall y | x < y < i :: !IsPlan(log[y], key)
  }

  predicate IsCheck(e: Event, key: string) { e.FoundPlanned? && e.key == key }

  predicate IsCancel(e: Event, key: string) { e.Cancelled? && e.key == key }

  predicate IsPlan(e: Event, key: string) { e.Planned? && e.key == key }

  /** Each deletion is the end of a firing that found its key planned and then its
      namespace empty, of a key that some plan had made wait for the delay. */
  ghost predicate Justified(log: seq<Event>, delay: int, i: nat)
    requires i < |log|
  {
    log[i].Deleted? ==>
      && PlannedLongBefore(log[..i], delay, log[i].key, log[i].at)
      && exists j, m :: IsFiring(log, log[i].key, j, m, i)
  }

  // ----- what every step keeps -----

  ghost predicate QueueOk(delay: int, c: Cleaner) {
    && (forall k | k in c.waiting :: PlannedLongBefore(c.log, delay, k, c.waiting[k]))
    && (forall k | k in c.ready || k in c.working :: PlannedLongBefore(c.log, delay, k, c.now))
  }

  ghost predicate MapOk(c: Cleaner) {
    forall k :: k in c.toDelete <==> PlannedIn(c.log, k)
  }

  ghost predicate FiringsOk(c: Cleaner) {
    forall k | k in c.working :: FiringOk(c.log, k, c.working[k])
  }

  predicate FiringOk(log: seq<Event>, k: string, f: Firing) {
    && f.check < |log| && log[f.check] == FoundPlanned(k, log[f.check].at) && PlannedIn(log[..f.check], k)
    && (forall y | f.check < y < |log| :: !IsCheck(log[y], k))
    && (f.phase == SeenEmpty ==> IsFiring(log, k, f.check, f.probe, |log|))
  }

  /** A planned key that is not queued was found in use after the last plan that
      took effect. A plan that is ignored after that is lost. */
  ghost predicate Remembered(c: Cleaner) {
    forall k | k in c.toDelete ::
      k in c.waiting || k in c.ready || k in c.working || FullSincePlanned(c.log, k)
  }

  ghost predicate Inv(delay: int, c: Cleaner) {
    && QueueOk(delay, c) && MapOk(c) && FiringsOk(c) && Remembered(c)
    && forall i | 0 <= i < |c.log| :: Justified(c.log, delay, i)
  }

  // ----- one more event -----

  lemma OneMore(log: seq<Event>, e: Event)
    ensures var r := log + [e];
            && |r| == |log| + 1 && r[|log|] == e && r[..|log|] == log
            && (forall k :: PlannedIn(r, k) <==> if IsPlan(e, k) then true else if IsCancel(e, k) then false else PlannedIn(log, k))
            && (forall k :: FullSincePlanned(r, k) <==>
                  if e.FoundFull? && e.key == k then true else if IsPlan(e, k) then false else FullSincePlanned(log, k))
  {
    var r := log + [e];
    assert r[..|log|] == log && r[|r| - 1] == e && r[..|r| - 1] == log;
    forall k
      ensures PlannedIn(r, k) <==> if IsPlan(e, k) then true else if IsCancel(e, k) then false else PlannedIn(log, k)
      ensures FullSincePlanned(r, k) <==>
              if e.FoundFull? && e.key == k then true else if IsPlan(e, k) then false else FullSincePlanned(log, k)
    {
    }
  }

  lemma PrefixStays(log: seq<Event>, e: Event, i: nat)
    requires i <= |log|
    ensures (log + [e])[..i] == log[..i]
  {
  }

  lemma OldPlansStay(log: seq<Event>, e: Event, delay: int, k: string, t: int, t': int)
    requires PlannedLongBefore(log, delay, k, t) && t <= t'
    ensures PlannedLongBefore(log + [e], delay, k, t') && PlannedLongBefore(log, delay, k, t')
  {
    var i :| 0 <= i < |log| && IsOldPlan(log[i], delay, k, t);
    assert IsOldPlan((log + [e])[i], delay, k, t') && IsOldPlan(log[i], delay, k, t');
  }

  lemma JustifiedStays(log: seq<Event>, e: Event, delay: int, i: nat)
    requires i < |log| && Justified(log, delay, i)
    ensures Justified(log + [e], delay, i)
  {
    PrefixStays(log, e, i);
    if log[i].Deleted? {
      var j, m :| IsFiring(log, log[i].key, j, m, i);
      FiringStays(log, e, log[i].key, j, m, i);
    }
  }

  lemma FiringStays(log: seq<Event>, e: Event, k: string, j: nat, m: nat, i: nat)
    requires IsFiring(log, k, j, m, i)
    ensures IsFiring(log + [e], k, j, m, i)
    ensures i == |log| && !IsCheck(e, k) ==> IsFiring(log + [e], k, j, m, i + 1)
  {
    PrefixStays(log, e, j);
  }

  lemma FiringOkStays(log: seq<Event>, e: Event, k: string, f: Firing)
    requires FiringOk(log, k, f) && !IsCheck(e, k)
    ensures FiringOk(log + [e], k, f)
  {
    PrefixStays(log, e, f.check);
    if f.phase == SeenEmpty { FiringStays(log, e, k, f.check, f.probe, |log|); }
  }

  /** Logging an event that is neither a plan, a cancellation nor a deletion
      changes nothing that the invariant depends on; one more deletion must be
      justified, and a plan or a cancellation must be in the map. */
  lemma LoggingKeeps(delay: int, c: Cleaner, c': Cleaner, e: Event)
    requires Inv(delay, c) && c' == Logged(c, e) && forall k | k in c.working :: !IsCheck(e, k)
    ensures QueueOk(delay, c') && FiringsOk(c')
    ensures forall i | 0 <= i < |c.log| :: Justified(c'.log, delay, i)
  {
    forall k, t | PlannedLongBefore(c.log, delay, k, t) ensures PlannedLongBefore(c'.log, delay, k, t) {
      OldPlansStay(c.log, e, delay, k, t, t);
    }
    forall k | k in c.working ensures FiringOk(c'.log, k, c.working[k]) {
      FiringOkStays(c.log, e, k, c.working[k]);
    }
    forall i | 0 <= i < |c.log| ensures Justified(c'.log, delay, i) {
      JustifiedStays(c.log, e, delay, i);
    }
  }

  lemma EventKeeps(delay: int, c: Cleaner, c': Cleaner, e: Event)
    requires Inv(delay, c) && c' == Logged(c, e)
    requires (e.FoundPlanned? && e.key !in c.working) || e.FoundEmpty? || e.FoundFull? || e.FoundMissing? || e.Ignored?
    ensures Inv(delay, c')
  {
    LoggingKeeps(delay, c, c', e);
    OneMore(c.log, e);
  }

  // ----- the steps -----

  lemma WaitKeeps(delay: int, c: Cleaner, until: int)
    requires Inv(delay, c) && until >= c.now
    ensures Inv(delay, c.(now := until))
  {
    forall k | k in c.ready || k in c.working ensures PlannedLongBefore(c.log, delay, k, until) {
      OldPlansStay(c.log, Cancelled(k, 0), delay, k, c.now, until);
    }
  }

  lemma EffectivePlanKeepsQueue(delay: int, c: Cleaner, key: string)
    requires Inv(delay, c) && PlanTakesEffect(c, key)
    ensures QueueOk(delay, PlanCleaning(delay, c, key)) && FiringsOk(PlanCleaning(delay, c, key))
    ensures forall i | 0 <= i < |PlanCleaning(delay, c, key).log| :: Justified(PlanCleaning(delay, c, key).log, delay, i)
  {
    var e := Planned(key, c.now);
    var logged := Logged(c, e);
    LoggingKeeps(delay, c, logged, e);
    assert logged.log[|c.log|] == e;
    assert IsOldPlan(logged.log[|c.log|], delay, key, c.now + delay);
    if delay <= 0 { assert IsOldPlan(logged.log[|c.log|], delay, key, c.now); }
  }

  lemma EffectivePlanKeepsMap(delay: int, c: Cleaner, key: string)
    requires MapOk(c) && Remembered(c) && PlanTakesEffect(c, key)
    ensures MapOk(PlanCleaning(delay, c, key)) && Remembered(PlanCleaning(delay, c, key))
  {
    OneMore(c.log, Planned(key, c.now));
  }

  lemma PlanKeeps(delay: int, c: Cleaner, key: string)
    requires Inv(delay, c)
    ensures Inv(delay, PlanCleaning(delay, c, key))
  {
    if PlanTakesEffect(c, key) {
      EffectivePlanKeepsQueue(delay, c, key);
      EffectivePlanKeepsMap(delay, c, key);
    } else {
      EventKeeps(delay, c, Logged(c, Ignored(key, c.now)), Ignored(key, c.now));
    }
  }

  lemma CancelKeeps(delay: int, c: Cleaner, key: string)
    requires Inv(delay, c)
    ensures Inv(delay, CancelCleaning(c, key))
  {
    var e := Cancelled(key, c.now);
    LoggingKeeps(delay, c, Logged(c, e), e);
    OneMore(c.log, e);
  }

  lemma ReadyKeeps(delay: int, c: Cleaner, key: string)
    requires Inv(delay, c) && Enabled(c, BecomeReady(key))
    ensures Inv(delay, Next(delay, c, BecomeReady(key)))
  {
    OldPlansStay(c.log, Cancelled(key, 0), delay, key, c.waiting[key], c.now);
  }

  lemma DropKeeps(delay: int, c: Cleaner, key: string)
    requires Inv(delay, c) && (key in c.toDelete ==> key in c.working)
    ensures Inv(delay, c.(ready := c.ready - {key}))
  {
  }

  lemma AddFiringKeeps(delay: int, c: Cleaner, key: string, f: Firing)
    requires Inv(delay, c) && key in c.ready && FiringOk(c.log, key, f)
    ensures Inv(delay, c.(working := c.working[key := f]))
  {
  }

  lemma StartFiringKeeps(delay: int, c: Cleaner, key: string)
    requires Inv(delay, c) && key in c.ready && key !in c.working && key in c.toDelete
    ensures Inv(delay, Logged(c.(working := c.working[key := Firing(Checked, |c.log|, 0)]), FoundPlanned(key, c.now)))
  {
    var e := FoundPlanned(key, c.now);
    EventKeeps(delay, c, Logged(c, e), e);
    OneMore(c.log, e);
    AddFiringKeeps(delay, Logged(c, e), key, Firing(Checked, |c.log|, 0));
  }

  lemma TakeKeeps(delay: int, c: Cleaner, key: string)
    requires Inv(delay, c) && Enabled(c, Take(key))
    ensures Inv(delay, TakeKey(c, key))
  {
    if key in c.toDelete {
      StartFiringKeeps(delay, c, key);
      DropKeeps(delay, Logged(c.(working := c.working[key := Firing(Checked, |c.log|, 0)]), FoundPlanned(key, c.now)), key);
    } else {
      DropKeeps(delay, c, key);
    }
  }

  lemma RetryKeeps(delay: int, c: Cleaner, key: string, backoff: int)
    requires Inv(delay, c) && key in c.working
    ensures Inv(delay, Retry(c, key, backoff))
  {
    if backoff > 0 {
      OldPlansStay(c.log, Cancelled(key, 0), delay, key, c.now, c.now + backoff);
    }
  }

  lemma ProbeEmptyKeeps(delay: int, c: Cleaner, key: string)
    requires Inv(delay, c) && Enabled(c, Probe(key, Empty))
    ensures Inv(delay, ProbeKey(c, key, Empty))
  {
    var e := FoundEmpty(key, c.now);
    EventKeeps(delay, c, Logged(c, e), e);
    var c' := ProbeKey(c, key, Empty);
    PrefixStays(c.log, e, c.working[key].check);
    forall k | k in c'.working ensures FiringOk(c'.log, k, c'.working[k]) {
      if k != key { assert FiringOk(Logged(c, e).log, k, c.working[k]); }
    }
  }

  /** A firing ends; its key, if still planned, was found in use. */
  lemma EndOfFiringKeeps(delay: int, c: Cleaner, key: string)
    requires Inv(delay, c) && key in c.working && (key in c.toDelete ==> FullSincePlanned(c.log, key))
    ensures Inv(delay, c.(working := c.working - {key}))
  {
  }

  lemma ProbeFullKeeps(delay: int, c: Cleaner, key: string)
    requires Inv(delay, c) && Enabled(c, Probe(key, NotEmpty))
    ensures Inv(delay, ProbeKey(c, key, NotEmpty))
  {
    var e := FoundFull(key, c.now);
    EventKeeps(delay, c, Logged(c, e), e);
    OneMore(c.log, e);
    EndOfFiringKeeps(delay, Logged(c, e), key);
  }

  lemma ProbeKeeps(delay: int, c: Cleaner, key: string, found: ProbeResult)
    requires Inv(delay, c) && Enabled(c, Probe(key, found))
    ensures Inv(delay, ProbeKey(c, key, found))
  {
    match found
    case ProbeFailed(backoff) => RetryKeeps(delay, c, key, backoff);
    case Empty => ProbeEmptyKeeps(delay, c, key);
    case NotEmpty => ProbeFullKeeps(delay, c, key);
  }

  lemma CleanedKeeps(delay: int, c: Cleaner, key: string)
    requires Inv(delay, c) && key in c.working
    ensures Inv(delay, c.(working := c.working[key := c.working[key].(phase := Cleaned)]))
  {
  }

  /** A deletion that ends a firing is justified by it. */
  lemma DeletionKeeps(delay: int, c: Cleaner, key: string)
    requires Inv(delay, c) && Enabled(c, Delete(key, Gone))
    ensures Inv(delay, Logged(c, Deleted(key, c.now)))
  {
    var e := Deleted(key, c.now);
    var f := c.working[key];
    var c' := Logged(c, e);
    LoggingKeeps(delay, c, c', e);
    OneMore(c.log, e);
    FiringStays(c.log, e, key, f.check, f.probe, |c.log|);
    assert Justified(c'.log, delay, |c.log|);
  }

  lemma DeleteKeeps(delay: int, c: Cleaner, key: string, result: DeleteResult)
    requires Inv(delay, c) && Enabled(c, Delete(key, result))
    ensures Inv(delay, DeleteKey(c, key, result))
  {
    match result
    case DeleteFailed(backoff) => RetryKeeps(delay, c, key, backoff);
    case NotFound =>
      EventKeeps(delay, c, Logged(c, FoundMissing(key, c.now)), FoundMissing(key, c.now));
      CleanedKeeps(delay, Logged(c, FoundMissing(key, c.now)), key);
    case Gone =>
      DeletionKeeps(delay, c, key);
      CleanedKeeps(delay, Logged(c, Deleted(key, c.now)), key);
  }

  lemma FinishKeeps(delay: int, c: Cleaner, key: string)
    requires Inv(delay, c) && key in c.working
    ensures Inv(delay, FinishKey(c, key))
  {
    CancelKeeps(delay, c, key);
  }

  lemma StepKeeps(delay: int, c: Cleaner, step: Step)
    requires Inv(delay, c) && Enabled(c, step)
    ensures Inv(delay, Next(delay, c, step))
  {
    match step
    case Wait(until) => WaitKeeps(delay, c, until);
    case Plan(key) => PlanKeeps(delay, c, key);
    case Cancel(key) => CancelKeeps(delay, c, key);
    case BecomeReady(key) => ReadyKeeps(delay, c, key);
    case Take(key) => TakeKeeps(delay, c, key);
    case Probe(key, found) => ProbeKeeps(delay, c, key, found);
    case Delete(key, result) => DeleteKeeps(delay, c, key, result);
    case Finish(key) => FinishKeeps(delay, c, key);
  }

  lemma {:induction false} RunKeeps(delay: int, c: Cleaner, steps: seq<Step>)
    requires Inv(delay, c) && IsRun(delay, c, steps)
    ensures Inv(delay, After(delay, c, steps))
    decreases |steps|
  {
    if steps != [] {
      StepKeeps(delay, c, steps[0]);
      RunKeeps(delay, Next(delay, c, steps[0]), steps[1..]);
    }
  }

  // ----- cancellations during a firing -----

  /** Between two points of the log a planned key stays planned unless it is
      cancelled and not planned again. */
  lemma {:induction false} PlannedUnlessCancelled(log: seq<Event>, key: string, j: nat, i: nat)
    requires j <= i <= |log| && PlannedIn(log[..j], key)
    ensures PlannedIn(log[..i], key) <==> !CancelledWithin(log, key, j, i)
    decreases i - j
  {
    if j < i {
      PlannedUnlessCancelled(log, key, j, i - 1);
      var e := log[i - 1];
      assert log[..i] == log[..i - 1] + [e];
      OneMore(log[..i - 1], e);
      if IsCancel(e, key) {
        assert CancelledWithin(log, key, j, i);
      } else if IsPlan(e, key) {
        assert !CancelledWithin(log, key, j, i);
      } else {
        CancelledOneMore(log, key, j, i);
      }
    }
  }

  lemma CancelledOneMore(log: seq<Event>, key: string, j: nat, i: nat)
    requires j < i <= |log| && !IsCancel(log[i - 1], key) && !IsPlan(log[i - 1], key)
    ensures CancelledWithin(log, key, j, i) <==> CancelledWithin(log, key, j, i - 1)
  {
    if CancelledWithin(log, key, j, i) {
      var x :| j <= x < i <= |log| && IsCancel(log[x], key) && forall y | x < y < i :: !IsPlan(log[y], key);
      assert x < i - 1;
    }
    if CancelledWithin(log, key, j, i - 1) {
      var x :| j <= x < i - 1 <= |log| && IsCancel(log[x], key) && forall y | x < y < i - 1 :: !IsPlan(log[y], key);
      assert forall y | x < y < i :: !IsPlan(log[y], key);
    }
  }

  /** Main result: over every run, each deleted namespace had a plan that took
      effect at least the delay before, was found planned and then empty by the
      firing that deleted it, and is still planned at the deletion unless it was
      cancelled, and not planned again, while that firing was under way. */
  lemma DeletionsAreJustified(delay: int, steps: seq<Step>, i: nat)
    requires IsRun(delay, INITIAL, steps)
    requires i < |After(delay, INITIAL, steps).log| && After(delay, INITIAL, steps).log[i].Deleted?
    ensures var log := After(delay, INITIAL, steps).log;
            var key := log[i].key;
            && PlannedLongBefore(log[..i], delay, key, log[i].at)
            && exists j, m :: IsFiring(log, key, j, m, i)
                 && (PlannedIn(log[..i], key) <==> !CancelledWithin(log, key, j, i))
  {
    RunKeeps(delay, INITIAL, steps);
    var log := After(delay, INITIAL, steps).log;
    assert Justified(log, delay, i);
    var j, m :| IsFiring(log, log[i].key, j, m, i);
    PlannedUnlessCancelled(log, log[i].key, j, i);
  }

  /** Main result: over every run, a key is in the map exactly while it is planned,
      and a planned key waits, is ready, is being processed, or was found in use
      after the last plan that took effect. */
  lemma PlansAreRemembered(delay: int, steps: seq<Step>, key: string)
    requires IsRun(delay, INITIAL, steps)
    ensures var c := After(delay, INITIAL, steps);
            && (key in c.toDelete <==> PlannedIn(c.log, key))
            && (PlannedIn(c.log, key) ==>
                  key in c.waiting || key in c.ready || key in c.working || FullSincePlanned(c.log, key))
  {
    RunKeeps(delay, INITIAL, steps);
  }

  /** Main result: planning again before the planned time changes neither the map
      nor the queue, and no plan ever makes a waiting key wait longer. */
  lemma PlansDoNotPostpone(delay: int, c: Cleaner, key: string, later: int)
    requires c.now <= later <= c.now + delay && PlanTakesEffect(c, key)
    ensures var planned := PlanCleaning(delay, c, key).(now := later);
            PlanCleaning(delay, planned, key) == Logged(planned, Ignored(key, later))
    ensures forall k | k in c.waiting ::
              k in PlanCleaning(delay, c, key).waiting && PlanCleaning(delay, c, key).waiting[k] <= c.waiting[k]
  {
  }

  /** A cancellation that comes after the probe is too late: the firing still
      deletes the namespace, which is then not planned any more. */
  lemma CancelComesTooLate(delay: int, c: Cleaner, key: string)
    requires Inv(delay, c) && Enabled(c, Delete(key, Gone))
    ensures Enabled(CancelCleaning(c, key), Delete(key, Gone))
    ensures var r := DeleteKey(CancelCleaning(c, key), key, Gone);
            r.log == c.log + [Cancelled(key, c.now)] + [Deleted(key, c.now)] && !PlannedIn(r.log, key)
  {
    OneMore(c.log, Cancelled(key, c.now));
    OneMore(c.log + [Cancelled(key, c.now)], Deleted(key, c.now));
  }
}
