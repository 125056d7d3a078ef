/** How long a planned namespace is left alone, and whether a plan is followed by a
    look at the namespace: the exact conditions, over all runs
    (pkg/syncer/namespace/namespace_downstream_controller.go). */
module CleaningDelays {
  import opened NamespaceCleaner

  // ----- runs and their logs -----

  lemma StepExtends(delay: int, c: Cleaner, step: Step)
    requires Enabled(c, step)
    ensures c.log <= Next(delay, c, step).log && c.now <= Next(delay, c, step).now
  {
  }

  lemma {:induction false} RunExtends(delay: int, c: Cleaner, steps: seq<Step>)
    requires IsRun(delay, c, steps)
    ensures c.log <= After(delay, c, steps).log && c.now <= After(delay, c, steps).now
    decreases |steps|
  {
    if steps != [] {
      StepExtends(delay, c, steps[0]);
      RunExtends(delay, Next(delay, c, steps[0]), steps[1..]);
    }
  }

  lemma RunFrom(delay: int, c: Cleaner, step: Step, rest: seq<Step>)
    requires Enabled(c, step) && IsRun(delay, Next(delay, c, step), rest)
    ensures IsRun(delay, c, [step] + rest)
    ensures After(delay, c, [step] + rest) == After(delay, Next(delay, c, step), rest)
  {
    assert ([step] + rest)[0] == step && ([step] + rest)[1..] == rest;
  }

  // ----- the delay from the last plan -----

  /** No plan of the key took effect from position `base` of the log on. */
  predicate NoPlanSince(log: seq<Event>, base: nat, key: string) {
    forall i | base <= i < |log| :: !IsPlan(log[i], key)
  }

  predicate NotDeletedBefore(log: seq<Event>, base: nat, key: string, t: int) {
    forall i | base <= i < |log| && log[i].Deleted? && log[i].key == key :: t <= log[i].at
  }

  /** No earlier plan of the key is under way that could fire before the delay is
      over: nothing is queued for it or waits for an earlier time, or its firing
      is past the deletion and is about to cancel the key. */
  predicate KeepsDelay(delay: int, c: Cleaner, key: string) {
    || (key in c.working && c.working[key].phase == Cleaned)
    || (key !in c.working && key !in c.ready && (key in c.waiting ==> c.waiting[key] >= c.now + delay))
  }

  /** Nothing can delete the key before time `t` unless it is planned again. */
  predicate QuietUntil(c: Cleaner, key: string, t: int) {
    || t <= c.now
    || (key in c.working && c.working[key].phase == Cleaned)
    || (key !in c.working && key !in c.toDelete)
    || (key !in c.working && key !in c.ready && (key in c.waiting ==> c.waiting[key] >= t))
  }

  /** A step about another key, or of time alone. */
  lemma QuietElsewhere(delay: int, c: Cleaner, step: Step, key: string, t: int)
    requires Enabled(c, step) && (step.Wait? || step.key != key) && QuietUntil(c, key, t)
    ensures QuietUntil(Next(delay, c, step), key, t)
  {
    var c' := Next(delay, c, step);
    assert key in c'.working <==> key in c.working;
    assert key in c.working ==> c'.working[key] == c.working[key];
    assert (key in c'.ready <==> key in c.ready) && (key in c'.toDelete <==> key in c.toDelete);
    assert (key in c'.waiting <==> key in c.waiting) && (key in c.waiting ==> c'.waiting[key] == c.waiting[key]);
  }

  /** A step about the key that is not a plan which takes effect. */
  lemma QuietHere(delay: int, c: Cleaner, step: Step, key: string, t: int)
    requires Enabled(c, step) && !step.Wait? && step.key == key && QuietUntil(c, key, t)
    requires step.Plan? ==> !PlanTakesEffect(c, key)
    ensures QuietUntil(Next(delay, c, step), key, t)
  {
    var c' := Next(delay, c, step);
    assert c'.now == c.now;
  }

  lemma QuietDeletion(delay: int, c: Cleaner, step: Step, base: nat, key: string, t: int)
    requires Enabled(c, step) && base <= |c.log| && QuietUntil(c, key, t) && NotDeletedBefore(c.log, base, key, t)
    ensures NotDeletedBefore(Next(delay, c, step).log, base, key, t)
  {
    var c' := Next(delay, c, step);
    assert c'.log == c.log || c'.log == c.log + [c'.log[|c.log|]];
  }

  lemma QuietStep(delay: int, c: Cleaner, step: Step, base: nat, key: string, t: int)
    requires Enabled(c, step) && base <= |c.log|
    requires QuietUntil(c, key, t) && NotDeletedBefore(c.log, base, key, t)
    requires NoPlanSince(Next(delay, c, step).log, base, key)
    ensures QuietUntil(Next(delay, c, step), key, t) && NotDeletedBefore(Next(delay, c, step).log, base, key, t)
  {
    QuietDeletion(delay, c, step, base, key, t);
    if step.Wait? || step.key != key {
      QuietElsewhere(delay, c, step, key, t);
    } else {
      if step.Plan? && PlanTakesEffect(c, key) {
        assert IsPlan(Next(delay, c, step).log[|c.log|], key);
      }
      QuietHere(delay, c, step, key, t);
    }
  }

  lemma {:induction false} QuietRun(delay: int, c: Cleaner, steps: seq<Step>, base: nat, key: string, t: int)
    requires IsRun(delay, c, steps) && base <= |c.log|
    requires QuietUntil(c, key, t) && NotDeletedBefore(c.log, base, key, t)
    requires NoPlanSince(After(delay, c, steps).log, base, key)
    ensures NotDeletedBefore(After(delay, c, steps).log, base, key, t)
    decreases |steps|
  {
    if steps != [] {
      var c' := Next(delay, c, steps[0]);
      RunExtends(delay, c', steps[1..]);
      StepExtends(delay, c, steps[0]);
      assert NoPlanSince(c'.log, base, key);
      QuietStep(delay, c, steps[0], base, key, t);
      QuietRun(delay, c', steps[1..], base, key, t);
    }
  }

  /** Some run deletes the key before time `t` without another plan of it. */
  ghost predicate DeletesEarly(delay: int, c: Cleaner, base: nat, key: string, t: int) {
    exists steps :: IsRun(delay, c, steps)
      && NoPlanSince(After(delay, c, steps).log, base, key) && !NotDeletedBefore(After(delay, c, steps).log, base, key, t)
  }

  lemma DeletesEarlyAfter(delay: int, c: Cleaner, step: Step, base: nat, key: string, t: int)
    requires Enabled(c, step) && DeletesEarly(delay, Next(delay, c, step), base, key, t)
    ensures DeletesEarly(delay, c, base, key, t)
  {
    var steps :| IsRun(delay, Next(delay, c, step), steps)
      && NoPlanSince(After(delay, Next(delay, c, step), steps).log, base, key)
      && !NotDeletedBefore(After(delay, Next(delay, c, step), steps).log, base, key, t);
    RunFrom(delay, c, step, steps);
    assert IsRun(delay, c, [step] + steps);
  }

  lemma EarlyFromEmpty(delay: int, c: Cleaner, base: nat, key: string, t: int)
    requires key in c.working && c.working[key].phase == SeenEmpty
    requires c.now < t && base <= |c.log| && NoPlanSince(c.log, base, key)
    ensures DeletesEarly(delay, c, base, key, t)
  {
    var c' := Next(delay, c, Delete(key, Gone));
    assert c'.log == c.log + [Deleted(key, c.now)] && c'.log[|c.log|] == Deleted(key, c.now);
    assert !NotDeletedBefore(c'.log, base, key, t);
    assert IsRun(delay, c', []) && After(delay, c', []) == c';
    DeletesEarlyAfter(delay, c, Delete(key, Gone), base, key, t);
  }

  lemma EarlyFromChecked(delay: int, c: Cleaner, base: nat, key: string, t: int)
    requires key in c.working && c.working[key].phase == Checked
    requires c.now < t && base <= |c.log| && NoPlanSince(c.log, base, key)
    ensures DeletesEarly(delay, c, base, key, t)
  {
    var c' := Next(delay, c, Probe(key, Empty));
    assert c'.log == c.log + [FoundEmpty(key, c.now)];
    EarlyFromEmpty(delay, c', base, key, t);
    DeletesEarlyAfter(delay, c, Probe(key, Empty), base, key, t);
  }

  lemma EarlyFromReady(delay: int, c: Cleaner, base: nat, key: string, t: int)
    requires key in c.ready && key !in c.working && key in c.toDelete
    requires c.now < t && base <= |c.log| && NoPlanSince(c.log, base, key)
    ensures DeletesEarly(delay, c, base, key, t)
  {
    var c' := Next(delay, c, Take(key));
    assert c'.log == c.log + [FoundPlanned(key, c.now)];
    EarlyFromChecked(delay, c', base, key, t);
    DeletesEarlyAfter(delay, c, Take(key), base, key, t);
  }

  lemma EarlyFromWaiting(delay: int, c: Cleaner, base: nat, key: string, t: int)
    requires key in c.waiting && c.waiting[key] < t && key !in c.working && key in c.toDelete
    requires c.now < t && base <= |c.log| && NoPlanSince(c.log, base, key)
    ensures DeletesEarly(delay, c, base, key, t)
  {
    var then' := if c.waiting[key] > c.now then c.waiting[key] else c.now;
    var c1 := Next(delay, c, Wait(then'));
    var c2 := Next(delay, c1, BecomeReady(key));
    EarlyFromReady(delay, c2, base, key, t);
    DeletesEarlyAfter(delay, c1, BecomeReady(key), base, key, t);
    DeletesEarlyAfter(delay, c, Wait(then'), base, key, t);
  }

  /** Main result: after a plan that takes effect, no run without another such plan
      deletes the namespace before the delay is over, if and only if no earlier
      plan is under way that fires sooner. */
  lemma DelayFromLastPlanIff(delay: int, c: Cleaner, key: string)
    requires delay > 0 && PlanTakesEffect(c, key)
    ensures var planned := PlanCleaning(delay, c, key);
            !DeletesEarly(delay, planned, |planned.log|, key, c.now + delay) <==> KeepsDelay(delay, c, key)
  {
    var planned := PlanCleaning(delay, c, key);
    var base, t := |planned.log|, c.now + delay;
    if KeepsDelay(delay, c, key) {
      forall steps | IsRun(delay, planned, steps) && NoPlanSince(After(delay, planned, steps).log, base, key)
        ensures NotDeletedBefore(After(delay, planned, steps).log, base, key, t)
      {
        QuietRun(delay, planned, steps, base, key, t);
      }
    } else {
      if key in c.working {
        if c.working[key].phase == Checked {
          EarlyFromChecked(delay, planned, base, key, t);
        } else {
          EarlyFromEmpty(delay, planned, base, key, t);
        }
      } else if key in c.ready {
        EarlyFromReady(delay, planned, base, key, t);
      } else {
        EarlyFromWaiting(delay, planned, base, key, t);
      }
    }
  }

  // ----- whether a plan is served -----

  /** The namespace was looked at, or was about to be deleted. */
  predicate IsLook(e: Event, key: string) {
    (e.FoundEmpty? || e.FoundFull? || e.FoundMissing? || e.Deleted?) && e.key == key
  }

  predicate LookedSince(log: seq<Event>, base: nat, key: string) {
    exists i | base <= i < |log| :: IsLook(log[i], key)
  }

  /** The delayed worker has nothing to do for the key. */
  predicate IsIdle(c: Cleaner, key: string) {
    key !in c.waiting && key !in c.ready && key !in c.working
  }

  predicate LeftAlone(steps: seq<Step>, key: string) {
    Plan(key) !in steps && Cancel(key) !in steps
  }

  /** A plan call is served unless it comes between the deletion and the end of a
      firing, or is ignored while nothing is queued for the key. */
  predicate IsServed(c: Cleaner, key: string) {
    && !(key in c.working && c.working[key].phase == Cleaned)
    && (PlanTakesEffect(c, key) || !IsIdle(c, key))
  }

  predicate IsPending(c: Cleaner, key: string) {
    key in c.toDelete && !IsIdle(c, key) && !(key in c.working && c.working[key].phase == Cleaned)
  }

  lemma PendingStep(delay: int, c: Cleaner, step: Step, base: nat, key: string)
    requires Enabled(c, step) && step != Plan(key) && step != Cancel(key) && base <= |c.log|
    requires LookedSince(c.log, base, key) || IsPending(c, key)
    ensures LookedSince(Next(delay, c, step).log, base, key) || IsPending(Next(delay, c, step), key)
  {
    var c' := Next(delay, c, step);
    StepExtends(delay, c, step);
    if LookedSince(c.log, base, key) {
      var i :| base <= i < |c.log| && IsLook(c.log[i], key);
      assert IsLook(c'.log[i], key);
    } else if |c'.log| > |c.log| && IsLook(c'.log[|c.log|], key) {
      assert LookedSince(c'.log, base, key);
    }
  }

  lemma {:induction false} PendingRun(delay: int, c: Cleaner, steps: seq<Step>, base: nat, key: string)
    requires IsRun(delay, c, steps) && LeftAlone(steps, key) && base <= |c.log|
    requires LookedSince(c.log, base, key) || IsPending(c, key)
    ensures var r := After(delay, c, steps); LookedSince(r.log, base, key) || IsPending(r, key)
    decreases |steps|
  {
    if steps != [] {
      PendingStep(delay, c, steps[0], base, key);
      StepExtends(delay, c, steps[0]);
      PendingRun(delay, Next(delay, c, steps[0]), steps[1..], base, key);
    }
  }

  /** Some run in which the key is left alone works off the queue and never looks at
      the namespace. */
  ghost predicate EndsUnseen(delay: int, c: Cleaner, base: nat, key: string) {
    exists steps :: IsRun(delay, c, steps) && LeftAlone(steps, key)
      && IsIdle(After(delay, c, steps), key) && !LookedSince(After(delay, c, steps).log, base, key)
  }

  lemma EndsUnseenAfter(delay: int, c: Cleaner, step: Step, base: nat, key: string)
    requires Enabled(c, step) && step != Plan(key) && step != Cancel(key)
    requires EndsUnseen(delay, Next(delay, c, step), base, key)
    ensures EndsUnseen(delay, c, base, key)
  {
    var c' := Next(delay, c, step);
    var steps :| IsRun(delay, c', steps) && LeftAlone(steps, key)
      && IsIdle(After(delay, c', steps), key) && !LookedSince(After(delay, c', steps).log, base, key);
    RunFrom(delay, c, step, steps);
    assert LeftAlone([step] + steps, key);
  }

  lemma UnseenWhenIdle(delay: int, c: Cleaner, base: nat, key: string)
    requires IsIdle(c, key) && !LookedSince(c.log, base, key)
    ensures EndsUnseen(delay, c, base, key)
  {
    assert IsRun(delay, c, []) && After(delay, c, []) == c && LeftAlone([], key);
  }

  /** What is queued for a key that is not planned is taken and dropped. */
  lemma UnplannedDrains(delay: int, c: Cleaner, base: nat, key: string)
    requires key !in c.toDelete && key !in c.working && !LookedSince(c.log, base, key)
    ensures EndsUnseen(delay, c, base, key)
  {
    if key in c.waiting {
      var then' := if c.waiting[key] > c.now then c.waiting[key] else c.now;
      var c1 := Next(delay, c, Wait(then'));
      var c2 := Next(delay, c1, BecomeReady(key));
      var c3 := Next(delay, c2, Take(key));
      UnseenWhenIdle(delay, c3, base, key);
      EndsUnseenAfter(delay, c2, Take(key), base, key);
      EndsUnseenAfter(delay, c1, BecomeReady(key), base, key);
      EndsUnseenAfter(delay, c, Wait(then'), base, key);
    } else if key in c.ready {
      UnseenWhenIdle(delay, Next(delay, c, Take(key)), base, key);
      EndsUnseenAfter(delay, c, Take(key), base, key);
    } else {
      UnseenWhenIdle(delay, c, base, key);
    }
  }

  /** Main result: after a plan call, every run in which the key is neither planned
      again nor cancelled, and which has worked off all that is queued for it, has
      looked at the namespace since the call (none ends unseen), if and only if the
      call is served. */
  lemma PlanIsServedIff(delay: int, c: Cleaner, key: string)
    ensures var called := PlanCleaning(delay, c, key);
            !EndsUnseen(delay, called, |called.log|, key) <==> IsServed(c, key)
  {
    var called := PlanCleaning(delay, c, key);
    var base := |called.log|;
    if IsServed(c, key) {
      assert IsPending(called, key);
      forall steps | IsRun(delay, called, steps) && LeftAlone(steps, key) && IsIdle(After(delay, called, steps), key)
        ensures LookedSince(After(delay, called, steps).log, base, key)
      {
        PendingRun(delay, called, steps, base, key);
      }
    } else if key in c.working {
      var c' := Next(delay, called, Finish(key));
      assert c'.log == called.log + [Cancelled(key, c.now)];
      UnplannedDrains(delay, c', base, key);
      EndsUnseenAfter(delay, called, Finish(key), base, key);
    } else {
      UnseenWhenIdle(delay, called, base, key);
    }
  }

  /** A call that is lost although no firing is under way comes after the namespace
      was found in use, and not later than the time it is planned for. */
  lemma LostPlanFollowsFullProbe(delay: int, c: Cleaner, key: string)
    requires Inv(delay, c) && !IsServed(c, key) && key !in c.working
    ensures FullSincePlanned(c.log, key) && key in c.toDelete && c.now <= c.toDelete[key]
  {
  }

  // ----- concrete runs -----

  lemma {:induction false} RunOneMore(delay: int, c: Cleaner, steps: seq<Step>, last: Step)
    requires IsRun(delay, c, steps) && Enabled(After(delay, c, steps), last)
    ensures IsRun(delay, c, steps + [last])
    ensures After(delay, c, steps + [last]) == Next(delay, After(delay, c, steps), last)
    decreases |steps|
  {
    if steps == [] {
      assert [] + [last] == [last] && [last][1..] == [];
    } else {
      RunOneMore(delay, Next(delay, c, steps[0]), steps[1..], last);
      assert (steps + [last])[1..] == steps[1..] + [last];
    }
  }

  ghost predicate Reaches(delay: int, steps: seq<Step>, c: Cleaner) {
    IsRun(delay, INITIAL, steps) && After(delay, INITIAL, steps) == c
  }

  lemma ReachesNext(delay: int, steps: seq<Step>, c: Cleaner, last: Step)
    requires Reaches(delay, steps, c) && Enabled(c, last)
    ensures Reaches(delay, steps + [last], Next(delay, c, last))
  {
    RunOneMore(delay, INITIAL, steps, last);
  }

  /** Planned, cancelled, and planned again one unit before the first delay ends. */
  function PlannedTwice(key: string, delay: int): Cleaner {
    Cleaner(delay - 1, map[key := delay - 1 + delay], map[key := delay], {}, map[],
            [Planned(key, 0), Cancelled(key, 0), Planned(key, delay - 1)])
  }

  lemma PlannedTwiceIsReached(key: string, delay: int)
    requires delay > 1
    ensures Reaches(delay, [Plan(key), Cancel(key), Wait(delay - 1), Plan(key)], PlannedTwice(key, delay))
  {
    var c1 := Cleaner(0, map[key := delay], map[key := delay], {}, map[], [Planned(key, 0)]);
    var c2 := Cleaner(0, map[], map[key := delay], {}, map[], [Planned(key, 0), Cancelled(key, 0)]);
    var c3 := c2.(now := delay - 1);
    assert Next(delay, INITIAL, Plan(key)) == c1;
    assert Next(delay, c1, Cancel(key)) == c2;
    assert [] + [Plan(key)] == [Plan(key)];
    assert [Plan(key)] + [Cancel(key)] == [Plan(key), Cancel(key)];
    assert [Plan(key), Cancel(key)] + [Wait(delay - 1)] == [Plan(key), Cancel(key), Wait(delay - 1)];
    assert [Plan(key), Cancel(key), Wait(delay - 1)] + [Plan(key)] == [Plan(key), Cancel(key), Wait(delay - 1), Plan(key)];
    ReachesNext(delay, [], INITIAL, Plan(key));
    ReachesNext(delay, [Plan(key)], c1, Cancel(key));
    ReachesNext(delay, [Plan(key), Cancel(key)], c2, Wait(delay - 1));
    ReachesNext(delay, [Plan(key), Cancel(key), Wait(delay - 1)], c3, Plan(key));
  }

  /** A key whose waiting ends now is taken, found planned, and probed at once. */
  lemma FiresAtOnce(delay: int, steps: seq<Step>, c: Cleaner, key: string, found: ProbeResult)
    requires Reaches(delay, steps, c) && !found.ProbeFailed?
    requires key in c.waiting && c.waiting[key] <= c.now && key in c.toDelete && key !in c.working
    ensures var taken := TakeKey(c.(waiting := c.waiting - {key}, ready := c.ready + {key}), key);
            && key in taken.working
            && Reaches(delay, steps + [BecomeReady(key)] + [Take(key)] + [Probe(key, found)], ProbeKey(taken, key, found))
  {
    var s1 := steps + [BecomeReady(key)];
    ReachesNext(delay, steps, c, BecomeReady(key));
    var c1 := Next(delay, c, BecomeReady(key));
    ReachesNext(delay, s1, c1, Take(key));
    ReachesNext(delay, s1 + [Take(key)], Next(delay, c1, Take(key)), Probe(key, found));
  }

  /** The delay counts from some plan, not from the last one: after a cancelled
      plan, a namespace can be deleted one unit of time after it was last planned,
      however long the delay is. */
  lemma DelayIsNotFromLastPlan(key: string, delay: int)
    requires delay > 1
    ensures exists steps, r :: Reaches(delay, steps, r)
              && r.log == [Planned(key, 0), Cancelled(key, 0), Planned(key, delay - 1)]
                          + [FoundPlanned(key, delay)] + [FoundEmpty(key, delay)] + [Deleted(key, delay)]
  {
    var start := [Plan(key), Cancel(key), Wait(delay - 1), Plan(key)];
    PlannedTwiceIsReached(key, delay);
    ReachesNext(delay, start, PlannedTwice(key, delay), Wait(delay));
    var c := PlannedTwice(key, delay).(now := delay);
    FiresAtOnce(delay, start + [Wait(delay)], c, key, Empty);
    var probed := ProbeKey(TakeKey(c.(waiting := c.waiting - {key}, ready := c.ready + {key}), key), key, Empty);
    ReachesNext(delay, start + [Wait(delay)] + [BecomeReady(key)] + [Take(key)] + [Probe(key, Empty)], probed,
                Delete(key, Gone));
  }

  /** In the same run, when the namespace is still in use, the key stays planned with
      nothing queued for it, and a plan made when it becomes empty is lost. */
  lemma PlanCanBeLost(key: string, delay: int)
    requires delay > 1
    ensures exists steps, r :: Reaches(delay, steps, r) && key in r.toDelete && IsIdle(r, key) && !IsServed(r, key)
  {
    var start := [Plan(key), Cancel(key), Wait(delay - 1), Plan(key)];
    PlannedTwiceIsReached(key, delay);
    ReachesNext(delay, start, PlannedTwice(key, delay), Wait(delay));
    var c := PlannedTwice(key, delay).(now := delay);
    FiresAtOnce(delay, start + [Wait(delay)], c, key, NotEmpty);
    var r := ProbeKey(TakeKey(c.(waiting := c.waiting - {key}, ready := c.ready + {key}), key), key, NotEmpty);
    assert key in r.toDelete && IsIdle(r, key) && !IsServed(r, key);
  }
}
