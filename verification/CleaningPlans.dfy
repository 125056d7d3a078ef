/** What the steps of the spec controller mean for the cleaning of downstream
    namespaces (pkg/syncer/spec/spec_process.go,
    pkg/syncer/namespace/namespace_downstream_controller.go). */
module CleaningPlans {
  import opened Wrappers
  import opened Kube
  import opened Syncer
  import NamespaceCleaner

  function CalledOnce(delay: int, c: NamespaceCleaner.Cleaner, call: CleanerCall): NamespaceCleaner.Cleaner {
    if call.PlanCleaning? then NamespaceCleaner.PlanCleaning(delay, c, call.ns)
    else NamespaceCleaner.CancelCleaning(c, call.ns)
  }

  /** The cleaner after it was called. */
  function Called(delay: int, c: NamespaceCleaner.Cleaner, calls: seq<CleanerCall>): NamespaceCleaner.Cleaner
    decreases |calls|
  {
    if calls == [] then c else Called(delay, CalledOnce(delay, c, calls[0]), calls[1..])
  }

  /** Some downstream object went away. */
  predicate RemovesObject(d: Down, d': Down) {
    exists k :: k in d.objects && k !in d'.objects
  }

  lemma OneCall(delay: int, c: NamespaceCleaner.Cleaner, call: CleanerCall)
    ensures Called(delay, c, [call]) == CalledOnce(delay, c, call)
  {
    assert [call][1..] == [];
  }

  lemma TwoCalls(delay: int, c: NamespaceCleaner.Cleaner, first: CleanerCall, second: CleanerCall)
    ensures Called(delay, c, [first, second]) == Called(delay, Called(delay, c, [first]), [second])
  {
    assert [first, second][1..] == [second];
    OneCall(delay, c, first);
  }

  /** What the spec step calls, by what it does downstream. */
  lemma CallsOfStep(c: Conf, deps: Deps, w: World, u: UpKey, input: Reads, n: string)
    requires c.target in w.down && TargetNamespace(c, deps, w.down[c.target], u) == Some(n)
    ensures var r := SpecStep(c, deps, w, u, input);
            && c.target in r.world.down
            && r.calls == if input.first.None? then [PlanCleaning(n)]
                          else if RemovesObject(w.down[c.target], r.world.down[c.target])
                               then [CancelCleaning(n), PlanCleaning(n)]
                          else [CancelCleaning(n)]
  {
    var d := w.down[c.target];
    var r := SpecStep(c, deps, w, u, input);
    if input.first.Some? {
      var o := input.first.value;
      var k := CopyKey(u, n, o);
      var d1 := EnsureNamespace(deps, d, n, Desired(c, u));
      assert d1.objects == d.objects;
      if r.world.down[c.target] == Remove(d1, k) && k in d.objects {
        assert RemovesObject(d, r.world.down[c.target]);
      }
    }
  }

  /** Main result: after a spec step on an object that it sees, the namespace is
      planned for cleaning if and only if the step removed an object from it, also
      if it was planned before; after a step on an object that it does not see it
      is always planned; and no other namespace is planned or cancelled. */
  lemma PlannedIffRemoved(delay: int, cleaner: NamespaceCleaner.Cleaner, c: Conf, deps: Deps, w: World, u: UpKey, input: Reads,
                          n: string)
    requires c.target in w.down && TargetNamespace(c, deps, w.down[c.target], u) == Some(n)
    ensures var r := SpecStep(c, deps, w, u, input);
            var after := Called(delay, cleaner, r.calls);
            && c.target in r.world.down
            && (n in after.toDelete <==> input.first.None? || RemovesObject(w.down[c.target], r.world.down[c.target]))
            && forall m | m != n :: m in after.toDelete <==> m in cleaner.toDelete
  {
    CallsOfStep(c, deps, w, u, input, n);
    OneCall(delay, cleaner, PlanCleaning(n));
    OneCall(delay, cleaner, CancelCleaning(n));
    TwoCalls(delay, cleaner, CancelCleaning(n), PlanCleaning(n));
    OneCall(delay, NamespaceCleaner.CancelCleaning(cleaner, n), PlanCleaning(n));
  }
}
