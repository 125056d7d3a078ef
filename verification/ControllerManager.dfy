/** Starting and stopping controllers by the resources they need
    (pkg/syncer/controllermanager/controllermanager.go). */
module ControllerManager {
  import opened Kube

  type Managed = map<string, seq<Gvr>>

  predicate HasAll(required: seq<Gvr>, synced: set<Gvr>) {
    forall g | g in required :: g in synced
  }

  /** The controllers whose required resources are all synced. */
  function Ready(managed: Managed, synced: set<Gvr>): set<string> {
    set n | n in managed && HasAll(managed[n], synced)
  }

  /** The first required resource that is not synced is one that will be. */
  predicate WaitsFor(required: seq<Gvr>, synced: set<Gvr>, notSynced: seq<Gvr>) {
    exists i | 0 <= i < |required| :: required[i] !in synced && required[i] in notSynced && HasAll(required[..i], synced)
  }

  ghost predicate SomeoneWaits(managed: Managed, synced: set<Gvr>, notSynced: seq<Gvr>) {
    exists n :: n in managed && WaitsFor(managed[n], synced, notSynced)
  }

  /** What the manager holds; the counts of starts and cancellations are
      bookkeeping. */
  datatype State = State(started: set<string>, starts: multiset<string>, cancels: multiset<string>)

  /** What one call of process sees: the synced resources, those still to be
      synced, and which controllers can be created. */
  datatype Input = Input(synced: set<Gvr>, notSynced: seq<Gvr>, creatable: set<string>)

  function Resynced(managed: Managed, s: State, input: Input): State {
    var ready := Ready(managed, input.synced);
    var launched := (ready - s.started) * input.creatable;
    State(s.started * ready + launched, s.starts + multiset(launched), s.cancels + multiset(s.started - ready))
  }

  class Manager {
    const managed: Managed
    var startedControllers: set<string>
    ghost var starts: multiset<string>
    ghost var cancels: multiset<string>

    constructor (managed: Managed)
      ensures this.managed == managed && Now() == State({}, multiset{}, multiset{})
    {
      this.managed := managed;
      startedControllers, starts, cancels := {}, multiset{}, multiset{};
    }

    ghost function Now(): State
      reads this
    {
      State(startedControllers, starts, cancels)
    }

    method ToStart(synced: set<Gvr>, notSynced: seq<Gvr>) returns (toStart: set<string>, resync: bool)
      ensures toStart == Ready(managed, synced)
      ensures resync <==> SomeoneWaits(managed, synced, notSynced)
      ensures forall n :: n in toStart <==> n in managed && forall g | g in managed[n] :: g in synced
    {
      toStart, resync := {}, false;
      var left := managed.Keys;
      label ControllerLoop:
      while left != {}
        invariant left <= managed.Keys
        invariant toStart == set n | n in managed && n !in left && HasAll(managed[n], synced)
        invariant resync <==> exists n :: n in managed && n !in left && WaitsFor(managed[n], synced, notSynced)
        decreases |left|
      {
        var name :| name in left;
        left := left - {name};
        var required := managed[name];
        for i := 0 to |required|
          invariant HasAll(required[..i], synced)
        {
          if required[i] !in synced {
            FirstMissing(required, synced, notSynced, i);
            if required[i] in notSynced { resync := true; }
            continue ControllerLoop;
          }
        }
        assert required[..|required|] == required;
        toStart := toStart + {name};
      }
    }

    /** Stops the running controllers that are not to run any more. */
    method StopObsolete(toStart: set<string>)
      modifies this
      ensures forall n :: n in startedControllers <==> n in old(startedControllers) && n in toStart
      ensures starts == old(starts)
      ensures forall n :: cancels[n] == old(cancels)[n] + if n in old(startedControllers) && n !in toStart then 1 else 0
    {
      var left := startedControllers;
      while left != {}
        invariant forall n :: n in left ==> n in startedControllers
        invariant forall n :: n in startedControllers <==> n in old(startedControllers) && (n in left || n in toStart)
        invariant starts == old(starts)
        invariant forall n :: cancels[n] == old(cancels)[n]
                                            + if n in old(startedControllers) && n !in left && n !in toStart then 1 else 0
        decreases |left|
      {
        var name :| name in left;
        left := left - {name};
        if name !in toStart {
          startedControllers := startedControllers - {name};
          cancels := cancels[name := cancels[name] + 1];
        }
      }
    }

    /** Creates and starts what is to run and is not running; what cannot be created
        is left for the next call. */
    method StartMissing(toStart: set<string>, creatable: set<string>)
      modifies this
      ensures forall n :: n in startedControllers <==>
                n in old(startedControllers) || (n in toStart && n in creatable)
      ensures forall n :: starts[n] == old(starts)[n]
                                       + if n !in old(startedControllers) && n in toStart && n in creatable then 1 else 0
      ensures cancels == old(cancels)
    {
      var left := toStart;
      while left != {}
        invariant forall n :: n in left ==> n in toStart
        invariant forall n :: n in startedControllers <==>
                    n in old(startedControllers) || (n in toStart && n !in left && n in creatable)
        invariant forall n :: starts[n] == old(starts)[n]
                    + if n !in old(startedControllers) && n in toStart && n !in left && n in creatable then 1 else 0
        invariant cancels == old(cancels)
        decreases |left|
      {
        var name :| name in left;
        left := left - {name};
        if name !in startedControllers && name in creatable {
          startedControllers := startedControllers + {name};
          starts := starts[name := starts[name] + 1];
        }
      }
    }

    /** One resynchronisation. */
    method Process(input: Input) returns (resync: bool)
      modifies this
      ensures Now() == Resynced(managed, old(Now()), input)
      ensures resync <==> SomeoneWaits(managed, input.synced, input.notSynced)
    {
      var toStart;
      toStart, resync := ToStart(input.synced, input.notSynced);
      ghost var started := startedControllers;
      StopObsolete(toStart);
      assert startedControllers == started * toStart;
      StartMissing(toStart, input.creatable);
      ResyncedByCounts(managed, old(Now()), input, Now());
    }
  }

  /** What a call does, controller by controller. */
  lemma ResyncedByCounts(managed: Managed, s: State, input: Input, s': State)
    requires var ready := Ready(managed, input.synced);
             && (forall n :: n in s'.started <==> n in ready && (n in s.started || n in input.creatable))
             && (forall n :: s'.starts[n] == s.starts[n]
                             + if n in ready && n !in s.started && n in input.creatable then 1 else 0)
             && (forall n :: s'.cancels[n] == s.cancels[n] + if n in s.started && n !in ready then 1 else 0)
    ensures s' == Resynced(managed, s, input)
  {
    var ready := Ready(managed, input.synced);
    CountsAsMultiset(s.starts, (ready - s.started) * input.creatable, s'.starts);
    CountsAsMultiset(s.cancels, s.started - ready, s'.cancels);
    assert s'.started == s.started * ready + (ready - s.started) * input.creatable;
  }

  lemma CountsAsMultiset(before: multiset<string>, names: set<string>, after: multiset<string>)
    requires forall n :: after[n] == before[n] + if n in names then 1 else 0
    ensures after == before + multiset(names)
  {
  }

  lemma HasAllOfPrefix(required: seq<Gvr>, synced: set<Gvr>, i: nat)
    requires i <= |required|
    ensures HasAll(required[..i], synced) <==> forall k | 0 <= k < i :: required[k] in synced
  {
    if HasAll(required[..i], synced) {
      forall k | 0 <= k < i ensures required[k] in synced {
        assert required[..i][k] in required[..i];
      }
    }
  }

  lemma FirstMissing(required: seq<Gvr>, synced: set<Gvr>, notSynced: seq<Gvr>, i: nat)
    requires i < |required| && required[i] !in synced && HasAll(required[..i], synced)
    ensures !HasAll(required, synced)
    ensures WaitsFor(required, synced, notSynced) <==> required[i] in notSynced
  {
    HasAllOfPrefix(required, synced, i);
    if WaitsFor(required, synced, notSynced) {
      var j :| 0 <= j < |required| && required[j] !in synced && required[j] in notSynced && HasAll(required[..j], synced);
      HasAllOfPrefix(required, synced, j);
      assert j == i;
    }
  }

  // ----- runs -----

  /** Each controller was started once more than it was cancelled if it is running,
      and equally often if it is not. */
  ghost predicate Balanced(s: State) {
    forall n :: s.starts[n] == s.cancels[n] + if n in s.started then 1 else 0
  }

  function Run(managed: Managed, s: State, inputs: seq<Input>): State
    decreases |inputs|
  {
    if inputs == [] then s else Run(managed, Resynced(managed, s, inputs[0]), inputs[1..])
  }

  lemma ProcessBalances(managed: Managed, s: State, input: Input)
    requires Balanced(s)
    ensures Balanced(Resynced(managed, s, input))
  {
    var ready := Ready(managed, input.synced);
    var s' := Resynced(managed, s, input);
    forall n ensures s'.starts[n] == s'.cancels[n] + if n in s'.started then 1 else 0 {
      assert s.starts[n] == s.cancels[n] + if n in s.started then 1 else 0;
      assert multiset((ready - s.started) * input.creatable)[n] == if n in (ready - s.started) * input.creatable then 1 else 0;
      assert multiset(s.started - ready)[n] == if n in s.started - ready then 1 else 0;
    }
  }

  /** Main result: over every sequence of changes of the informers and of failures
      to create, starts minus cancellations is one for a running controller and
      zero for any other, and after each call every running controller has all
      its resources. */
  lemma {:induction false} RunsBalance(managed: Managed, s: State, inputs: seq<Input>)
    requires Balanced(s)
    ensures Balanced(Run(managed, s, inputs))
    ensures inputs != [] ==> forall n | n in Run(managed, s, inputs).started ::
              n in managed && forall g | g in managed[n] :: g in inputs[|inputs| - 1].synced
    decreases |inputs|
  {
    if inputs != [] {
      var s' := Resynced(managed, s, inputs[0]);
      ProcessBalances(managed, s, inputs[0]);
      RunsBalance(managed, s', inputs[1..]);
      if |inputs| > 1 { assert inputs[1..][|inputs| - 2] == inputs[|inputs| - 1]; }
    }
  }

  /** What a call does to each controller: one whose resources are all synced runs on, or
      is started once if it can be created; any other that runs is cancelled once. */
  lemma EachIsDecided(managed: Managed, s: State, input: Input, n: string)
    ensures var r := Resynced(managed, s, input);
            var ready := n in managed && forall g | g in managed[n] :: g in input.synced;
            && (n in r.started <==> ready && (n in s.started || n in input.creatable))
            && r.starts[n] == s.starts[n] + (if ready && n !in s.started && n in input.creatable then 1 else 0)
            && r.cancels[n] == s.cancels[n] + (if n in s.started && !ready then 1 else 0)
  {
    var ready := Ready(managed, input.synced);
    assert multiset((ready - s.started) * input.creatable)[n] == if n in (ready - s.started) * input.creatable then 1 else 0;
    assert multiset(s.started - ready)[n] == if n in s.started - ready then 1 else 0;
  }

  /** A controller waits exactly when the first of its resources that is not synced is
      one of those that are to be. */
  lemma WaitsIff(managed: Managed, synced: set<Gvr>, notSynced: seq<Gvr>)
    ensures SomeoneWaits(managed, synced, notSynced)
            <==> exists n, i :: n in managed && 0 <= i < |managed[n]| && managed[n][i] !in synced && managed[n][i] in notSynced
                                && forall j | 0 <= j < i :: managed[n][j] in synced
  {
    forall n, i | n in managed && 0 <= i <= |managed[n]|
      ensures HasAll(managed[n][..i], synced) <==> forall j | 0 <= j < i :: managed[n][j] in synced
    {
      HasAllOfPrefix(managed[n], synced, i);
    }
    if exists n, i :: n in managed && 0 <= i < |managed[n]| && managed[n][i] !in synced && managed[n][i] in notSynced
                      && forall j | 0 <= j < i :: managed[n][j] in synced {
      var n, i :| n in managed && 0 <= i < |managed[n]| && managed[n][i] !in synced && managed[n][i] in notSynced
                  && forall j | 0 <= j < i :: managed[n][j] in synced;
      assert WaitsFor(managed[n], synced, notSynced);
    }
  }

  /** Main result: a running controller whose resources stay synced is neither
      cancelled nor started again. */
  lemma {:induction false} ReadyStaysRunning(managed: Managed, s: State, inputs: seq<Input>, n: string)
    requires n in s.started && n in managed
    requires forall input | input in inputs :: HasAll(managed[n], input.synced)
    ensures var r := Run(managed, s, inputs);
            n in r.started && r.starts[n] == s.starts[n] && r.cancels[n] == s.cancels[n]
    decreases |inputs|
  {
    if inputs != [] {
      ReadyStaysRunning(managed, Resynced(managed, s, inputs[0]), inputs[1..], n);
    }
  }

  /** Main result: after a call exactly the controllers with all their resources
      run, exactly when each of them was running or could be created. */
  lemma AllReadyRunIff(managed: Managed, s: State, input: Input)
    ensures Resynced(managed, s, input).started == Ready(managed, input.synced)
            <==> Ready(managed, input.synced) <= s.started + input.creatable
  {
    var ready := Ready(managed, input.synced);
    var r := Resynced(managed, s, input).started;
    if ready <= s.started + input.creatable {
      assert r == ready;
    } else {
      var n :| n in ready && n !in s.started + input.creatable;
      assert n !in r;
    }
  }
}
