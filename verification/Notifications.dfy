/** Notifying subscribers over one-slot channels while resources are added and
    removed one by one (pkg/syncer/synctarget/gvr_source.go). */
module Notifications {
  import opened Wrappers
  import opened Kube
  import opened GvrSource

  type Watched = map<Gvr, Metadata>

  /** A subscriber: whether a token waits in its channel, whether it took a token
      and has not read the resources since, and what it last read. */
  datatype Subscriber = Subscriber(token: bool, woken: bool, lastRead: Option<Watched>)

  /** Where a reconcile is: it changes the resources and remembers whether it
      changed any; then it sends to the subscribers one after the other, which
      keeps new subscribers out. */
  datatype Phase = Idle | Changing(changed: bool) | Notifying(next: nat)

  datatype State = State(watched: Watched, phase: Phase, subscribers: seq<Subscriber>)

  datatype Step =
    | Begin
    | Add(g: Gvr, metadata: Metadata)
    | RemoveUnused(remaining: set<Gvr>)
    | StartNotifying
    | Send
    | EndReconcile
    | Subscribe
    | Receive(i: nat)
    | ReadResources(i: nat)

  function Kept(watched: Watched, remaining: set<Gvr>): Watched {
    map g | g in watched && g in remaining :: watched[g]
  }

  predicate Enabled(s: State, step: Step) {
    match step
    case Begin => s.phase == Idle
    case Add(g, metadata) => s.phase.Changing? && g !in s.watched
    case RemoveUnused(remaining) => s.phase.Changing?
    case StartNotifying => s.phase == Changing(true)
    case Send => s.phase.Notifying? && s.phase.next < |s.subscribers|
    case EndReconcile => s.phase == Changing(false) || (s.phase.Notifying? && s.phase.next >= |s.subscribers|)
    case Subscribe => !s.phase.Notifying?
    case Receive(i) => i < |s.subscribers| && s.subscribers[i].token
    case ReadResources(i) => i < |s.subscribers|
  }

  function Next(s: State, step: Step): State
    requires Enabled(s, step)
  {
    match step
    case Begin => s.(phase := Changing(false))
    case Add(g, metadata) => s.(watched := s.watched[g := metadata], phase := Changing(true))
    case RemoveUnused(remaining) =>
      var kept := Kept(s.watched, remaining);
      s.(watched := kept, phase := Changing(s.phase.changed || kept.Keys != s.watched.Keys))
    case StartNotifying => s.(phase := Notifying(0))
    case Send =>
      // a full channel keeps the token it has
      var n := s.phase.next;
      s.(subscribers := s.subscribers[n := s.subscribers[n].(token := true)], phase := Notifying(n + 1))
    case EndReconcile => s.(phase := Idle)
    case Subscribe => s.(subscribers := s.subscribers + [Subscriber(false, false, None)])
    case Receive(i) => s.(subscribers := s.subscribers[i := s.subscribers[i].(token := false, woken := true)])
    case ReadResources(i) =>
      s.(subscribers := s.subscribers[i := s.subscribers[i].(woken := false, lastRead := Some(s.watched))])
  }

  predicate IsOutOfDate(s: State, i: nat)
    requires i < |s.subscribers|
  {
    var read := s.subscribers[i].lastRead;
    read.Some? && read.value != s.watched
  }

  /** A reconcile that changed the resources has not sent to the subscriber yet. */
  predicate WillBeSent(phase: Phase, i: nat) {
    phase == Changing(true) || (phase.Notifying? && phase.next <= i)
  }

  ghost predicate NothingLost(s: State) {
    forall i | 0 <= i < |s.subscribers| && IsOutOfDate(s, i) ::
      s.subscribers[i].token || s.subscribers[i].woken || WillBeSent(s.phase, i)
  }

  lemma StepKeepsNothingLost(s: State, step: Step)
    requires NothingLost(s) && Enabled(s, step)
    ensures NothingLost(Next(s, step))
  {
    var s' := Next(s, step);
    forall i | 0 <= i < |s'.subscribers| && IsOutOfDate(s', i)
      ensures s'.subscribers[i].token || s'.subscribers[i].woken || WillBeSent(s'.phase, i)
    {
      if step.RemoveUnused? && !s'.phase.changed {
        assert Kept(s.watched, step.remaining) == s.watched;
      }
      if i < |s.subscribers| && s'.watched == s.watched && s'.subscribers[i].lastRead == s.subscribers[i].lastRead {
        assert IsOutOfDate(s, i);
      }
    }
  }

  ghost predicate IsRun(s: State, steps: seq<Step>)
    decreases |steps|
  {
    steps == [] || (Enabled(s, steps[0]) && IsRun(Next(s, steps[0]), steps[1..]))
  }

  ghost function After(s: State, steps: seq<Step>): State
    requires IsRun(s, steps)
    decreases |steps|
  {
    if steps == [] then s else After(Next(s, steps[0]), steps[1..])
  }

  /** Main result: in every interleaving of reconciles, subscriptions, receives and
      reads, a subscriber whose last reading is out of date has a token waiting,
      has taken one and will read, or will still be sent to by the reconcile
      that changed the resources. */
  lemma {:induction false} NoLostWakeUp(s: State, steps: seq<Step>)
    requires NothingLost(s) && IsRun(s, steps)
    ensures NothingLost(After(s, steps))
    decreases |steps|
  {
    if steps != [] {
      StepKeepsNothingLost(s, steps[0]);
      NoLostWakeUp(Next(s, steps[0]), steps[1..]);
    }
  }

  /** Main result: once reconciles have ended and every subscriber has emptied its
      channel and read after its last token, all of them have read the current
      resources, however many changes shared one token. */
  lemma QuietMeansUpToDate(steps: seq<Step>, i: nat)
    requires IsRun(State(map[], Idle, []), steps)
    requires var s := After(State(map[], Idle, []), steps);
             && s.phase == Idle && i < |s.subscribers| && s.subscribers[i].lastRead.Some?
             && !s.subscribers[i].token && !s.subscribers[i].woken
    ensures var s := After(State(map[], Idle, []), steps);
            s.subscribers[i].lastRead == Some(s.watched)
  {
    NoLostWakeUp(State(map[], Idle, []), steps);
    assert !IsOutOfDate(After(State(map[], Idle, []), steps), i);
  }
}
