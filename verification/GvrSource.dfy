/** The resources that the syncer of a target watches
    (pkg/syncer/synctarget/gvr_source.go). */
module GvrSource {
  import opened Wrappers
  import opened Kube

  type Metadata = string

  /** One entry of the synced resources in the status of the sync target. */
  datatype SyncedResource = SyncedResource(group: string, resource: string, accepted: bool, versions: seq<string>)

  const BUILTIN: set<Gvr> := {CONFIG_MAPS, SECRETS}

  /** The answer to the access review of a resource. */
  datatype Access = Allowed | Denied | ReviewFailed

  type Reviews = Gvr -> Access
  type Discovery = Gvr -> Option<Metadata>

  function VersionsOf(r: SyncedResource): set<Gvr> {
    set v | v in r.versions :: Gvr(r.group, v, r.resource)
  }

  ghost predicate IsRequired(resources: Option<seq<SyncedResource>>, g: Gvr) {
    || g == Gvr("", "v1", "configmaps") || g == Gvr("", "v1", "secrets")
    || (resources.Some? && exists r :: r in resources.value && r.accepted
                                       && g.group == r.group && g.resource == r.resource && g.version in r.versions)
  }

  method GetAllGVRs(resources: Option<seq<SyncedResource>>) returns (gvrs: set<Gvr>)
    ensures forall g :: g in gvrs <==> IsRequired(resources, g)
  {
    gvrs := BUILTIN;
    if resources.None? { return; }
    var list := resources.value;
    for i := 0 to |list|
      invariant forall g :: g in gvrs <==> g in BUILTIN || exists r :: r in list[..i] && r.accepted && g in VersionsOf(r)
    {
      var r := list[i];
      assert list[..i + 1] == list[..i] + [r];
      ghost var before := gvrs;
      if r.accepted {
        for j := 0 to |r.versions|
          invariant gvrs == before + set v | v in r.versions[..j] :: Gvr(r.group, v, r.resource)
        {
          assert r.versions[..j + 1] == r.versions[..j] + [r.versions[j]];
          gvrs := gvrs + {Gvr(r.group, r.versions[j], r.resource)};
        }
        assert r.versions[..|r.versions|] == r.versions;
        assert gvrs == before + VersionsOf(r);
      }
    }
    assert list[..|list|] == list;
  }

  /** A resource stays watched, or becomes watched. */
  predicate Stays(watched: map<Gvr, Metadata>, required: set<Gvr>, review: Reviews, g: Gvr) {
    g in watched && g in required && review(g) != Denied
  }

  predicate Appears(watched: map<Gvr, Metadata>, required: set<Gvr>, review: Reviews, discover: Discovery, g: Gvr) {
    g !in watched && g in required && review(g) == Allowed && discover(g).Some?
  }

  /** What is watched after a reconcile. */
  function Reconciled(watched: map<Gvr, Metadata>, required: set<Gvr>, review: Reviews, discover: Discovery): map<Gvr, Metadata> {
    map g | g in required && (Stays(watched, required, review, g) || Appears(watched, required, review, discover, g)) ::
      if g in watched then watched[g] else discover(g).value
  }

  predicate HasFailure(watched: map<Gvr, Metadata>, review: Reviews, discover: Discovery, g: Gvr) {
    review(g) == ReviewFailed || (review(g) == Allowed && g !in watched && discover(g).None?)
  }

  /** The source of resources, with the one-slot channels of its subscribers: true
      stands for a token that waits in the channel. */
  class SyncTargetGvrSource {
    var gvrsToWatch: map<Gvr, Metadata>
    var subscribers: seq<bool>

    constructor ()
      ensures gvrsToWatch == map[] && subscribers == []
    {
      gvrsToWatch, subscribers := map[], [];
    }

    method Subscribe() returns (channel: nat)
      modifies this`subscribers
      ensures channel == |old(subscribers)| && subscribers == old(subscribers) + [false]
    {
      channel := |subscribers|;
      subscribers := subscribers + [false];
    }

    /** Sends to every channel that is not full. */
    method NotifySubscribers()
      modifies this`subscribers
      ensures |subscribers| == |old(subscribers)| && forall i | 0 <= i < |subscribers| :: subscribers[i]
    {
      for i := 0 to |subscribers|
        invariant |subscribers| == |old(subscribers)|
        invariant forall j | 0 <= j < i :: subscribers[j]
      {
        if !subscribers[i] { subscribers := subscribers[i := true]; }
      }
    }

    method RemoveUnusedGVRs(required: set<Gvr>) returns (updated: bool)
      modifies this`gvrsToWatch
      ensures gvrsToWatch == map g | g in old(gvrsToWatch) && g in required :: old(gvrsToWatch)[g]
      ensures updated <==> gvrsToWatch.Keys != old(gvrsToWatch).Keys
    {
      updated := false;
      var left := gvrsToWatch.Keys;
      while left != {}
        invariant left <= old(gvrsToWatch).Keys
        invariant gvrsToWatch == map g | g in old(gvrsToWatch) && (g in left || g in required) :: old(gvrsToWatch)[g]
        invariant updated <==> exists g :: g in old(gvrsToWatch) && g !in left && g !in required
        decreases |left|
      {
        var g :| g in left;
        left := left - {g};
        if g !in required {
          gvrsToWatch := gvrsToWatch - {g};
          updated := true;
        }
      }
    }

    method AddGVR(g: Gvr, discover: Discovery) returns (added: bool, failed: bool)
      modifies this`gvrsToWatch
      ensures added <==> g !in old(gvrsToWatch) && discover(g).Some?
      ensures failed <==> g !in old(gvrsToWatch) && discover(g).None?
      ensures gvrsToWatch == if added then old(gvrsToWatch)[g := discover(g).value] else old(gvrsToWatch)
    {
      added, failed := false, false;
      if g in gvrsToWatch { return; }
      var metadata := discover(g);
      if metadata.None? { return false, true; }
      gvrsToWatch := gvrsToWatch[g := metadata.value];
      added := true;
    }

    /** Main result: after a reconcile the watched resources are the required ones
        that are allowed and already watched or discovered, and the already
        watched ones whose review failed; subscribers are notified exactly when
        the set of resources changed. */
    method Reconcile(resources: Option<seq<SyncedResource>>, review: Reviews, discover: Discovery)
      returns (unauthorized: set<Gvr>, failed: bool, ghost required: set<Gvr>)
      modifies this
      ensures forall g :: g in required <==> IsRequired(resources, g)
      ensures gvrsToWatch == Reconciled(old(gvrsToWatch), required, review, discover)
      ensures |subscribers| == |old(subscribers)|
      ensures forall i | 0 <= i < |subscribers| ::
                subscribers[i] == (old(subscribers)[i] || gvrsToWatch.Keys != old(gvrsToWatch).Keys)
      ensures unauthorized == set g | g in required && review(g) != Allowed
      ensures failed
              <==> exists g :: g in required
                     && (review(g) == ReviewFailed || (review(g) == Allowed && g !in old(gvrsToWatch) && discover(g).None?))
    {
      var remaining := GetAllGVRs(resources);
      required := remaining;
      ghost var watched := gvrsToWatch;
      var left := remaining;
      var notify := false;
      unauthorized, failed := {}, false;
      NothingReviewed(watched, required, review, discover);
      while left != {}
        invariant left <= required && subscribers == old(subscribers)
        invariant Progress(gvrsToWatch, remaining, unauthorized, failed, notify)
                  == ProgressAfter(watched, required, required - left, review, discover)
        decreases |left|
      {
        var g :| g in left;
        OneMoreReviewed(watched, required, required - left, review, discover, g);
        assert required - left + {g} == required - (left - {g});
        left := left - {g};
        match review(g)
        case ReviewFailed =>
          unauthorized, failed := unauthorized + {g}, true;
        case Denied =>
          remaining, unauthorized := remaining - {g}, unauthorized + {g};
        case Allowed =>
          var added, missing := AddGVR(g, discover);
          if missing { failed := true; }
          if added { notify := true; }
      }
      ghost var all := gvrsToWatch;
      assert required - left == required;
      var removed := RemoveUnusedGVRs(remaining);
      FinalSet(watched, all, required, remaining, review, discover);
      if removed { notify := true; }
      if notify { NotifySubscribers(); }
      FailuresAre(watched, required, review, discover);
    }
  }

  /** The resources of `done` that were not watched before and were added. */
  function Added(watched: map<Gvr, Metadata>, done: set<Gvr>, review: Reviews, discover: Discovery): map<Gvr, Metadata> {
    map g | g in done && Appears(watched, done, review, discover, g) :: discover(g).value
  }

  function Failures(watched: map<Gvr, Metadata>, done: set<Gvr>, review: Reviews, discover: Discovery): set<Gvr> {
    set g | g in done && HasFailure(watched, review, discover, g)
  }

  lemma FailuresAre(watched: map<Gvr, Metadata>, required: set<Gvr>, review: Reviews, discover: Discovery)
    ensures Failures(watched, required, review, discover) != {}
            <==> exists g :: g in required
                   && (review(g) == ReviewFailed || (review(g) == Allowed && g !in watched && discover(g).None?))
  {
    var failures := Failures(watched, required, review, discover);
    assert forall g :: g in failures <==> g in required && HasFailure(watched, review, discover, g);
    assert failures != {} <==> exists g :: g in failures;
  }

  /** What the loop has computed when it is done with some resources. */
  datatype Progress = Progress(
    watched: map<Gvr, Metadata>, remaining: set<Gvr>, unauthorized: set<Gvr>, failed: bool, notify: bool)

  function ProgressAfter(watched: map<Gvr, Metadata>, required: set<Gvr>, done: set<Gvr>, review: Reviews, discover: Discovery)
    : Progress
  {
    var added := Added(watched, done, review, discover);
    Progress(watched + added,
             (set g | g in required && !(g in done && review(g) == Denied)),
             (set g | g in done && review(g) != Allowed),
             Failures(watched, done, review, discover) != {},
             added != map[])
  }

  lemma NothingReviewed(watched: map<Gvr, Metadata>, required: set<Gvr>, review: Reviews, discover: Discovery)
    ensures ProgressAfter(watched, required, required - required, review, discover)
            == Progress(watched, required, {}, false, false)
  {
  }

  lemma AddedOneMore(watched: map<Gvr, Metadata>, done: set<Gvr>, review: Reviews, discover: Discovery, g: Gvr)
    requires g !in done
    ensures Added(watched, done + {g}, review, discover)
            == if g !in watched && review(g) == Allowed && discover(g).Some?
               then Added(watched, done, review, discover)[g := discover(g).value]
               else Added(watched, done, review, discover)
    ensures Failures(watched, done + {g}, review, discover)
            == Failures(watched, done, review, discover) + if HasFailure(watched, review, discover, g) then {g} else {}
  {
  }

  lemma OneMoreReviewed(watched: map<Gvr, Metadata>, required: set<Gvr>, done: set<Gvr>, review: Reviews, discover: Discovery,
                        g: Gvr)
    requires g !in done && g in required
    ensures var p, q := ProgressAfter(watched, required, done, review, discover),
                        ProgressAfter(watched, required, done + {g}, review, discover);
            && (g in p.watched <==> g in watched)
            && q == match review(g)
                    case ReviewFailed => p.(unauthorized := p.unauthorized + {g}, failed := true)
                    case Denied => p.(remaining := p.remaining - {g}, unauthorized := p.unauthorized + {g})
                    case Allowed =>
                      if g in watched then p
                      else if discover(g).None? then p.(failed := true)
                      else p.(watched := p.watched[g := discover(g).value], notify := true)
  {
    var p, q := ProgressAfter(watched, required, done, review, discover),
                ProgressAfter(watched, required, done + {g}, review, discover);
    AddedOneMore(watched, done, review, discover, g);
    assert q.remaining == if review(g) == Denied then p.remaining - {g} else p.remaining;
    assert q.unauthorized == if review(g) != Allowed then p.unauthorized + {g} else p.unauthorized;
    if g !in watched && review(g) == Allowed && discover(g).Some? {
      assert g in Added(watched, done + {g}, review, discover);
      assert q.watched == p.watched[g := discover(g).value];
    }
  }

  /** Removing what is not required any more from what was watched or added. */
  lemma FinalSet(watched: map<Gvr, Metadata>, all: map<Gvr, Metadata>, required: set<Gvr>, remaining: set<Gvr>,
                 review: Reviews, discover: Discovery)
    requires remaining == set g | g in required && review(g) != Denied
    requires all == watched + Added(watched, required, review, discover)
    ensures (map g | g in all && g in remaining :: all[g]) == Reconciled(watched, required, review, discover)
    ensures Added(watched, required, review, discover) != map[] || (exists g :: g in all && g !in remaining)
            <==> Reconciled(watched, required, review, discover).Keys != watched.Keys
  {
    var added, r := Added(watched, required, review, discover), Reconciled(watched, required, review, discover);
    assert forall g :: g in r && g !in watched ==> g in added;
    if added != map[] {
      var g :| g in added;
      assert g in r && g !in watched;
    } else if exists g :: g in all && g !in remaining {
      var g :| g in all && g !in remaining;
      assert g in watched && g !in r;
    } else {
      assert r.Keys == watched.Keys;
    }
  }

  /** Main result: a second reconcile with the same answers changes nothing. */
  lemma ReconcileIsIdempotent(watched: map<Gvr, Metadata>, required: set<Gvr>, review: Reviews, discover: Discovery)
    ensures var r := Reconciled(watched, required, review, discover);
            Reconciled(r, required, review, discover) == r
  {
    var r := Reconciled(watched, required, review, discover);
    forall g ensures !Appears(r, required, review, discover, g) {
      WatchedIff(watched, required, review, discover, g);
    }
    assert Reconciled(r, required, review, discover).Keys == r.Keys;
  }

  /** Nothing but the answers for a resource itself decides about it: a failed
      review keeps a watched resource and adds no other. */
  lemma WatchedIff(watched: map<Gvr, Metadata>, required: set<Gvr>, review: Reviews, discover: Discovery, g: Gvr)
    ensures g in Reconciled(watched, required, review, discover)
            <==> g in required
                 && ((review(g) == Allowed && (g in watched || discover(g).Some?)) || (review(g) == ReviewFailed && g in watched))
    ensures g in Reconciled(watched, required, review, discover) ==>
              Reconciled(watched, required, review, discover)[g] == if g in watched then watched[g] else discover(g).value
  {
  }
}
