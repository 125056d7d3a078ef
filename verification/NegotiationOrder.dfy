/** When the negotiated schema does not depend on the order of the imports, and
    when it does (pkg/reconciler/apiresource/negotiation.go). */
module NegotiationOrder {
  import opened Wrappers
  import opened Negotiation

  ghost predicate IsLowerBound(ops: Ops, x: Schema, imports: map<string, Import>, names: set<string>) {
    forall n | n in names && n in imports :: Leq(ops, x, imports[n].schema)
  }

  ghost predicate IsGlb(ops: Ops, m: Schema, imports: map<string, Import>, names: set<string>) {
    && IsLowerBound(ops, m, imports, names)
    && forall x | IsLowerBound(ops, x, imports, names) :: Leq(ops, x, m)
  }

  ghost predicate MeetsExist(ops: Ops) {
    forall a, b :: ops.compat(a, b, true).Some?
  }

  ghost predicate SameSchemas(a: map<string, Import>, b: map<string, Import>) {
    a.Keys == b.Keys && forall n | n in a :: a[n].schema == b[n].schema
  }

  lemma GlbBySchemas(ops: Ops, m: Schema, a: map<string, Import>, b: map<string, Import>, names: set<string>)
    requires SameSchemas(a, b)
    ensures IsGlb(ops, m, a, names) <==> IsGlb(ops, m, b, names)
  {
    assert forall x :: IsLowerBound(ops, x, a, names) <==> IsLowerBound(ops, x, b, names);
  }

  lemma GlbsAreEquivalent(ops: Ops, m: Schema, k: Schema, imports: map<string, Import>, names: set<string>)
    requires IsGlb(ops, m, imports, names) && IsGlb(ops, k, imports, names)
    ensures Equivalent(ops, m, k)
  {
  }

  /** The meet of a greatest lower bound with one more schema. */
  lemma GlbWithOneMore(ops: Ops, m: Schema, k: Schema, imports: map<string, Import>, names: set<string>, name: string)
    requires Lawful(ops) && name in imports
    requires IsGlb(ops, m, imports, names) && IsMeet(ops, k, m, imports[name].schema)
    ensures IsGlb(ops, k, imports, names + {name})
  {
    forall n | n in names + {name} && n in imports ensures Leq(ops, k, imports[n].schema) {
      if n in names { assert Transitive(ops, k, m, imports[n].schema); }
    }
    forall x | IsLowerBound(ops, x, imports, names + {name}) ensures Leq(ops, x, k) {
      assert IsLowerBound(ops, x, imports, names);
      assert name in names + {name};
    }
  }

  /** What the loop has reached: nothing, or the greatest lower bound of the
      schemas of the imports it is done with. */
  ghost predicate Reached(ops: Ops, negotiated: Option<Negotiated>, imports: map<string, Import>, done: set<string>) {
    if negotiated.None? then done == {} else IsGlb(ops, negotiated.value.schema, imports, done)
  }

  predicate MayUpdate(negotiated: Option<Negotiated>, imp: Import) {
    negotiated.None? || MayNarrow(negotiated.value, imp)
  }

  lemma KeptReaches(ops: Ops, current: Option<Negotiated>, imports: map<string, Import>, name: string, done: set<string>)
    requires Lawful(ops) && MeetsExist(ops) && name in imports
    requires Reached(ops, current, imports, done) && MayUpdate(current, imports[name])
    ensures IsGlb(ops, Kept(ops, current, imports[name]), imports, done + {name})
  {
    var schema := imports[name].schema;
    if current.Some? {
      var lcd := ops.compat(current.value.schema, schema, true);
      assert IsMeet(ops, lcd.value, current.value.schema, schema);
      GlbWithOneMore(ops, current.value.schema, lcd.value, imports, done, name);
    } else {
      assert Leq(ops, schema, schema);
      assert name in done + {name};
    }
  }

  lemma ExamineSameSchema(ops: Ops, stored: Option<Negotiated>, f: Folding, name: string)
    requires name in f.imports
    ensures SameSchemas(f.imports, Turn(ops, stored, f, name).imports)
    ensures forall n | n in f.imports :: Turn(ops, stored, f, name).imports[n].strategy == f.imports[n].strategy
  {
    ExamineMarks(ops, stored, f.negotiated, f.imports[name]);
  }

  lemma TurnReaches(ops: Ops, stored: Option<Negotiated>, f: Folding, name: string, done: set<string>)
    requires Lawful(ops) && MeetsExist(ops) && name in f.imports
    requires Reached(ops, f.negotiated, f.imports, done) && MayUpdate(f.negotiated, f.imports[name])
    ensures var f' := Turn(ops, stored, f, name);
            f'.negotiated.Some? && IsGlb(ops, f'.negotiated.value.schema, f'.imports, done + {name})
  {
    var f' := Turn(ops, stored, f, name);
    KeptReaches(ops, f.negotiated, f.imports, name, done);
    ExamineKeeps(ops, stored, f.negotiated, f.imports[name]);
    ExamineSameSchema(ops, stored, f, name);
    GlbBySchemas(ops, f'.negotiated.value.schema, f.imports, f'.imports, done + {name});
  }

  /** Whether an import may update depends on its strategy and on the conditions of
      the negotiated resource, which the loop leaves as they are. */
  lemma TurnKeepsPermissions(ops: Ops, stored: Option<Negotiated>, f: Folding, name: string, other: string)
    requires name in f.imports && other in f.imports
    requires CanUpdate(f.imports[other].strategy, false) && MayUpdate(f.negotiated, f.imports[other])
    ensures var f' := Turn(ops, stored, f, name);
            MayUpdate(f'.negotiated, f'.imports[other]) && CanUpdate(f'.imports[other].strategy, false)
  {
    ExamineReports(ops, stored, f.negotiated, f.imports[name]);
    ExamineSameSchema(ops, stored, f, name);
  }

  ghost predicate AllPermitted(f: Folding, names: seq<string>) {
    forall n | n in names ::
      n in f.imports && CanUpdate(f.imports[n].strategy, false) && MayUpdate(f.negotiated, f.imports[n])
  }

  lemma PermittedNext(ops: Ops, stored: Option<Negotiated>, f: Folding, names: seq<string>)
    requires names != [] && AllPermitted(f, names)
    ensures AllPermitted(Turn(ops, stored, f, names[0]), names[1..])
  {
    var f' := Turn(ops, stored, f, names[0]);
    forall n | n in names[1..]
      ensures n in f'.imports && CanUpdate(f'.imports[n].strategy, false) && MayUpdate(f'.negotiated, f'.imports[n])
    {
      TurnKeepsPermissions(ops, stored, f, names[0], n);
    }
  }

  lemma NamesDone(done: set<string>, names: seq<string>)
    ensures names == [] ==> done + (set n | n in names) == done
    ensures names != [] ==> done + {names[0]} + (set n | n in names[1..]) == done + set n | n in names
  {
    if names != [] { assert names == [names[0]] + names[1..]; }
  }

  lemma {:induction false} FoldReaches(ops: Ops, stored: Option<Negotiated>, f: Folding, names: seq<string>, done: set<string>)
    requires Lawful(ops) && MeetsExist(ops)
    requires AllPermitted(f, names)
    requires Reached(ops, f.negotiated, f.imports, done)
    ensures var r := Fold(ops, stored, f, names);
            Reached(ops, r.negotiated, r.imports, done + set n | n in names)
    decreases |names|
  {
    NamesDone(done, names);
    if names != [] {
      var name := names[0];
      var f' := Turn(ops, stored, f, name);
      TurnReaches(ops, stored, f, name, done);
      PermittedNext(ops, stored, f, names);
      FoldReaches(ops, stored, f', names[1..], done + {name});
    }
  }

  /** Every import may update a negotiated resource that is not published. */
  ghost predicate AllMayUpdate(imports: map<string, Import>) {
    forall n | n in imports :: imports[n].strategy.UpdateUnpublished? || imports[n].strategy.UpdatePublished?
  }

  /** Computing from scratch gives the greatest lower bound, in any order. */
  lemma BatchIsGlb(ops: Ops, s: State, order: seq<string>)
    requires Lawful(ops) && MeetsExist(ops) && AllMayUpdate(s.imports)
    requires order != [] && IsOrderOf(order, s.imports)
    ensures var r := Ensure(ops, s, None, order, None);
            r.negotiated.Some? && IsGlb(ops, r.negotiated.value.schema, s.imports, s.imports.Keys)
  {
    var f := Folding(None, false, s.imports);
    FoldReaches(ops, s.negotiated, f, order, {});
    FoldTouches(ops, s.negotiated, f, order);
    FoldReports(ops, s.negotiated, f, order);
    var r := Fold(ops, s.negotiated, f, order);
    assert {} + (set n | n in order) == s.imports.Keys;
    GlbBySchemas(ops, r.negotiated.value.schema, s.imports, r.imports, s.imports.Keys);
    UpdatedByFirst(ops, s.negotiated, f, order);
  }

  lemma UpdatedByFirst(ops: Ops, stored: Option<Negotiated>, f: Folding, names: seq<string>)
    requires (forall n | n in names :: n in f.imports) && names != [] && f.negotiated.None?
    ensures Fold(ops, stored, f, names).updated
  {
    var f' := Turn(ops, stored, f, names[0]);
    assert f'.updated;
    FoldReports(ops, stored, f', names[1..]);
  }

  /** Imports processed one at a time, in any order and as often as one likes,
      while others publish and unpublish the negotiated resource: every import is
      allowed to update it at the moment it is processed. */
  ghost predicate IsNarrowingRun(ops: Ops, w: World, steps: seq<Step>)
    requires IsRun(ops, w, steps)
    decreases |steps|
  {
    steps == [] || (
      && (steps[0].ProcessImport? || steps[0].ChangeNegotiated?)
      && (steps[0].ProcessImport? ==> MayUpdate(w.state.negotiated, w.state.imports[steps[0].name]))
      && IsNarrowingRun(ops, Next(ops, w, steps[0]), steps[1..]))
  }

  function Processed(steps: seq<Step>): set<string> {
    if steps == [] then {}
    else (if steps[0].ProcessImport? then {steps[0].name} else {}) + Processed(steps[1..])
  }

  lemma ProcessReaches(ops: Ops, w: World, name: string, done: set<string>)
    requires Lawful(ops) && MeetsExist(ops) && name in w.state.imports
    requires MayUpdate(w.state.negotiated, w.state.imports[name])
    requires Reached(ops, w.state.negotiated, w.state.imports, done)
    ensures var s := Next(ops, w, ProcessImport(name)).state;
            Reached(ops, s.negotiated, s.imports, done + {name}) && SameSchemas(w.state.imports, s.imports)
  {
    var s := w.state;
    var f := Folding(s.negotiated, false, s.imports);
    TurnReaches(ops, s.negotiated, f, name, done);
    ExamineSameSchema(ops, s.negotiated, f, name);
    ExamineReports(ops, s.negotiated, s.negotiated, s.imports[name]);
    var f' := Turn(ops, s.negotiated, f, name);
    assert [name][1..] == [];
    assert Fold(ops, s.negotiated, f, [name]) == Fold(ops, s.negotiated, f', []) == f';
    assert Next(ops, w, ProcessImport(name)).state == State(f'.imports, f'.negotiated);
  }

  lemma {:induction false} NarrowingRunReaches(ops: Ops, w: World, steps: seq<Step>, done: set<string>)
    requires Lawful(ops) && MeetsExist(ops) && IsRun(ops, w, steps) && IsNarrowingRun(ops, w, steps)
    requires Reached(ops, w.state.negotiated, w.state.imports, done)
    ensures var s := After(ops, w, steps).state;
            Reached(ops, s.negotiated, s.imports, done + Processed(steps)) && SameSchemas(w.state.imports, s.imports)
    decreases |steps|
  {
    if steps == [] {
      assert done + Processed(steps) == done;
    } else {
      var w' := Next(ops, w, steps[0]);
      if steps[0].ProcessImport? {
        ProcessReaches(ops, w, steps[0].name, done);
        NarrowingRunReaches(ops, w', steps[1..], done + {steps[0].name});
        assert done + {steps[0].name} + Processed(steps[1..]) == done + Processed(steps);
      } else {
        NarrowingRunReaches(ops, w', steps[1..], done);
        assert done + Processed(steps[1..]) == done + Processed(steps);
      }
    }
  }

  /** Main result: when all meets exist and every import may update, processing the
      imports one at a time, in any order and with any repetitions, ends with the
      schema that computing from scratch gives in any order, and both are the
      greatest lower bound of all schemas. */
  lemma IncrementalIsBatch(ops: Ops, w: World, steps: seq<Step>, order: seq<string>)
    requires Lawful(ops) && MeetsExist(ops) && AllMayUpdate(w.state.imports)
    requires w.state.negotiated.None?
    requires IsRun(ops, w, steps) && IsNarrowingRun(ops, w, steps) && Processed(steps) == w.state.imports.Keys
    requires order != [] && IsOrderOf(order, w.state.imports)
    ensures var incremental := After(ops, w, steps).state.negotiated;
            var batch := Ensure(ops, w.state, None, order, None).negotiated;
            && incremental.Some? && batch.Some?
            && Equivalent(ops, incremental.value.schema, batch.value.schema)
            && IsGlb(ops, incremental.value.schema, w.state.imports, w.state.imports.Keys)
  {
    NarrowingRunReaches(ops, w, steps, {});
    BatchIsGlb(ops, w.state, order);
    var s := After(ops, w, steps).state;
    assert {} + Processed(steps) == w.state.imports.Keys;
    assert order[0] in w.state.imports.Keys;
    GlbBySchemas(ops, s.negotiated.value.schema, w.state.imports, s.imports, w.state.imports.Keys);
    GlbsAreEquivalent(ops, s.negotiated.value.schema, Ensure(ops, w.state, None, order, None).negotiated.value.schema,
                      w.state.imports, w.state.imports.Keys);
  }

  /** Two imports from scratch: the first one gives its schema, the second one
      narrows it if it can. */
  lemma TwoFromScratch(ops: Ops, s: State, a: string, b: string)
    requires a in s.imports && b in s.imports && a != b
    ensures var r := Ensure(ops, s, None, [a, b], None);
            && r.negotiated.Some? && r.imports.Keys == s.imports.Keys
            && r.negotiated.value.schema == Kept(ops, Some(FromImport(s.imports[a], s.negotiated)), s.imports[b])
            && Marked(r.imports[a])
            && (Marked(r.imports[b]) <==>
                  ops.compat(s.imports[a].schema, s.imports[b].schema, CanUpdate(s.imports[b].strategy, false)).Some?)
  {
    var f := Folding(None, false, s.imports);
    var f1 := Turn(ops, s.negotiated, f, a);
    var f2 := Turn(ops, s.negotiated, f1, b);
    assert [a, b][1..] == [b] && [b][1..] == [];
    assert Fold(ops, s.negotiated, f, [a, b]) == Fold(ops, s.negotiated, f1, [b]) == Fold(ops, s.negotiated, f2, []) == f2;
    UpdatedByFirst(ops, s.negotiated, f, [a, b]);
    ExamineMarks(ops, s.negotiated, None, s.imports[a]);
    ExamineMarks(ops, s.negotiated, f1.negotiated, s.imports[b]);
    ExamineKeeps(ops, s.negotiated, f1.negotiated, s.imports[b]);
    assert f1.negotiated == Some(FromImport(s.imports[a], s.negotiated));
    assert f2.imports[a] == f1.imports[a];
  }

  /** Main result: where meets may be missing, two imports that may update give the
      same schema in both orders exactly when the comparison narrows both ways;
      otherwise whoever comes first wins. */
  lemma OrderDoesNotMatterIff(ops: Ops, s: State, a: string, b: string)
    requires Lawful(ops) && a != b && s.imports.Keys == {a, b} && AllMayUpdate(s.imports)
    ensures var ab, ba := Ensure(ops, s, None, [a, b], None), Ensure(ops, s, None, [b, a], None);
            var x, y := s.imports[a].schema, s.imports[b].schema;
            && ab.negotiated.Some? && ba.negotiated.Some? && b in ab.imports
            && (Equivalent(ops, ab.negotiated.value.schema, ba.negotiated.value.schema)
                <==> ops.compat(x, y, true).Some? && ops.compat(y, x, true).Some?)
            && (ops.compat(x, y, true).None? ==> ab.negotiated.value.schema == x && !Marked(ab.imports[b]))
  {
    TwoFromScratch(ops, s, a, b);
    TwoFromScratch(ops, s, b, a);
    var x, y := s.imports[a].schema, s.imports[b].schema;
    var xy, yx := ops.compat(x, y, true), ops.compat(y, x, true);
    if xy.Some? && yx.Some? {
      assert IsMeet(ops, xy.value, x, y) && IsMeet(ops, yx.value, y, x);
    } else if xy.Some? {
      assert IsMeet(ops, xy.value, x, y);
      assert Transitive(ops, y, xy.value, x);
    } else if yx.Some? {
      assert IsMeet(ops, yx.value, y, x);
      assert Transitive(ops, x, yx.value, y);
    }
  }

  // ----- any imports, all orders -----

  /** The schema computed from scratch in an order. */
  function Scratch(ops: Ops, s: State, order: seq<string>): Option<Schema>
    requires forall n | n in order :: n in s.imports
  {
    var r := Ensure(ops, s, None, order, None).negotiated;
    if r.None? then None else Some(r.value.schema)
  }

  lemma ScratchIsFold(ops: Ops, s: State, order: seq<string>)
    requires order != [] && forall n | n in order :: n in s.imports
    ensures var r := Fold(ops, s.negotiated, Folding(None, false, s.imports), order);
            r.negotiated.Some? && Scratch(ops, s, order) == Some(r.negotiated.value.schema)
  {
    var f := Folding(None, false, s.imports);
    FoldReports(ops, s.negotiated, f, order);
    UpdatedByFirst(ops, s.negotiated, f, order);
  }

  /** A turn adds its import to the greatest lower bound, or leaves it out. */
  lemma TurnReachesOrStays(ops: Ops, stored: Option<Negotiated>, f: Folding, name: string, done: set<string>)
    requires Lawful(ops) && name in f.imports && MayUpdate(f.negotiated, f.imports[name])
    requires Reached(ops, f.negotiated, f.imports, done)
    ensures var f' := Turn(ops, stored, f, name);
            && f'.negotiated.Some?
            && (Reached(ops, f'.negotiated, f'.imports, done + {name}) || Reached(ops, f'.negotiated, f'.imports, done))
  {
    var f' := Turn(ops, stored, f, name);
    var schema := f.imports[name].schema;
    ExamineKeeps(ops, stored, f.negotiated, f.imports[name]);
    ExamineSameSchema(ops, stored, f, name);
    GlbBySchemas(ops, f'.negotiated.value.schema, f.imports, f'.imports, done + {name});
    GlbBySchemas(ops, f'.negotiated.value.schema, f.imports, f'.imports, done);
    if f.negotiated.None? {
      assert Leq(ops, schema, schema);
      assert name in done + {name};
    } else {
      var current := f.negotiated.value.schema;
      var lcd := ops.compat(current, schema, true);
      if lcd.Some? {
        assert IsMeet(ops, lcd.value, current, schema);
        GlbWithOneMore(ops, current, lcd.value, f.imports, done, name);
      }
    }
  }

  /** The loop ends with the greatest lower bound of some of its imports. */
  lemma {:induction false} FoldReachesSome(ops: Ops, stored: Option<Negotiated>, f: Folding, names: seq<string>, done: set<string>)
    returns (kept: set<string>)
    requires Lawful(ops)
    requires AllPermitted(f, names)
    requires Reached(ops, f.negotiated, f.imports, done)
    ensures var r := Fold(ops, stored, f, names); Reached(ops, r.negotiated, r.imports, kept)
    decreases |names|
  {
    if names == [] {
      kept := done;
    } else {
      var f' := Turn(ops, stored, f, names[0]);
      TurnReachesOrStays(ops, stored, f, names[0], done);
      PermittedNext(ops, stored, f, names);
      if Reached(ops, f'.negotiated, f'.imports, done + {names[0]}) {
        kept := FoldReachesSome(ops, stored, f', names[1..], done + {names[0]});
      } else {
        kept := FoldReachesSome(ops, stored, f', names[1..], done);
      }
    }
  }

  lemma {:induction false} FoldNarrows(ops: Ops, stored: Option<Negotiated>, f: Folding, names: seq<string>)
    requires Lawful(ops) && f.negotiated.Some? && forall n | n in names :: n in f.imports
    ensures var r := Fold(ops, stored, f, names);
            r.negotiated.Some? && Leq(ops, r.negotiated.value.schema, f.negotiated.value.schema)
    decreases |names|
  {
    if names == [] {
      assert Leq(ops, f.negotiated.value.schema, f.negotiated.value.schema);
    } else {
      var f' := Turn(ops, stored, f, names[0]);
      ExamineNarrows(ops, stored, f.negotiated, f.imports[names[0]]);
      FoldNarrows(ops, stored, f', names[1..]);
      var r := Fold(ops, stored, f, names);
      assert Transitive(ops, r.negotiated.value.schema, f'.negotiated.value.schema, f.negotiated.value.schema);
    }
  }

  /** The first import of an order is always satisfied. */
  lemma FirstIsSatisfied(ops: Ops, s: State, order: seq<string>)
    requires Lawful(ops) && order != [] && forall n | n in order :: n in s.imports
    ensures Scratch(ops, s, order).Some? && Leq(ops, Scratch(ops, s, order).value, s.imports[order[0]].schema)
  {
    var f := Folding(None, false, s.imports);
    ScratchIsFold(ops, s, order);
    ExamineKeeps(ops, s.negotiated, None, s.imports[order[0]]);
    FoldNarrows(ops, s.negotiated, Turn(ops, s.negotiated, f, order[0]), order[1..]);
  }

  /** Anything that satisfies all imports is below what any order computes. */
  lemma BoundsAreBelow(ops: Ops, s: State, order: seq<string>, x: Schema)
    requires Lawful(ops) && AllMayUpdate(s.imports) && order != [] && IsOrderOf(order, s.imports)
    requires IsLowerBound(ops, x, s.imports, s.imports.Keys)
    ensures Scratch(ops, s, order).Some? && Leq(ops, x, Scratch(ops, s, order).value)
  {
    var f := Folding(None, false, s.imports);
    ScratchIsFold(ops, s, order);
    var kept := FoldReachesSome(ops, s.negotiated, f, order, {});
    var r := Fold(ops, s.negotiated, f, order);
    FoldTouches(ops, s.negotiated, f, order);
    GlbBySchemas(ops, r.negotiated.value.schema, s.imports, r.imports, kept);
    assert IsLowerBound(ops, x, s.imports, kept);
  }

  lemma OrderOf(names: set<string>) returns (order: seq<string>)
    ensures Distinct(order) && forall n :: n in order <==> n in names
  {
    if names == {} {
      order := [];
    } else {
      var n :| n in names;
      var rest := OrderOf(names - {n});
      order := [n] + rest;
    }
  }

  lemma OrderFrom(names: set<string>, first: string) returns (order: seq<string>)
    requires first in names
    ensures Distinct(order) && (forall n :: n in order <==> n in names) && order != [] && order[0] == first
  {
    var rest := OrderOf(names - {first});
    order := [first] + rest;
  }

  ghost predicate OrdersAgree(ops: Ops, s: State) {
    forall a, b | IsOrderOf(a, s.imports) && IsOrderOf(b, s.imports) :: SameFromScratch(ops, s, a, b)
  }

  predicate SameFromScratch(ops: Ops, s: State, a: seq<string>, b: seq<string>)
    requires (forall n | n in a :: n in s.imports) && forall n | n in b :: n in s.imports
  {
    var x, y := Scratch(ops, s, a), Scratch(ops, s, b);
    x.Some? && y.Some? && Equivalent(ops, x.value, y.value)
  }

  predicate SatisfiesAll(ops: Ops, s: State, order: seq<string>)
    requires forall n | n in order :: n in s.imports
  {
    var x := Scratch(ops, s, order);
    x.Some? && forall n | n in s.imports :: Leq(ops, x.value, s.imports[n].schema)
  }

  lemma AgreeingOrdersSatisfyAll(ops: Ops, s: State, order: seq<string>)
    requires Lawful(ops) && s.imports != map[] && IsOrderOf(order, s.imports) && OrdersAgree(ops, s)
    ensures SatisfiesAll(ops, s, order)
  {
    assert SameFromScratch(ops, s, order, order);
    forall n | n in s.imports ensures Leq(ops, Scratch(ops, s, order).value, s.imports[n].schema) {
      var other := OrderFrom(s.imports.Keys, n);
      assert IsOrderOf(other, s.imports);
      assert SameFromScratch(ops, s, order, other);
      FirstIsSatisfied(ops, s, other);
      assert Transitive(ops, Scratch(ops, s, order).value, Scratch(ops, s, other).value, s.imports[n].schema);
    }
  }

  lemma OrderIsNotEmpty(s: State, order: seq<string>)
    requires s.imports != map[] && IsOrderOf(order, s.imports)
    ensures order != []
  {
    var n :| n in s.imports;
    assert n in order;
  }

  lemma SatisfyingOrdersAgree(ops: Ops, s: State, a: seq<string>, b: seq<string>)
    requires Lawful(ops) && AllMayUpdate(s.imports) && s.imports != map[]
    requires IsOrderOf(a, s.imports) && IsOrderOf(b, s.imports) && SatisfiesAll(ops, s, a) && SatisfiesAll(ops, s, b)
    ensures SameFromScratch(ops, s, a, b)
  {
    OrderIsNotEmpty(s, a);
    OrderIsNotEmpty(s, b);
    BoundsAreBelow(ops, s, b, Scratch(ops, s, a).value);
    BoundsAreBelow(ops, s, a, Scratch(ops, s, b).value);
  }

  /** Main result: for any imports that may update, all orders give the same schema
      if and only if every order ends with one that satisfies all imports, also
      those it could not narrow for. */
  lemma OrdersAgreeIff(ops: Ops, s: State)
    requires Lawful(ops) && AllMayUpdate(s.imports) && s.imports != map[]
    ensures OrdersAgree(ops, s) <==> forall order | IsOrderOf(order, s.imports) :: SatisfiesAll(ops, s, order)
  {
    if OrdersAgree(ops, s) {
      forall order | IsOrderOf(order, s.imports) ensures SatisfiesAll(ops, s, order) {
        AgreeingOrdersSatisfyAll(ops, s, order);
      }
    }
    if forall order | IsOrderOf(order, s.imports) :: SatisfiesAll(ops, s, order) {
      forall a, b | IsOrderOf(a, s.imports) && IsOrderOf(b, s.imports) ensures SameFromScratch(ops, s, a, b) {
        SatisfyingOrdersAgree(ops, s, a, b);
      }
    }
  }

  /** The comparison narrows whenever there is anything that satisfies both. */
  ghost predicate FindsBounds(ops: Ops) {
    forall a, b, x | Leq(ops, x, a) && Leq(ops, x, b) :: ops.compat(a, b, true).Some?
  }

  lemma BoundedTurn(ops: Ops, stored: Option<Negotiated>, f: Folding, name: string, done: set<string>, x: Schema)
    requires Lawful(ops) && FindsBounds(ops) && name in f.imports && done <= f.imports.Keys
    requires MayUpdate(f.negotiated, f.imports[name]) && IsLowerBound(ops, x, f.imports, f.imports.Keys)
    requires Reached(ops, f.negotiated, f.imports, done)
    ensures var f' := Turn(ops, stored, f, name);
            Reached(ops, f'.negotiated, f'.imports, done + {name}) && IsLowerBound(ops, x, f'.imports, f'.imports.Keys)
  {
    var f' := Turn(ops, stored, f, name);
    var schema := f.imports[name].schema;
    ExamineKeeps(ops, stored, f.negotiated, f.imports[name]);
    ExamineSameSchema(ops, stored, f, name);
    GlbBySchemas(ops, f'.negotiated.value.schema, f.imports, f'.imports, done + {name});
    if f.negotiated.None? {
      assert Leq(ops, schema, schema);
      assert name in done + {name};
    } else {
      var current := f.negotiated.value.schema;
      assert IsLowerBound(ops, x, f.imports, done);
      assert Leq(ops, x, current) && Leq(ops, x, schema);
      var lcd := ops.compat(current, schema, true);
      assert IsMeet(ops, lcd.value, current, schema);
      GlbWithOneMore(ops, current, lcd.value, f.imports, done, name);
    }
  }

  lemma {:induction false} BoundedFold(ops: Ops, stored: Option<Negotiated>, f: Folding, names: seq<string>, done: set<string>, x: Schema)
    requires Lawful(ops) && FindsBounds(ops) && done <= f.imports.Keys && IsLowerBound(ops, x, f.imports, f.imports.Keys)
    requires AllPermitted(f, names)
    requires Reached(ops, f.negotiated, f.imports, done)
    ensures var r := Fold(ops, stored, f, names); Reached(ops, r.negotiated, r.imports, done + set n | n in names)
    decreases |names|
  {
    NamesDone(done, names);
    if names != [] {
      var name := names[0];
      var f' := Turn(ops, stored, f, name);
      BoundedTurn(ops, stored, f, name, done, x);
      ExamineSameSchema(ops, stored, f, name);
      PermittedNext(ops, stored, f, names);
      BoundedFold(ops, stored, f', names[1..], done + {name}, x);
    }
  }

  lemma BoundedOrderSatisfiesAll(ops: Ops, s: State, order: seq<string>, x: Schema)
    requires Lawful(ops) && FindsBounds(ops) && AllMayUpdate(s.imports) && s.imports != map[]
    requires IsOrderOf(order, s.imports) && IsLowerBound(ops, x, s.imports, s.imports.Keys)
    ensures SatisfiesAll(ops, s, order)
  {
    var f := Folding(None, false, s.imports);
    OrderIsNotEmpty(s, order);
    ScratchIsFold(ops, s, order);
    BoundedFold(ops, s.negotiated, f, order, {}, x);
    var r := Fold(ops, s.negotiated, f, order);
    FoldTouches(ops, s.negotiated, f, order);
    assert {} + (set n | n in order) == s.imports.Keys;
    GlbBySchemas(ops, r.negotiated.value.schema, s.imports, r.imports, s.imports.Keys);
  }

  /** Main result: where the comparison narrows whenever it can, all orders give the
      same schema if and only if some schema satisfies all imports. */
  lemma OrdersAgreeIffBounded(ops: Ops, s: State)
    requires Lawful(ops) && FindsBounds(ops) && AllMayUpdate(s.imports) && s.imports != map[]
    ensures OrdersAgree(ops, s) <==> exists x :: IsLowerBound(ops, x, s.imports, s.imports.Keys)
  {
    OrdersAgreeIff(ops, s);
    var order := OrderOf(s.imports.Keys);
    assert IsOrderOf(order, s.imports);
    if OrdersAgree(ops, s) {
      assert SatisfiesAll(ops, s, order);
      assert IsLowerBound(ops, Scratch(ops, s, order).value, s.imports, s.imports.Keys);
    }
    if x :| IsLowerBound(ops, x, s.imports, s.imports.Keys) {
      forall o | IsOrderOf(o, s.imports) ensures SatisfiesAll(ops, s, o) {
        BoundedOrderSatisfiesAll(ops, s, o, x);
      }
    }
  }
}
