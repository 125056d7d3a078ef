/** Negotiating one schema for one resource from the schemas that its imports
    bring (pkg/reconciler/apiresource/negotiation.go). */
module Negotiation {
  import opened Wrappers
  import opened Conditions

  const INCOMPATIBLE_SCHEMA := "IncompatibleSchema"

  /** Schemas are stored as JSON text. */
  type Schema = string

  datatype Strategy = UpdateNever | UpdateUnpublished | UpdatePublished | UnknownStrategy(text: string)

  predicate CanUpdate(s: Strategy, published: bool) {
    s.UpdatePublished? || (s.UpdateUnpublished? && !published)
  }

  datatype Import = Import(schema: Schema, strategy: Strategy, conditions: seq<Condition>)

  datatype Negotiated = Negotiated(schema: Schema, publish: bool, conditions: seq<Condition>)

  /** All imports and the negotiated resource, if there is one, of one resource. */
  datatype State = State(imports: map<string, Import>, negotiated: Option<Negotiated>)

  /** The schema comparison, kept abstract: `compat(existing, new, narrow)`. */
  datatype Ops = Ops(leq: (Schema, Schema) -> bool, compat: (Schema, Schema, bool) -> Option<Schema>)

  /** Every document that is valid for `a` is valid for `b`. */
  predicate Leq(ops: Ops, a: Schema, b: Schema) {
    ops.leq(a, b)
  }

  predicate Transitive(ops: Ops, a: Schema, b: Schema, c: Schema) {
    Leq(ops, a, b) && Leq(ops, b, c) ==> Leq(ops, a, c)
  }

  predicate Equivalent(ops: Ops, a: Schema, b: Schema) {
    Leq(ops, a, b) && Leq(ops, b, a)
  }

  ghost predicate IsMeet(ops: Ops, m: Schema, a: Schema, b: Schema) {
    Leq(ops, m, a) && Leq(ops, m, b) && forall x | Leq(ops, x, a) && Leq(ops, x, b) :: Leq(ops, x, m)
  }

  /** What is assumed of the schema comparison: without narrowing it succeeds
      exactly when the new schema accepts what the existing one does; with
      narrowing it succeeds then, too, and always finds a greatest lower bound. */
  ghost predicate Lawful(ops: Ops) {
    && (forall a :: Leq(ops, a, a))
    && (forall a, b, c :: Transitive(ops, a, b, c))
    && (forall a, b {:trigger ops.compat(a, b, false)} :: ops.compat(a, b, false).Some? <==> Leq(ops, a, b))
    && (forall a, b {:trigger ops.compat(a, b, true)} ::
          && (Leq(ops, a, b) ==> ops.compat(a, b, true).Some?)
          && (ops.compat(a, b, true).Some? ==> IsMeet(ops, ops.compat(a, b, true).value, a, b)))
  }

  // ----- one import against the negotiated resource -----

  datatype Examined = Examined(negotiated: Negotiated, updated: bool, imp: Import)

  function MayNarrow(n: Negotiated, imp: Import): bool {
    !IsTrue(n.conditions, Enforced) && CanUpdate(imp.strategy, IsTrue(n.conditions, Published))
  }

  function Mark(imp: Import, c: Condition): Import {
    imp.(conditions := Set(imp.conditions, c))
  }

  predicate Marked(imp: Import) {
    IsTrue(imp.conditions, Compatible)
  }

  /** A negotiated resource made from the first import keeps from a stored one
      only whether it is to be published. */
  function FromImport(imp: Import, stored: Option<Negotiated>): Negotiated {
    Negotiated(imp.schema, stored.Some? && stored.value.publish, [])
  }

  function Examine(ops: Ops, stored: Option<Negotiated>, current: Option<Negotiated>, imp: Import): Examined {
    match current
    case None => Examined(FromImport(imp, stored), true, Mark(imp, Condition(Compatible, True, "")))
    case Some(n) =>
      match ops.compat(n.schema, imp.schema, MayNarrow(n, imp))
      case None => Examined(n, false, Mark(imp, Condition(Compatible, False, INCOMPATIBLE_SCHEMA)))
      case Some(lcd) =>
        var marked := Mark(imp, Condition(Compatible, True, ""));
        Examined(if MayNarrow(n, imp) then n.(schema := lcd) else n,
                 MayNarrow(n, imp),
                 if IsTrue(n.conditions, Published) then Mark(marked, Condition(Available, True, "")) else marked)
  }

  datatype Folding = Folding(negotiated: Option<Negotiated>, updated: bool, imports: map<string, Import>)

  /** One turn of the loop. */
  function Turn(ops: Ops, stored: Option<Negotiated>, f: Folding, name: string): Folding
    requires name in f.imports
  {
    var x := Examine(ops, stored, f.negotiated, f.imports[name]);
    Folding(Some(x.negotiated), f.updated || x.updated, f.imports[name := x.imp])
  }

  /** The loop over the imports, in the order the index gives them. */
  function Fold(ops: Ops, stored: Option<Negotiated>, f: Folding, names: seq<string>): Folding
    requires forall n | n in names :: n in f.imports
    decreases |names|
  {
    if names == [] then f
    else Fold(ops, stored, Turn(ops, stored, f, names[0]), names[1..])
  }

  /** A resource enforced by a CRD that was created by hand. */
  function FromCRD(schema: Schema): Negotiated {
    Negotiated(schema, true, [Condition(Published, True, ""), Condition(Enforced, True, "")])
  }

  /** Which negotiated resource a comparison starts from. */
  function StartFrom(s: State, given: Option<string>, manual: Option<Schema>): Option<Negotiated> {
    if manual.Some? then Some(FromCRD(manual.value))
    else if given.Some? then s.negotiated
    else None
  }

  function NamesOf(given: Option<string>, order: seq<string>): seq<string> {
    if given.Some? then [given.value] else order
  }

  /** The whole of ensureAPIResourceCompatibility: for one given import, or from
      scratch for all imports. */
  function Ensure(ops: Ops, s: State, given: Option<string>, order: seq<string>, manual: Option<Schema>): State
    requires forall n | n in NamesOf(given, order) :: n in s.imports
  {
    var names := NamesOf(given, order);
    if names == [] then s
    else
      var r := Fold(ops, s.negotiated, Folding(StartFrom(s, given, manual), false, s.imports), names);
      State(r.imports, if s.negotiated.None? || r.updated then r.negotiated else s.negotiated)
  }

  // ----- the controller -----

  class Controller {
    const ops: Ops
    var imports: map<string, Import>
    var negotiated: Option<Negotiated>

    constructor (ops: Ops, s: State)
      ensures this.ops == ops && imports == s.imports && negotiated == s.negotiated
    {
      this.ops := ops;
      imports, negotiated := s.imports, s.negotiated;
    }

    method EnsureAPIResourceCompatibility(given: Option<string>, order: seq<string>, manual: Option<Schema>)
      requires forall n | n in NamesOf(given, order) :: n in imports
      modifies this
      ensures State(imports, negotiated) == Ensure(ops, State(old(imports), old(negotiated)), given, order, manual)
    {
      var stored := negotiated;
      var names := NamesOf(given, order);
      if names == [] { return; }
      var newNegotiated: Option<Negotiated> := None;
      if given.Some? { newNegotiated := stored; }
      if manual.Some? { newNegotiated := Some(FromCRD(manual.value)); }
      var updated := false;
      var marked := imports;
      ghost var start := Folding(newNegotiated, false, imports);
      for i := 0 to |names|
        invariant unchanged(this)
        invariant marked.Keys == imports.Keys
        invariant Fold(ops, stored, start, names) == Fold(ops, stored, Folding(newNegotiated, updated, marked), names[i..])
        invariant i > 0 ==> newNegotiated.Some?
      {
        var imp := marked[names[i]];
        if newNegotiated.None? {
          newNegotiated := Some(FromImport(imp, stored));
          updated := true;
          imp := Mark(imp, Condition(Compatible, True, ""));
        } else {
          var n := newNegotiated.value;
          var allowUpdate := !IsTrue(n.conditions, Enforced) && CanUpdate(imp.strategy, IsTrue(n.conditions, Published));
          var lcd := ops.compat(n.schema, imp.schema, allowUpdate);
          if lcd.None? {
            imp := Mark(imp, Condition(Compatible, False, INCOMPATIBLE_SCHEMA));
          } else {
            imp := Mark(imp, Condition(Compatible, True, ""));
            if IsTrue(n.conditions, Published) {
              imp := Mark(imp, Condition(Available, True, ""));
            }
            if allowUpdate {
              newNegotiated := Some(n.(schema := lcd.value));
              updated := true;
            }
          }
        }
        marked := marked[names[i] := imp];
        assert names[i..][1..] == names[i + 1..];
      }
      assert names[0..] == names;
      if stored.None? || updated { negotiated := newNegotiated; }
      imports := marked;
    }
  }

  // ----- marks and the negotiated schema -----

  lemma MarkingMarks(imp: Import, status: Status, reason: string)
    ensures Marked(Mark(imp, Condition(Compatible, status, reason))) <==> status == True
    ensures Marked(Mark(imp, Condition(Available, status, reason))) <==> Marked(imp)
  {
    SetIsLocal(imp.conditions, Condition(Compatible, status, reason), Compatible);
    SetIsLocal(imp.conditions, Condition(Available, status, reason), Compatible);
  }

  /** An examined import is marked exactly when the comparison succeeded. */
  lemma ExamineMarks(ops: Ops, stored: Option<Negotiated>, current: Option<Negotiated>, imp: Import)
    ensures var r := Examine(ops, stored, current, imp);
            && r.imp.schema == imp.schema && r.imp.strategy == imp.strategy
            && (Marked(r.imp) <==>
                  current.None? || ops.compat(current.value.schema, imp.schema, MayNarrow(current.value, imp)).Some?)
  {
    var marked := Mark(imp, Condition(Compatible, True, ""));
    MarkingMarks(imp, True, "");
    MarkingMarks(marked, True, "");
    MarkingMarks(imp, False, INCOMPATIBLE_SCHEMA);
  }

  /** A comparison leaves a schema that is no wider and satisfies the import if it
      succeeded. */
  lemma ComparisonNarrows(ops: Ops, n: Negotiated, imp: Import)
    requires Lawful(ops)
    ensures var lcd := ops.compat(n.schema, imp.schema, MayNarrow(n, imp));
            var kept := if MayNarrow(n, imp) && lcd.Some? then lcd.value else n.schema;
            Leq(ops, kept, n.schema) && (lcd.Some? ==> Leq(ops, kept, imp.schema))
  {
    assert Leq(ops, n.schema, n.schema);
    var lcd := ops.compat(n.schema, imp.schema, MayNarrow(n, imp));
    if lcd.Some? && MayNarrow(n, imp) {
      assert IsMeet(ops, lcd.value, n.schema, imp.schema);
    }
  }

  /** The schema an examination ends with. */
  function Kept(ops: Ops, current: Option<Negotiated>, imp: Import): Schema {
    if current.None? then imp.schema
    else
      var lcd := ops.compat(current.value.schema, imp.schema, MayNarrow(current.value, imp));
      if MayNarrow(current.value, imp) && lcd.Some? then lcd.value else current.value.schema
  }

  lemma ExamineKeeps(ops: Ops, stored: Option<Negotiated>, current: Option<Negotiated>, imp: Import)
    ensures Examine(ops, stored, current, imp).negotiated.schema == Kept(ops, current, imp)
  {
  }

  lemma KeptNarrows(ops: Ops, current: Option<Negotiated>, imp: Import)
    requires Lawful(ops)
    ensures current.Some? ==> Leq(ops, Kept(ops, current, imp), current.value.schema)
    ensures current.None? || ops.compat(current.value.schema, imp.schema, MayNarrow(current.value, imp)).Some?
            ==> Leq(ops, Kept(ops, current, imp), imp.schema)
  {
    if current.Some? {
      ComparisonNarrows(ops, current.value, imp);
    } else {
      assert Leq(ops, imp.schema, imp.schema);
    }
  }

  /** The schema that results from an examination satisfies a marked import, and a
      schema only ever becomes narrower. */
  lemma ExamineNarrows(ops: Ops, stored: Option<Negotiated>, current: Option<Negotiated>, imp: Import)
    requires Lawful(ops)
    ensures var r := Examine(ops, stored, current, imp);
            && (Marked(r.imp) ==> Leq(ops, r.negotiated.schema, imp.schema))
            && (current.Some? ==> Leq(ops, r.negotiated.schema, current.value.schema))
  {
    ExamineMarks(ops, stored, current, imp);
    ExamineKeeps(ops, stored, current, imp);
    KeptNarrows(ops, current, imp);
  }

  /** Only the schema changes, and every change is reported. */
  lemma ExamineReports(ops: Ops, stored: Option<Negotiated>, current: Option<Negotiated>, imp: Import)
    ensures var r := Examine(ops, stored, current, imp);
            && (current.None? ==> r.updated)
            && (current.Some? ==> r.negotiated == current.value.(schema := r.negotiated.schema))
            && (!r.updated ==> current == Some(r.negotiated))
  {
  }

  ghost predicate Satisfied(ops: Ops, negotiated: Option<Negotiated>, imp: Import) {
    Marked(imp) ==> negotiated.Some? && Leq(ops, negotiated.value.schema, imp.schema)
  }

  lemma NarrowingKeepsSatisfied(ops: Ops, before: Option<Negotiated>, after: Negotiated, imp: Import)
    requires Lawful(ops) && Satisfied(ops, before, imp)
    requires before.Some? ==> Leq(ops, after.schema, before.value.schema)
    ensures Satisfied(ops, Some(after), imp)
  {
    if Marked(imp) { assert Transitive(ops, after.schema, before.value.schema, imp.schema); }
  }

  predicate Distinct(names: seq<string>) {
    forall i, j | 0 <= i < j < |names| :: names[i] != names[j]
  }

  /** The loop writes conditions of the imports it was given, and nothing else. */
  lemma {:induction false} FoldTouches(ops: Ops, stored: Option<Negotiated>, f: Folding, names: seq<string>)
    requires forall n | n in names :: n in f.imports
    ensures var r := Fold(ops, stored, f, names);
            && r.imports.Keys == f.imports.Keys
            && forall n | n in f.imports ::
                 (n in names || r.imports[n] == f.imports[n]) && r.imports[n].schema == f.imports[n].schema
    decreases |names|
  {
    if names != [] {
      ExamineMarks(ops, stored, f.negotiated, f.imports[names[0]]);
      FoldTouches(ops, stored, Turn(ops, stored, f, names[0]), names[1..]);
    }
  }

  /** An update is reported whenever the negotiated resource changed. */
  lemma {:induction false} FoldReports(ops: Ops, stored: Option<Negotiated>, f: Folding, names: seq<string>)
    requires forall n | n in names :: n in f.imports
    ensures var r := Fold(ops, stored, f, names);
            && (f.updated ==> r.updated)
            && (names != [] ==> r.negotiated.Some?)
            && (!r.updated ==> r.negotiated == f.negotiated)
    decreases |names|
  {
    if names != [] {
      ExamineReports(ops, stored, f.negotiated, f.imports[names[0]]);
      FoldReports(ops, stored, Turn(ops, stored, f, names[0]), names[1..]);
    }
  }

  lemma DistinctTail(names: seq<string>, done: set<string>)
    requires Distinct(names) && names != [] && forall n | n in names :: n !in done
    ensures Distinct(names[1..]) && forall n | n in names[1..] :: n !in done + {names[0]}
  {
  }

  lemma TurnSatisfies(ops: Ops, stored: Option<Negotiated>, f: Folding, name: string, done: set<string>)
    requires Lawful(ops) && name in f.imports && name !in done && done <= f.imports.Keys
    requires forall n | n in done :: Satisfied(ops, f.negotiated, f.imports[n])
    ensures var f' := Turn(ops, stored, f, name);
            forall n | n in done + {name} :: Satisfied(ops, f'.negotiated, f'.imports[n])
  {
    var x := Examine(ops, stored, f.negotiated, f.imports[name]);
    ExamineMarks(ops, stored, f.negotiated, f.imports[name]);
    ExamineNarrows(ops, stored, f.negotiated, f.imports[name]);
    assert Satisfied(ops, Some(x.negotiated), x.imp);
    forall n | n in done ensures Satisfied(ops, Some(x.negotiated), f.imports[n]) {
      NarrowingKeepsSatisfied(ops, f.negotiated, x.negotiated, f.imports[n]);
    }
    TurnSpreads(ops, stored, f, name, done, x);
  }

  lemma TurnSpreads(ops: Ops, stored: Option<Negotiated>, f: Folding, name: string, done: set<string>, x: Examined)
    requires name in f.imports && name !in done && done <= f.imports.Keys
    requires x == Examine(ops, stored, f.negotiated, f.imports[name])
    requires Satisfied(ops, Some(x.negotiated), x.imp)
    requires forall n | n in done :: Satisfied(ops, Some(x.negotiated), f.imports[n])
    ensures var f' := Turn(ops, stored, f, name);
            forall n | n in done + {name} :: Satisfied(ops, f'.negotiated, f'.imports[n])
  {
    var f' := Turn(ops, stored, f, name);
    assert f'.negotiated == Some(x.negotiated);
    forall n | n in done + {name} ensures Satisfied(ops, f'.negotiated, f'.imports[n]) {
      assert f'.imports[n] == if n == name then x.imp else f.imports[n];
    }
  }

  /** After the loop every import it examined, and every import that was satisfied
      before, is satisfied by the schema it ends with. */
  lemma {:induction false} FoldSatisfies(ops: Ops, stored: Option<Negotiated>, f: Folding, names: seq<string>, done: set<string>)
    requires Lawful(ops) && Distinct(names)
    requires (forall n | n in names :: n in f.imports && n !in done) && done <= f.imports.Keys
    requires forall n | n in done :: Satisfied(ops, f.negotiated, f.imports[n])
    ensures var r := Fold(ops, stored, f, names);
            r.imports.Keys == f.imports.Keys
            && forall n | n in r.imports && (n in done || n in names) :: Satisfied(ops, r.negotiated, r.imports[n])
    decreases |names|
  {
    if names != [] {
      var name := names[0];
      var f' := Turn(ops, stored, f, name);
      TurnSatisfies(ops, stored, f, name, done);
      DistinctTail(names, done);
      FoldSatisfies(ops, stored, f', names[1..], done + {name});
    }
  }

  // ----- runs -----

  /** A state together with the imports whose schema was written since they were
      last examined; this bookkeeping belongs to the model. */
  datatype World = World(state: State, unexamined: set<string>)

  datatype Step =
    | CreateImport(name: string, imp: Import)
    | ChangeImport(name: string, schema: Schema, strategy: Strategy)
    | RemoveImport(name: string)
    | ProcessImport(name: string)
    | ProcessRemoval(order: seq<string>)
    | Recompute(order: seq<string>)
    | ChangeNegotiated(publish: bool, conditions: seq<Condition>)
    | SpreadAvailability
    | Cleanup

  ghost predicate IsOrderOf(order: seq<string>, imports: map<string, Import>) {
    Distinct(order) && forall n :: n in order <==> n in imports
  }

  ghost predicate Enabled(w: World, step: Step) {
    match step
    case CreateImport(name, imp) => name !in w.state.imports
    case ChangeImport(name, schema, strategy) => name in w.state.imports
    case RemoveImport(name) => name in w.state.imports
    case ProcessImport(name) => name in w.state.imports
    case ProcessRemoval(order) => IsOrderOf(order, w.state.imports)
    case Recompute(order) => IsOrderOf(order, w.state.imports)
    case ChangeNegotiated(publish, conditions) => w.state.negotiated.Some?
    case SpreadAvailability => true
    case Cleanup => true
  }

  predicate IsOrphan(s: State) {
    s.imports == map[] && s.negotiated.Some? && !IsTrue(s.negotiated.value.conditions, Enforced)
  }

  function MapImports(imports: map<string, Import>, f: seq<Condition> -> seq<Condition>): map<string, Import> {
    map n | n in imports :: imports[n].(conditions := f(imports[n].conditions))
  }

  function Cleaned(cs: seq<Condition>): seq<Condition> {
    Without(Without(cs, Available), Compatible)
  }

  function WithAvailability(cs: seq<Condition>, published: Status): seq<Condition> {
    Set(cs, Condition(Available, published, ""))
  }

  function Next(ops: Ops, w: World, step: Step): World
    requires Enabled(w, step)
  {
    var s := w.state;
    match step
    case CreateImport(name, imp) => World(s.(imports := s.imports[name := imp]), w.unexamined + {name})
    case ChangeImport(name, schema, strategy) =>
      World(s.(imports := s.imports[name := s.imports[name].(schema := schema, strategy := strategy)]), w.unexamined + {name})
    case RemoveImport(name) => World(s.(imports := s.imports - {name}), w.unexamined - {name})
    case ProcessImport(name) => World(Ensure(ops, s, Some(name), [], None), w.unexamined - {name})
    case ProcessRemoval(order) =>
      if IsOrphan(s) then w.(state := s.(negotiated := None))
      else World(Ensure(ops, s, None, order, None), {})
    case Recompute(order) => World(Ensure(ops, s, None, order, None), {})
    case ChangeNegotiated(publish, conditions) =>
      w.(state := s.(negotiated := Some(s.negotiated.value.(publish := publish, conditions := conditions))))
    case SpreadAvailability =>
      if s.negotiated.None? || Find(s.negotiated.value.conditions, Published).None? then w
      else
        var published := Find(s.negotiated.value.conditions, Published).value.status;
        w.(state := s.(imports := MapImports(s.imports, cs => WithAvailability(cs, published))))
    case Cleanup => w.(state := s.(imports := MapImports(s.imports, Cleaned)))
  }

  ghost predicate Honest(ops: Ops, w: World) {
    forall n | n in w.state.imports && n !in w.unexamined :: Satisfied(ops, w.state.negotiated, w.state.imports[n])
  }

  /** One import at a time: the schema may narrow below all that were marked. */
  lemma ProcessImportKeeps(ops: Ops, w: World, name: string)
    requires Lawful(ops) && Honest(ops, w) && name in w.state.imports
    ensures Honest(ops, Next(ops, w, ProcessImport(name)))
  {
    var s := w.state;
    var f := Folding(s.negotiated, false, s.imports);
    var done := s.imports.Keys - w.unexamined - {name};
    FoldSatisfies(ops, s.negotiated, f, [name], done);
    FoldTouches(ops, s.negotiated, f, [name]);
    FoldReports(ops, s.negotiated, f, [name]);
    var w' := Next(ops, w, ProcessImport(name));
    assert w'.state.negotiated == Fold(ops, s.negotiated, f, [name]).negotiated;
  }

  /** From scratch: every mark is made anew. */
  lemma RecomputeKeeps(ops: Ops, w: World, order: seq<string>)
    requires Lawful(ops) && Honest(ops, w) && IsOrderOf(order, w.state.imports)
    ensures Honest(ops, Next(ops, w, Recompute(order)))
  {
    var s := w.state;
    var f := Folding(None, false, s.imports);
    if order != [] {
      FoldSatisfies(ops, s.negotiated, f, order, {});
      FoldReports(ops, s.negotiated, f, order);
    }
  }

  lemma AvailabilityKeeps(ops: Ops, w: World)
    requires Honest(ops, w)
    ensures Honest(ops, Next(ops, w, SpreadAvailability))
  {
    var w' := Next(ops, w, SpreadAvailability);
    if w' != w {
      var published := Find(w.state.negotiated.value.conditions, Published).value.status;
      forall n | n in w.state.imports ensures Marked(w'.state.imports[n]) <==> Marked(w.state.imports[n]) {
        MarkingMarks(w.state.imports[n], published, "");
        assert w'.state.imports[n] == Mark(w.state.imports[n], Condition(Available, published, ""));
      }
    }
  }

  lemma CleanupKeeps(ops: Ops, w: World)
    ensures Honest(ops, Next(ops, w, Cleanup))
  {
    var w' := Next(ops, w, Cleanup);
    forall n | n in w.state.imports ensures !Marked(w'.state.imports[n]) {
      WithoutIsLocal(Without(w.state.imports[n].conditions, Available), Compatible, Compatible);
      assert w'.state.imports[n].conditions == Cleaned(w.state.imports[n].conditions);
    }
  }

  /** While imports are processed one at a time the schema only narrows, and not
      at all by an import that may not update it. */
  lemma ProcessingOnlyNarrows(ops: Ops, w: World, name: string)
    requires Lawful(ops) && name in w.state.imports && w.state.negotiated.Some?
    ensures var n, n' := w.state.negotiated.value, Next(ops, w, ProcessImport(name)).state.negotiated;
            && n'.Some? && Leq(ops, n'.value.schema, n.schema) && n' == Some(n.(schema := n'.value.schema))
            && var strategy := w.state.imports[name].strategy;
               var mayUpdate := strategy.UpdatePublished? || (strategy.UpdateUnpublished? && !IsTrue(n.conditions, Published));
               !mayUpdate || IsTrue(n.conditions, Enforced) ==> n' == Some(n)
  {
    var s := w.state;
    var f := Folding(s.negotiated, false, s.imports);
    var f' := Turn(ops, s.negotiated, f, name);
    assert [name][1..] == [];
    assert Fold(ops, s.negotiated, f, [name]) == Fold(ops, s.negotiated, f', []) == f';
    ExamineNarrows(ops, s.negotiated, s.negotiated, s.imports[name]);
    ExamineReports(ops, s.negotiated, s.negotiated, s.imports[name]);
  }

  /** An import without a strategy, or with an unknown one, never updates a negotiated
      resource that is there: it is only compared with it. */
  lemma UnknownStrategyNeverUpdates(ops: Ops, w: World, name: string)
    requires Lawful(ops) && name in w.state.imports && w.state.negotiated.Some?
    requires w.state.imports[name].strategy.UnknownStrategy?
    ensures var r := Next(ops, w, ProcessImport(name)).state;
            && r.negotiated == w.state.negotiated && name in r.imports
            && (Marked(r.imports[name]) <==> Leq(ops, w.state.negotiated.value.schema, w.state.imports[name].schema))
  {
    var s := w.state;
    var f := Folding(s.negotiated, false, s.imports);
    var f' := Turn(ops, s.negotiated, f, name);
    assert [name][1..] == [];
    assert Fold(ops, s.negotiated, f, [name]) == Fold(ops, s.negotiated, f', []) == f';
    ExamineMarks(ops, s.negotiated, s.negotiated, s.imports[name]);
    ProcessingOnlyNarrows(ops, w, name);
  }

  /** A CRD created by hand is never narrowed and never replaces a stored
      negotiated resource: the imports are compared with the CRD alone. */
  lemma ManualSchemaIsFixed(ops: Ops, s: State, given: Option<string>, order: seq<string>, manual: Schema)
    requires NamesOf(given, order) != [] && forall n | n in NamesOf(given, order) :: n in s.imports
    requires Distinct(NamesOf(given, order)) && Lawful(ops)
    ensures var r := Ensure(ops, s, given, order, Some(manual));
            && r.negotiated == (if s.negotiated.Some? then s.negotiated else Some(FromCRD(manual)))
            && r.imports.Keys == s.imports.Keys
            && forall n | n in NamesOf(given, order) :: Marked(r.imports[n]) <==> Leq(ops, manual, s.imports[n].schema)
  {
    var names := NamesOf(given, order);
    var f := Folding(Some(FromCRD(manual)), false, s.imports);
    FoldAgainstFixed(ops, s.negotiated, f, names, FromCRD(manual));
    FoldTouches(ops, s.negotiated, f, names);
  }

  lemma {:induction false} FoldAgainstFixed(ops: Ops, stored: Option<Negotiated>, f: Folding, names: seq<string>, fixed: Negotiated)
    requires Lawful(ops) && f.negotiated == Some(fixed) && !f.updated && IsTrue(fixed.conditions, Enforced)
    requires Distinct(names) && forall n | n in names :: n in f.imports
    ensures var r := Fold(ops, stored, f, names);
            && r.negotiated == Some(fixed) && !r.updated && r.imports.Keys == f.imports.Keys
            && (forall n | n in f.imports && n !in names :: r.imports[n] == f.imports[n])
            && forall n | n in names :: Marked(r.imports[n]) <==> Leq(ops, fixed.schema, f.imports[n].schema)
    decreases |names|
  {
    if names != [] {
      var f' := Turn(ops, stored, f, names[0]);
      ExamineMarks(ops, stored, f.negotiated, f.imports[names[0]]);
      DistinctTail(names, {});
      FoldAgainstFixed(ops, stored, f', names[1..], fixed);
      forall n | n in names
        ensures Marked(Fold(ops, stored, f, names).imports[n]) <==> Leq(ops, fixed.schema, f.imports[n].schema)
      {
        if n !in names[1..] { assert n == names[0]; }
      }
    }
  }

  lemma StepKeepsHonest(ops: Ops, w: World, step: Step)
    requires Lawful(ops) && Honest(ops, w) && Enabled(w, step)
    ensures Honest(ops, Next(ops, w, step))
  {
    if step.ProcessImport? { ProcessImportKeeps(ops, w, step.name); }
    else if step.ProcessRemoval? { RecomputeKeeps(ops, w, step.order); }
    else if step.Recompute? { RecomputeKeeps(ops, w, step.order); }
    else if step.SpreadAvailability? { AvailabilityKeeps(ops, w); }
    else if step.Cleanup? { CleanupKeeps(ops, w); }
    else { WritingKeeps(ops, w, step); }
  }

  /** What others write: imports that count as not examined, and everything of the
      negotiated resource but its schema. */
  lemma WritingKeeps(ops: Ops, w: World, step: Step)
    requires Honest(ops, w) && Enabled(w, step)
    requires step.CreateImport? || step.ChangeImport? || step.RemoveImport? || step.ChangeNegotiated?
    ensures Honest(ops, Next(ops, w, step))
  {
    var w' := Next(ops, w, step);
    forall n | n in w'.state.imports && n !in w'.unexamined ensures Satisfied(ops, w'.state.negotiated, w'.state.imports[n]) {
      assert n in w.state.imports && n !in w.unexamined && w'.state.imports[n] == w.state.imports[n];
      assert Satisfied(ops, w.state.negotiated, w.state.imports[n]);
    }
  }

  ghost predicate IsRun(ops: Ops, w: World, steps: seq<Step>)
    decreases |steps|
  {
    steps == [] || (Enabled(w, steps[0]) && IsRun(ops, Next(ops, w, steps[0]), steps[1..]))
  }

  ghost function After(ops: Ops, w: World, steps: seq<Step>): World
    requires IsRun(ops, w, steps)
    decreases |steps|
  {
    if steps == [] then w else After(ops, Next(ops, w, steps[0]), steps[1..])
  }

  lemma {:induction false} RunKeepsHonest(ops: Ops, w: World, steps: seq<Step>)
    requires Lawful(ops) && Honest(ops, w) && IsRun(ops, w, steps)
    ensures Honest(ops, After(ops, w, steps))
    decreases |steps|
  {
    if steps != [] {
      StepKeepsHonest(ops, w, steps[0]);
      RunKeepsHonest(ops, Next(ops, w, steps[0]), steps[1..]);
    }
  }

  /** Main result: over every run without a CRD made by hand, an import that is
      marked compatible and was not written since it was examined accepts every
      document that the negotiated schema accepts, however often that schema
      was narrowed or computed anew after the import was marked. */
  lemma MarksAreHonest(ops: Ops, steps: seq<Step>, name: string)
    requires Lawful(ops)
    requires IsRun(ops, World(State(map[], None), {}), steps)
    requires var w := After(ops, World(State(map[], None), {}), steps);
             name in w.state.imports && name !in w.unexamined && Marked(w.state.imports[name])
    ensures var s := After(ops, World(State(map[], None), {}), steps).state;
            s.negotiated.Some? && Leq(ops, s.negotiated.value.schema, s.imports[name].schema)
  {
    var start := World(State(map[], None), {});
    RunKeepsHonest(ops, start, steps);
    var w := After(ops, start, steps);
    assert Satisfied(ops, w.state.negotiated, w.state.imports[name]);
  }
}
