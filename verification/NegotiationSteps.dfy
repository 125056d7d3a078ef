/** What the steps of the negotiation write, by the strategy of an import and the
    conditions of the negotiated resource (pkg/reconciler/apiresource/negotiation.go,
    apis/apiresource/v1alpha1/apiresourceimport_types.go). */
module NegotiationSteps {
  import opened Wrappers
  import opened Conditions
  import opened Negotiation

  predicate Holds(n: Negotiated, kind: Kind) {
    match Find(n.conditions, kind)
    case None => false
    case Some(c) => c.status == True
  }

  /** The import may only be compared with the negotiated resource. */
  predicate IsFrozen(n: Negotiated, imp: Import) {
    || Holds(n, Enforced)
    || match imp.strategy
       case UpdateNever => true
       case UpdateUnpublished => Holds(n, Published)
       case UpdatePublished => false
       case UnknownStrategy(_) => true
  }

  /** What an examination that ended one way or the other writes to the conditions. */
  ghost predicate IsExamined(before: Import, after: Import, compatible: bool, published: bool) {
    && after.schema == before.schema && after.strategy == before.strategy
    && Find(after.conditions, Compatible)
       == Some(Condition(Compatible, if compatible then True else False, if compatible then "" else "IncompatibleSchema"))
    && Find(after.conditions, Available)
       == (if compatible && published then Some(Condition(Available, True, "")) else Find(before.conditions, Available))
    && forall kind | kind != Compatible && kind != Available :: Find(after.conditions, kind) == Find(before.conditions, kind)
  }

  lemma MarksAre(imp: Import, compatible: bool, published: bool)
    ensures var marked := Mark(imp, Condition(Compatible, if compatible then True else False,
                                              if compatible then "" else INCOMPATIBLE_SCHEMA));
            IsExamined(imp, if compatible && published then Mark(marked, Condition(Available, True, "")) else marked,
                       compatible, published)
  {
    var c := Condition(Compatible, if compatible then True else False, if compatible then "" else INCOMPATIBLE_SCHEMA);
    var marked := Mark(imp, c);
    forall kind
      ensures Find(marked.conditions, kind) == if kind == Compatible then Some(c) else Find(imp.conditions, kind)
      ensures Find(Mark(marked, Condition(Available, True, "")).conditions, kind)
              == if kind == Available then Some(Condition(Available, True, "")) else Find(marked.conditions, kind)
    {
      SetIsLocal(imp.conditions, c, kind);
      SetIsLocal(marked.conditions, Condition(Available, True, ""), kind);
    }
  }

  /** An import that is examined against a negotiated resource. */
  lemma ExamineIs(ops: Ops, stored: Option<Negotiated>, n: Negotiated, imp: Import)
    requires Lawful(ops)
    ensures var x := Examine(ops, stored, Some(n), imp);
            if IsFrozen(n, imp)
            then x.negotiated == n && IsExamined(imp, x.imp, Leq(ops, n.schema, imp.schema), Holds(n, Published))
            else
              var lcd := ops.compat(n.schema, imp.schema, true);
              && x.negotiated == (if lcd.Some? then Negotiated(lcd.value, n.publish, n.conditions) else n)
              && IsExamined(imp, x.imp, lcd.Some?, Holds(n, Published))
  {
    MarksAre(imp, true, Holds(n, Published));
    MarksAre(imp, false, Holds(n, Published));
    var same := ops.compat(n.schema, imp.schema, false);
    assert same.Some? <==> Leq(ops, n.schema, imp.schema);
  }

  lemma OneTurn(ops: Ops, s: State, name: string)
    requires name in s.imports
    ensures var x := Examine(ops, s.negotiated, s.negotiated, s.imports[name]);
            Ensure(ops, s, Some(name), [], None) == State(s.imports[name := x.imp], Some(x.negotiated))
  {
    var f := Folding(s.negotiated, false, s.imports);
    var f' := Turn(ops, s.negotiated, f, name);
    assert [name][1..] == [];
    assert Fold(ops, s.negotiated, f, [name]) == Fold(ops, s.negotiated, f', []) == f';
    ExamineReports(ops, s.negotiated, s.negotiated, s.imports[name]);
  }

  /** Main result: by strategy and conditions alone it is decided whether an import
      narrows the negotiated schema to the common one, whenever there is one, or is
      compared with it as it is; and which conditions the import gets. */
  lemma StrategyDecides(ops: Ops, w: World, name: string)
    requires Lawful(ops) && name in w.state.imports && w.state.negotiated.Some?
    ensures var n, imp, s' := w.state.negotiated.value, w.state.imports[name], Next(ops, w, ProcessImport(name)).state;
            && s'.imports.Keys == w.state.imports.Keys
            && (forall other | other in s'.imports && other != name :: s'.imports[other] == w.state.imports[other])
            && if IsFrozen(n, imp)
               then && s'.negotiated == Some(n)
                    && IsExamined(imp, s'.imports[name], Leq(ops, n.schema, imp.schema), Holds(n, Published))
               else var lcd := ops.compat(n.schema, imp.schema, true);
                    && s'.negotiated == Some(if lcd.Some? then Negotiated(lcd.value, n.publish, n.conditions) else n)
                    && IsExamined(imp, s'.imports[name], lcd.Some?, Holds(n, Published))
  {
    OneTurn(ops, w.state, name);
    ExamineIs(ops, w.state.negotiated, w.state.negotiated.value, w.state.imports[name]);
  }

  /** The first import brings its schema, and is compatible with it. */
  lemma FirstImportDecides(ops: Ops, w: World, name: string)
    requires name in w.state.imports && w.state.negotiated.None?
    ensures var imp, s' := w.state.imports[name], Next(ops, w, ProcessImport(name)).state;
            && s'.negotiated == Some(Negotiated(imp.schema, false, []))
            && s'.imports.Keys == w.state.imports.Keys && IsExamined(imp, s'.imports[name], true, false)
  {
    OneTurn(ops, w.state, name);
    MarksAre(w.state.imports[name], true, false);
  }

  // ----- from scratch -----

  /** The schema of the imports from the second on, each narrowing what the ones before
      it left if its strategy lets it update what is not published. */
  function NarrowedBy(ops: Ops, schema: Schema, imports: seq<Import>): Schema
    decreases |imports|
  {
    if imports == [] then schema
    else
      var lcd := ops.compat(schema, imports[0].schema, true);
      NarrowedBy(ops, if Narrows(imports[0]) && lcd.Some? then lcd.value else schema, imports[1..])
  }

  predicate Narrows(imp: Import) {
    imp.strategy.UpdateUnpublished? || imp.strategy.UpdatePublished?
  }

  /** The comparison with the schema so far succeeds. */
  predicate Fits(ops: Ops, schema: Schema, imp: Import) {
    if Narrows(imp) then ops.compat(schema, imp.schema, true).Some? else Leq(ops, schema, imp.schema)
  }

  function ImportsOf(imports: map<string, Import>, order: seq<string>): (r: seq<Import>)
    requires forall n | n in order :: n in imports
    ensures |r| == |order| && forall i | 0 <= i < |r| :: r[i] == imports[order[i]]
  {
    if order == [] then [] else [imports[order[0]]] + ImportsOf(imports, order[1..])
  }

  /** The loop reads nothing but schemas and strategies of the imports to come. */
  lemma {:induction false} FoldNarrows(ops: Ops, stored: Option<Negotiated>, f: Folding, names: seq<string>, imports: map<string, Import>)
    requires Lawful(ops) && f.negotiated.Some? && f.negotiated.value.conditions == [] && Distinct(names)
    requires forall n | n in names :: n in f.imports && n in imports && f.imports[n] == imports[n]
    ensures Fold(ops, stored, f, names).negotiated
            == Some(f.negotiated.value.(schema := NarrowedBy(ops, f.negotiated.value.schema, ImportsOf(imports, names))))
    decreases |names|
  {
    if names != [] {
      ExamineIs(ops, stored, f.negotiated.value, f.imports[names[0]]);
      assert ImportsOf(imports, names)[1..] == ImportsOf(imports, names[1..]);
      DistinctTail(names, {});
      FoldNarrows(ops, stored, Turn(ops, stored, f, names[0]), names[1..], imports);
    }
  }

  /** In `r` the import at `i` is as it is when it was examined against what the imports
      before it left of the schema. */
  ghost predicate ExaminedAt(ops: Ops, schema: Schema, imports: map<string, Import>, names: seq<string>, i: nat, r: map<string, Import>) {
    && i < |names| && (forall n | n in names :: n in imports) && names[i] in r
    && IsExamined(imports[names[i]], r[names[i]],
                  Fits(ops, NarrowedBy(ops, schema, ImportsOf(imports, names[..i])), imports[names[i]]), false)
  }

  lemma TurnExamines(ops: Ops, stored: Option<Negotiated>, f: Folding, name: string)
    requires Lawful(ops) && name in f.imports && f.negotiated.Some? && f.negotiated.value.conditions == []
    ensures var n, imp, f' := f.negotiated.value, f.imports[name], Turn(ops, stored, f, name);
            && f'.negotiated == Some(n.(schema := NarrowedBy(ops, n.schema, [imp])))
            && f'.imports.Keys == f.imports.Keys && (forall other | other in f.imports && other != name :: f'.imports[other] == f.imports[other])
            && IsExamined(imp, f'.imports[name], Fits(ops, n.schema, imp), false)
  {
    ExamineIs(ops, stored, f.negotiated.value, f.imports[name]);
    assert [f.imports[name]][1..] == [];
  }

  lemma NarrowedByRest(ops: Ops, schema: Schema, imports: map<string, Import>, names: seq<string>, i: nat)
    requires 0 < i <= |names| && forall n | n in names :: n in imports
    ensures NarrowedBy(ops, schema, ImportsOf(imports, names[..i]))
            == NarrowedBy(ops, NarrowedBy(ops, schema, [imports[names[0]]]), ImportsOf(imports, names[1..][..i - 1]))
  {
    assert names[..i][1..] == names[1..][..i - 1];
    assert ImportsOf(imports, names[..i])[1..] == ImportsOf(imports, names[1..][..i - 1]);
    assert [imports[names[0]]][1..] == [];
  }

  lemma ExaminedLater(ops: Ops, schema: Schema, imports: map<string, Import>, names: seq<string>, i: nat, r: map<string, Import>)
    requires 0 < i < |names| && forall n | n in names :: n in imports
    requires ExaminedAt(ops, NarrowedBy(ops, schema, [imports[names[0]]]), imports, names[1..], i - 1, r)
    ensures ExaminedAt(ops, schema, imports, names, i, r)
  {
    NarrowedByRest(ops, schema, imports, names, i);
  }

  lemma ExaminedFirst(ops: Ops, stored: Option<Negotiated>, f: Folding, names: seq<string>, imports: map<string, Import>)
    requires Lawful(ops) && f.negotiated.Some? && f.negotiated.value.conditions == [] && Distinct(names) && names != []
    requires forall n | n in names :: n in f.imports && n in imports && f.imports[n] == imports[n]
    ensures ExaminedAt(ops, f.negotiated.value.schema, imports, names, 0, Fold(ops, stored, f, names).imports)
  {
    TurnExamines(ops, stored, f, names[0]);
    DistinctTail(names, {});
    FoldTouches(ops, stored, Turn(ops, stored, f, names[0]), names[1..]);
    assert ImportsOf(imports, names[..0]) == [];
  }

  lemma {:induction false} FoldExamines(ops: Ops, stored: Option<Negotiated>, f: Folding, names: seq<string>,
                                        imports: map<string, Import>, i: nat)
    requires Lawful(ops) && f.negotiated.Some? && f.negotiated.value.conditions == [] && Distinct(names)
    requires forall n | n in names :: n in f.imports && n in imports && f.imports[n] == imports[n]
    requires i < |names|
    ensures ExaminedAt(ops, f.negotiated.value.schema, imports, names, i, Fold(ops, stored, f, names).imports)
    decreases |names|
  {
    if i == 0 {
      ExaminedFirst(ops, stored, f, names, imports);
    } else {
      var f' := Turn(ops, stored, f, names[0]);
      TurnExamines(ops, stored, f, names[0]);
      DistinctTail(names, {});
      FoldExamines(ops, stored, f', names[1..], imports, i - 1);
      ExaminedLater(ops, f.negotiated.value.schema, imports, names, i, Fold(ops, stored, f', names[1..]).imports);
    }
  }

  /** Main result: a computation from scratch starts from the schema of the first
      import, however narrow the stored one is, keeps whether the resource is to be
      published and drops its conditions; and each other import narrows the schema if
      its strategy lets it. */
  lemma RecomputeStartsAfresh(ops: Ops, w: World, order: seq<string>)
    requires Lawful(ops) && IsOrderOf(order, w.state.imports) && order != []
    ensures var first, rest := w.state.imports[order[0]], ImportsOf(w.state.imports, order[1..]);
            Next(ops, w, Recompute(order)).state.negotiated
            == Some(Negotiated(NarrowedBy(ops, first.schema, rest), w.state.negotiated.Some? && w.state.negotiated.value.publish, []))
  {
    var s := w.state;
    var f' := Turn(ops, s.negotiated, Folding(None, false, s.imports), order[0]);
    DistinctTail(order, {});
    FoldNarrows(ops, s.negotiated, f', order[1..], s.imports);
    FoldReports(ops, s.negotiated, f', order[1..]);
  }

  function AfterFirst(ops: Ops, s: State, name: string): Folding
    requires name in s.imports
  {
    Turn(ops, s.negotiated, Folding(None, false, s.imports), name)
  }

  lemma AfreshIs(ops: Ops, s: State, order: seq<string>)
    requires order != [] && forall n | n in order :: n in s.imports
    ensures var f' := AfterFirst(ops, s, order[0]);
            && Ensure(ops, s, None, order, None).imports == Fold(ops, s.negotiated, f', order[1..]).imports
            && f'.negotiated.Some? && f'.negotiated.value.conditions == [] && f'.negotiated.value.schema == s.imports[order[0]].schema
            && f'.imports == s.imports[order[0] := Mark(s.imports[order[0]], Condition(Compatible, True, ""))]
  {
  }

  lemma RestIsUntouched(ops: Ops, s: State, order: seq<string>)
    requires Distinct(order) && order != [] && forall n | n in order :: n in s.imports
    ensures Distinct(order[1..]) && order[0] !in order[1..]
    ensures forall n | n in order[1..] ::
              n in AfterFirst(ops, s, order[0]).imports && n in s.imports && AfterFirst(ops, s, order[0]).imports[n] == s.imports[n]
  {
    DistinctTail(order, {});
  }

  lemma FirstIsMarked(ops: Ops, s: State, order: seq<string>)
    requires Distinct(order) && order != [] && forall n | n in order :: n in s.imports
    ensures var imports' := Ensure(ops, s, None, order, None).imports;
            imports'.Keys == s.imports.Keys && IsExamined(s.imports[order[0]], imports'[order[0]], true, false)
  {
    AfreshIs(ops, s, order);
    RestIsUntouched(ops, s, order);
    FoldTouches(ops, s.negotiated, AfterFirst(ops, s, order[0]), order[1..]);
    MarksAre(s.imports[order[0]], true, false);
  }

  lemma RestIsMarked(ops: Ops, s: State, order: seq<string>, i: nat)
    requires Lawful(ops) && Distinct(order) && i + 1 < |order| && forall n | n in order :: n in s.imports
    ensures ExaminedAt(ops, s.imports[order[0]].schema, s.imports, order[1..], i, Ensure(ops, s, None, order, None).imports)
  {
    AfreshIs(ops, s, order);
    RestIsUntouched(ops, s, order);
    FoldExamines(ops, s.negotiated, AfterFirst(ops, s, order[0]), order[1..], s.imports, i);
  }

  /** Main result: the same computation marks the first import, and every other one
      exactly if it fits what the imports before it left. */
  lemma RecomputeMarks(ops: Ops, s: State, order: seq<string>)
    requires Lawful(ops) && Distinct(order) && order != [] && forall n | n in order :: n in s.imports
    ensures var imports' := Ensure(ops, s, None, order, None).imports;
            && imports'.Keys == s.imports.Keys
            && IsExamined(s.imports[order[0]], imports'[order[0]], true, false)
            && forall i: nat | i + 1 < |order| :: ExaminedAt(ops, s.imports[order[0]].schema, s.imports, order[1..], i, imports')
  {
    FirstIsMarked(ops, s, order);
    forall i: nat | i + 1 < |order|
      ensures ExaminedAt(ops, s.imports[order[0]].schema, s.imports, order[1..], i, Ensure(ops, s, None, order, None).imports)
    {
      RestIsMarked(ops, s, order, i);
    }
  }

  // ----- the other steps -----

  /** Main result: after an import went, the negotiated resource goes if and only if no
      import is left and it is not enforced; while imports are left it is computed from
      scratch. */
  lemma RemovalIs(ops: Ops, w: World, order: seq<string>)
    requires Lawful(ops) && IsOrderOf(order, w.state.imports)
    ensures var s' := Next(ops, w, ProcessRemoval(order)).state;
            && (w.state.imports == map[] ==>
                  && s'.imports == map[]
                  && (s'.negotiated == None <==> w.state.negotiated.None? || !Holds(w.state.negotiated.value, Enforced))
                  && (s'.negotiated.Some? ==> s'.negotiated == w.state.negotiated))
            && (w.state.imports != map[] ==> s' == Next(ops, w, Recompute(order)).state)
  {
    assert order != [] ==> order[0] in order;
    assert order == [] ==> w.state.imports.Keys == {};
  }

  /** A CRD made by hand gives a resource that is published and enforced. */
  lemma ManualResourceIs(ops: Ops, s: State, given: Option<string>, order: seq<string>, manual: Schema)
    requires NamesOf(given, order) != [] && forall n | n in NamesOf(given, order) :: n in s.imports
    requires Distinct(NamesOf(given, order)) && Lawful(ops) && s.negotiated.None?
    ensures var r := Ensure(ops, s, given, order, Some(manual)).negotiated;
            r.Some? && r.value.schema == manual && r.value.publish && Holds(r.value, Published) && Holds(r.value, Enforced)
  {
    ManualSchemaIsFixed(ops, s, given, order, manual);
    FindAt(FromCRD(manual).conditions, 1, Enforced);
  }

  /** The imports get the status of the published condition, if there is one, as their
      available condition, and a cleanup takes this and the compatible condition away;
      nothing else of any import changes. */
  lemma SpreadIs(ops: Ops, w: World, name: string, kind: Kind)
    requires name in w.state.imports
    ensures var imp := w.state.imports[name];
            var s', s'' := Next(ops, w, SpreadAvailability).state, Next(ops, w, Cleanup).state;
            && s'.negotiated == w.state.negotiated && s''.negotiated == w.state.negotiated
            && name in s'.imports && name in s''.imports
            && s'.imports[name].(conditions := imp.conditions) == imp && s''.imports[name].(conditions := imp.conditions) == imp
            && Find(s''.imports[name].conditions, kind)
               == (if kind == Compatible || kind == Available then None else Find(imp.conditions, kind))
            && var published := if w.state.negotiated.None? then None else Find(w.state.negotiated.value.conditions, Published);
               Find(s'.imports[name].conditions, kind)
               == if kind == Available && published.Some? then Some(Condition(Available, published.value.status, ""))
                  else Find(imp.conditions, kind)
  {
    var cs := w.state.imports[name].conditions;
    WithoutIsLocal(cs, Available, kind);
    WithoutIsLocal(Without(cs, Available), Compatible, kind);
    if w.state.negotiated.Some? && Find(w.state.negotiated.value.conditions, Published).Some? {
      SetIsLocal(cs, Condition(Available, Find(w.state.negotiated.value.conditions, Published).value.status, ""), kind);
    }
  }
}
