/**
 * What the emitted text means for every filter tree, inside the supported language or
 * not, how far that is from the filter, and rows on which the two differ.
 */
module WhereLimits {
  import opened Prelude
  import opened Sql
  import opened WhereCompiler
  import opened WhereMeaning
  import opened WhereRejection

  /** A collation that only knows equality, for the concrete rows below. */
  function Exact(): Collation {
    Collation((a: Json, b: Json) => if a == b then 0 else 1, (a: Json, b: Json) => false)
  }

  // ----- the meaning of the emitted text, for every filter tree -----

  /** The operator that is compiled: the first present in the order of the code. */
  function FirstOperator(value: Json): Option<Field> {
    if Property(value, "contains").Some? then Some(Field("contains", Property(value, "contains").value))
    else if Property(value, "gte").Some? then Some(Field("gte", Property(value, "gte").value))
    else if Property(value, "lte").Some? then Some(Field("lte", Property(value, "lte").value))
    else if Property(value, "not").Some? then Some(Field("not", Property(value, "not").value))
    else if Property(value, "in").Some? && Property(value, "in").value.Arr? then
      Some(Field("in", Property(value, "in").value))
    else None
  }

  /** One operator counts, whatever else the object asks for; without one the value is compared as it is. */
  ghost predicate ColumnSelects(c: Collation, cell: Json, value: Json) {
    if value.Null? then cell.Null?
    else if FirstOperator(value).Some? then
        OperatorHolds(c, cell, FirstOperator(value).value.key, FirstOperator(value).value.value)
    else Related(c, cell, value)
  }

  ghost predicate RowSelected(c: Collation, db: Database, table: string, where: seq<Field>, row: Row)
    decreases where
  {
    forall f | f in where :: EntrySelects(c, db, table, f.key, f.value, row)
  }

  /** OR: any single entry of any branch that emits a clause; an OR without clauses asks for nothing. */
  ghost predicate EntrySelects(c: Collation, db: Database, table: string, key: string, value: Json, row: Row)
    decreases value
  {
    if key == "OR" && value.Arr? then
      BranchPieces(table, value.items) == [] || exists b | b in value.items ::
          b.Obj?
          && SomeEntrySelects(c, db, table, b.fields, row)
    else if RelationOf(table, key).Some? && value.Obj? then
      var rel := RelationOf(table, key).value;
      exists r | r in Rows(db, rel.inner) ::
        Related(c, Cell(r, rel.innerColumn), Cell(row, rel.outerColumn))
            && RowSelected(c, db, rel.inner, value.fields, r)
    else
      ColumnSelects(c, Cell(row, NormalizeColumn(table, key)), value)
  }

  ghost predicate SomeEntrySelects(c: Collation, db: Database, table: string, fields: seq<Field>, row: Row)
    decreases fields
  {
    exists f | f in fields :: EntryPieces(table, f.key, f.value) != []
        && EntrySelects(c, db, table, f.key, f.value, row)
  }

  lemma ColumnEvaluates(c: Collation, db: Database, s: Scope, column: string, value: Json)
    ensures Eval(c, db, s, ColumnExpr(column, value)) == True
            <==> ColumnSelects(c, Cell(s.RowOf(s.current), column), value)
  {
    hide Text, TextList, Lookup;
    if FirstOperator(value).Some? && FirstOperator(value).value.key == "in" {
      EvalMemberTrue(c, Cell(s.RowOf(s.current), column), FirstOperator(value).value.value.items);
    }
  }

  lemma {:induction false} EvalAnyAppend(c: Collation, db: Database, s: Scope, es: seq<Expr>, fs: seq<Expr>)
    ensures EvalAny(c, db, s, es + fs) == True <==> EvalAny(c, db, s, es) == True || EvalAny(c, db, s, fs) == True
  {
    hide Eval;
    if es == [] {
      assert es + fs == fs;
    } else {
      EvalAnyAppend(c, db, s, es[1..], fs);
      assert (es + fs)[1..] == es[1..] + fs;
    }
  }

  lemma {:induction false} EvalAllAppend(c: Collation, db: Database, s: Scope, es: seq<Expr>, fs: seq<Expr>)
    ensures EvalAll(c, db, s, es + fs) == True <==> EvalAll(c, db, s, es) == True && EvalAll(c, db, s, fs) == True
  {
    hide Eval;
    if es == [] {
      assert es + fs == fs;
    } else {
      EvalAllAppend(c, db, s, es[1..], fs);
      assert (es + fs)[1..] == es[1..] + fs;
    }
  }

  lemma EvalOne(c: Collation, db: Database, s: Scope, e: Expr)
    ensures EvalAll(c, db, s, [e]) == Eval(c, db, s, e)
    ensures EvalAny(c, db, s, [e]) == True <==> Eval(c, db, s, e) == True
  {
    hide Eval;
    assert [e][1..] == [];
  }

  /** An entry emits a condition or nothing, the latter only for an OR without clauses. */
  lemma EntryCount(table: string, key: string, value: Json)
    requires CompleteEntry(table, key, value)
    ensures |EntryExprs(table, key, value)| == |EntryPieces(table, key, value)| <= 1
    ensures EntryPieces(table, key, value) == []
            <==> key == "OR" && value.Arr? && BranchPieces(table, value.items) == []
  {
    hide PiecesOf, ExprsOf, BranchPieces, BranchExprs, ColumnPiece, ColumnExpr, Reads, RelationPiece;
    EntryReads(table, key, value);
    ReadsLength(EntryPieces(table, key, value), EntryExprs(table, key, value));
  }

  lemma {:induction false} RowEvaluates(c: Collation, db: Database, s: Scope, where: seq<Field>)
    requires Complete(s.current, where)
    ensures EvalAll(c, db, s, ExprsOf(s.current, where)) == True
            <==> RowSelected(c, db, s.current, where, s.RowOf(s.current))
    decreases where
  {
    hide Eval, EntryExprs, EntrySelects, CompleteEntry;
    if where != [] {
      var f := where[0];
      EntryEvaluates(c, db, s, f.key, f.value);
      RowEvaluates(c, db, s, where[1..]);
      EvalAllAppend(c, db, s, EntryExprs(s.current, f.key, f.value), ExprsOf(s.current, where[1..]));
      assert forall g :: g in where <==> g == f || g in where[1..];
    }
  }

  lemma {:induction false} SomeEvaluates(c: Collation, db: Database, s: Scope, fields: seq<Field>)
    requires Complete(s.current, fields)
    ensures EvalAny(c, db, s, ExprsOf(s.current, fields)) == True
            <==> SomeEntrySelects(c, db, s.current, fields, s.RowOf(s.current))
    decreases fields
  {
    hide Eval, EntryExprs, EntryPieces, EntrySelects, CompleteEntry;
    if fields != [] {
      var f := fields[0];
      EntryEvaluates(c, db, s, f.key, f.value);
      SomeEvaluates(c, db, s, fields[1..]);
      EvalAnyAppend(c, db, s, EntryExprs(s.current, f.key, f.value), ExprsOf(s.current, fields[1..]));
      assert forall g :: g in fields <==> g == f || g in fields[1..];
    }
  }

  lemma {:induction false} BranchesEvaluate(c: Collation, db: Database, s: Scope, items: seq<Json>)
    requires CompleteBranches(s.current, items)
    ensures EvalAny(c, db, s, BranchExprs(s.current, items)) == True
            <==> exists b | b in items :: b.Obj? && SomeEntrySelects(c, db, s.current, b.fields, s.RowOf(s.current))
    decreases items
  {
    hide Eval, SomeEntrySelects, Complete, ExprsOf;
    if items != [] {
      var b := items[0];
      if b.Obj? { SomeEvaluates(c, db, s, b.fields); }
      BranchesEvaluate(c, db, s, items[1..]);
      var es := if b.Obj? then ExprsOf(s.current, b.fields) else [];
      EvalAnyAppend(c, db, s, es, BranchExprs(s.current, items[1..]));
      assert forall d :: d in items <==> d == b || d in items[1..];
    }
  }

  /** All and any of an entry's conditions: its own one, or none. */
  lemma {:induction false} EntryEvaluates(c: Collation, db: Database, s: Scope, key: string, value: Json)
    requires CompleteEntry(s.current, key, value)
    ensures EvalAll(c, db, s, EntryExprs(s.current, key, value)) == True
            <==> EntrySelects(c, db, s.current, key, value, s.RowOf(s.current))
    ensures EvalAny(c, db, s, EntryExprs(s.current, key, value)) == True
            <==> EntryPieces(s.current, key, value) != []
                 && EntrySelects(c, db, s.current, key, value, s.RowOf(s.current))
    decreases value
  {
    EntryCount(s.current, key, value);
    hide Eval, EvalAll, EvalAny, ColumnExpr, ColumnPiece, ColumnSelects, PiecesOf, ExprsOf, RelationPiece;
    var es := EntryExprs(s.current, key, value);
    if es != [] {
      assert es == [es[0]];
      EvalOne(c, db, s, es[0]);
      if key == "OR" && value.Arr? {
        BranchesEvaluate(c, db, s, value.items);
        EvalAnyOf(c, db, s, BranchExprs(s.current, value.items));
      } else if RelationOf(s.current, key).Some? && value.Obj? {
        RelationEvaluates(c, db, s, RelationOf(s.current, key).value, value);
      } else {
        ColumnEvaluates(c, db, s, NormalizeColumn(s.current, key), value);
      }
    } else {
      NoConditions(c, db, s);
    }
  }

  lemma NoConditions(c: Collation, db: Database, s: Scope)
    ensures EvalAll(c, db, s, []) == True && EvalAny(c, db, s, []) != True
  {
  }

  lemma {:induction false} RelationEvaluates(c: Collation, db: Database, s: Scope, rel: Relation, value: Json)
    requires value.Obj? && Complete(rel.inner, value.fields)
    requires rel.outer == s.current && rel.inner != rel.outer
    ensures Eval(c, db, s, ExistsIn(rel.inner, AllOf([LinkExpr(rel)] + ExprsOf(rel.inner, value.fields)))) == True
            <==> exists r | r in Rows(db, rel.inner) ::
                   Related(c, Cell(r, rel.innerColumn), Cell(s.RowOf(s.current), rel.outerColumn))
                   && RowSelected(c, db, rel.inner, value.fields, r)
    decreases value, 0
  {
    hide RowSelected, ExprsOf, EvalAll, Complete;
    var es := [LinkExpr(rel)] + ExprsOf(rel.inner, value.fields);
    forall r | r in Rows(db, rel.inner)
      ensures Eval(c, db, s.Enter(rel.inner, r), AllOf(es)) == True
              <==> Related(c, Cell(r, rel.innerColumn), Cell(s.RowOf(s.current), rel.outerColumn))
                   && RowSelected(c, db, rel.inner, value.fields, r)
    {
      RelatedEvaluates(c, db, s, rel, value, r);
    }
  }

  lemma {:induction false} RelatedEvaluates(c: Collation, db: Database, s: Scope, rel: Relation, value: Json, r: Row)
    requires value.Obj? && Complete(rel.inner, value.fields)
    requires rel.outer == s.current && rel.inner != rel.outer
    ensures Eval(c, db, s.Enter(rel.inner, r), AllOf([LinkExpr(rel)] + ExprsOf(rel.inner, value.fields))) == True
            <==> Related(c, Cell(r, rel.innerColumn), Cell(s.RowOf(s.current), rel.outerColumn))
                 && RowSelected(c, db, rel.inner, value.fields, r)
    decreases value, 0, 0
  {
    hide RowSelected, ExprsOf, Complete;
    var inside := s.Enter(rel.inner, r);
    var es := [LinkExpr(rel)] + ExprsOf(rel.inner, value.fields);
    RowEvaluates(c, db, inside, value.fields);
    EvalAllOf(c, db, inside, es);
    assert es[1..] == ExprsOf(rel.inner, value.fields);
  }

  /**
   * The meaning of the emitted text for every filter tree, supported or not: where the
   * server accepts it, it selects a row exactly when each entry does, with the entries of
   * all OR branches as alternatives at any depth and one operator per operator object.
   */
  lemma EmittedMeaning(c: Collation, db: Database, table: string, where: seq<Field>, row: Row)
    ensures Selects(c, db, table, WhereText(table, where), Values(PiecesOf(table, where)), row)
            == if PiecesOf(table, where) != [] && Complete(table, where)
               then Some(RowSelected(c, db, table, where, row)) else None
  {
    hide RowSelected, Eval, Bind, Read, Join, PiecesOf, ExprsOf, Reads, Complete;
    AcceptedIffComplete(c, db, table, where, row);
    if PiecesOf(table, where) != [] && Complete(table, where) {
      EmittedReads(table, where);
      var ps, es := PiecesOf(table, where), ExprsOf(table, where);
      ReadWhere(ps, es);
      var s := Scope(map[table := row], table);
      EvalAllOf(c, db, s, es);
      RowEvaluates(c, db, s, where);
    }
  }

  // ----- how far that is from the filter -----

  /** As in the supported language, but with any positive number of entries in each OR branch. */
  predicate Branching(table: string, where: seq<Field>)
    decreases where
  {
    forall f | f in where :: BranchingEntry(table, f.key, f.value)
  }

  predicate BranchingEntry(table: string, key: string, value: Json)
    decreases value
  {
    if key == "OR" && value.Arr? then
      value.items != [] && forall b | b in value.items :: b.Obj? && b.fields != [] && Branching(table, b.fields)
    else if RelationOf(table, key).Some? && (value.Obj? || value.Arr?) then
      value.Obj? && value.fields != [] && Branching(RelationOf(table, key).value.inner, value.fields)
    else
      SupportedValue(value)
  }

  lemma {:induction false} BranchingComplete(table: string, where: seq<Field>)
    requires Branching(table, where)
    ensures Complete(table, where) && (where != [] ==> PiecesOf(table, where) != [])
    decreases where
  {
    if where != [] {
      BranchingEntryComplete(table, where[0].key, where[0].value);
      BranchingComplete(table, where[1..]);
    }
  }

  lemma {:induction false} BranchingEntryComplete(table: string, key: string, value: Json)
    requires BranchingEntry(table, key, value)
    ensures CompleteEntry(table, key, value) && EntryPieces(table, key, value) != []
    decreases value
  {
    if key == "OR" && value.Arr? {
      BranchingBranchesComplete(table, value.items);
    } else if RelationOf(table, key).Some? && value.Obj? {
      BranchingComplete(RelationOf(table, key).value.inner, value.fields);
    }
  }

  lemma {:induction false} BranchingBranchesComplete(table: string, items: seq<Json>)
    requires forall b | b in items :: b.Obj? && b.fields != [] && Branching(table, b.fields)
    ensures CompleteBranches(table, items) && (items != [] ==> BranchPieces(table, items) != [])
    decreases items
  {
    if items != [] {
      BranchingComplete(table, items[0].fields);
      BranchingBranchesComplete(table, items[1..]);
    }
  }

  lemma ColumnAgrees(c: Collation, cell: Json, value: Json)
    requires SupportedValue(value)
    ensures ColumnSelects(c, cell, value) <==> ColumnHolds(c, cell, value)
  {
    hide LikePattern, Lookup;
    if value.Obj? {
      OneOperator(value);
      var f := value.fields[0];
      assert f in value.fields;
      assert ColumnHolds(c, cell, value) <==> OperatorHolds(c, cell, f.key, f.value);
    }
  }

  lemma {:induction false} HoldsSelected(c: Collation, db: Database, table: string, where: seq<Field>, row: Row)
    requires Branching(table, where) && Holds(c, db, table, where, row)
    ensures RowSelected(c, db, table, where, row)
    decreases where
  {
    hide EntryHolds, EntrySelects, BranchingEntry;
    forall f | f in where
      ensures EntrySelects(c, db, table, f.key, f.value, row)
    {
      EntryHoldsSelected(c, db, table, f.key, f.value, row);
    }
  }

  lemma {:induction false} EntryHoldsSelected(c: Collation, db: Database, table: string, key: string, value: Json,
      row: Row)
    requires BranchingEntry(table, key, value) && EntryHolds(c, db, table, key, value, row)
    ensures EntrySelects(c, db, table, key, value, row)
    decreases value
  {
    hide ColumnHolds, ColumnSelects, BranchPieces;
    if key == "OR" && value.Arr? {
      var b :| b in value.items && b.Obj? && Holds(c, db, table, b.fields, row);
      var f := b.fields[0];
      assert f in b.fields;
      EntryHoldsSelected(c, db, table, f.key, f.value, row);
      BranchingEntryComplete(table, f.key, f.value);
      assert SomeEntrySelects(c, db, table, b.fields, row);
    } else if RelationOf(table, key).Some? && value.Obj? {
      var rel := RelationOf(table, key).value;
      var r :| r in Rows(db, rel.inner) && Related(c, Cell(r, rel.innerColumn), Cell(row, rel.outerColumn))
               && Holds(c, db, rel.inner, value.fields, r);
      HoldsSelected(c, db, rel.inner, value.fields, r);
    } else {
      ColumnAgrees(c, Cell(row, NormalizeColumn(table, key)), value);
    }
  }

  /**
   * OR branches with any positive number of entries, at any depth: every row that meets
   * the filter is selected, but the entries of a branch become alternatives, so the text
   * agrees with the filter on a row exactly when these alternatives imply the filter.
   */
  lemma BranchEntriesBecomeAlternatives(c: Collation, db: Database, table: string, where: seq<Field>, row: Row)
    requires Branching(table, where) && where != []
    ensures var selected := Selects(c, db, table, WhereText(table, where), Values(PiecesOf(table, where)), row);
            && selected == Some(RowSelected(c, db, table, where, row))
            && (Holds(c, db, table, where, row) ==> selected == Some(true))
            && (selected == Some(Holds(c, db, table, where, row))
                <==> (RowSelected(c, db, table, where, row) ==> Holds(c, db, table, where, row)))
  {
    hide Holds, RowSelected, Selects, WhereText, PiecesOf, Branching, Complete;
    BranchingComplete(table, where);
    EmittedMeaning(c, db, table, where, row);
    if Holds(c, db, table, where, row) {
      HoldsSelected(c, db, table, where, row);
    }
  }

  lemma NumberMeans(c: Collation, db: Database, column: string, n: int, row: Row)
    requires column != "OR"
    ensures EntrySelects(c, db, "Asset", column, Num(n), row) <==> Related(c, Cell(row, column), Num(n))
    ensures EntryHolds(c, db, "Asset", column, Num(n), row) <==> Related(c, Cell(row, column), Num(n))
    ensures EntryPieces("Asset", column, Num(n)) != [] && BranchingEntry("Asset", column, Num(n))
  {
    hide Related, Lookup;
  }

  /** One branch with two entries: either of them selects, both of them hold. */
  lemma TwoEntryBranch(c: Collation, db: Database, f: Field, g: Field, row: Row)
    requires BranchingEntry("Asset", f.key, f.value) && BranchingEntry("Asset", g.key, g.value)
    ensures var where := [Field("OR", Arr([Obj([f, g])]))];
            && Branching("Asset", where)
            && (EntryPieces("Asset", f.key, f.value) != [] && EntrySelects(c, db, "Asset", f.key, f.value, row) ==>
                  RowSelected(c, db, "Asset", where, row))
            && (Holds(c, db, "Asset", where, row) ==> EntryHolds(c, db, "Asset", g.key, g.value, row))
  {
    hide EntryPieces, BranchPieces;
    var branch := Obj([f, g]);
    var where := [Field("OR", Arr([branch]))];
    assert branch in [branch] && f in branch.fields && g in branch.fields && where[0] in where;
    assert Branching("Asset", branch.fields);
    assert BranchingEntry("Asset", "OR", Arr([branch]));
    if EntryPieces("Asset", f.key, f.value) != [] && EntrySelects(c, db, "Asset", f.key, f.value, row) {
      assert SomeEntrySelects(c, db, "Asset", branch.fields, row);
    }
    if Holds(c, db, "Asset", where, row) {
      assert EntryHolds(c, db, "Asset", "OR", Arr([branch]), row);
    }
  }

  /** A row with a = 1 and b = 3 passes `OR: [{ a: 1, b: 2 }]`. */
  lemma TwoEntryBranchCounterexample()
    ensures var where := [Field("OR", Arr([Obj([Field("a", Num(1)), Field("b", Num(2))])]))];
            var row := map["a" := Num(1), "b" := Num(3)];
            Selects(Exact(), map[], "Asset", WhereText("Asset", where), Values(PiecesOf("Asset", where)), row)
                == Some(true)
            && !Holds(Exact(), map[], "Asset", where, row)
  {
    hide Selects, WhereText, PiecesOf, EntryPieces, EntrySelects, EntryHolds, Holds, RowSelected, Branching,
         BranchingEntry;
    var row := map["a" := Num(1), "b" := Num(3)];
    NumberMeans(Exact(), map[], "a", 1, row);
    NumberMeans(Exact(), map[], "b", 2, row);
    TwoEntryBranch(Exact(), map[], Field("a", Num(1)), Field("b", Num(2)), row);
    BranchEntriesBecomeAlternatives(Exact(), map[], "Asset",
        [Field("OR", Arr([Obj([Field("a", Num(1)), Field("b", Num(2))])]))], row);
  }

  function Bounds(lo: Json, hi: Json, upperFirst: bool): Json {
    Obj(if upperFirst then [Field("lte", hi), Field("gte", lo)] else [Field("gte", lo), Field("lte", hi)])
  }

  lemma BoundsLookup(lo: Json, hi: Json, upperFirst: bool, k: string)
    ensures Property(Bounds(lo, hi, upperFirst), k)
            == if k == "gte" then Some(lo) else if k == "lte" then Some(hi) else None
    ensures Property(Obj([Field("gte", lo)]), k) == if k == "gte" then Some(lo) else None
  {
    var f, g := Field("gte", lo), Field("lte", hi);
    assert [f, g][1..] == [g] && [g, f][1..] == [f] && [f][1..] == [] && [g][1..] == [];
    assert Lookup([], k) == None;
    assert Lookup([f], k) == if k == "gte" then Some(lo) else None;
    assert Lookup([g], k) == if k == "lte" then Some(hi) else None;
  }

  lemma BoundsMeaning(c: Collation, cell: Json, lo: Json, hi: Json, upperFirst: bool)
    ensures ColumnHolds(c, cell, Bounds(lo, hi, upperFirst))
            <==> OperatorHolds(c, cell, "gte", lo) && OperatorHolds(c, cell, "lte", hi)
    ensures ColumnSelects(c, cell, Bounds(lo, hi, upperFirst)) <==> OperatorHolds(c, cell, "gte", lo)
  {
    hide OperatorHolds, Lookup;
    BoundsLookup(lo, hi, upperFirst, "contains");
    BoundsLookup(lo, hi, upperFirst, "gte");
    var fields := Bounds(lo, hi, upperFirst).fields;
    assert fields[0] in fields && fields[1] in fields;
  }

  lemma OneColumn(c: Collation, db: Database, table: string, column: string, value: Json, row: Row)
    requires column != "OR" && RelationOf(table, column).None?
    ensures var where := [Field(column, value)];
            var cell := Cell(row, NormalizeColumn(table, column));
            && PiecesOf(table, where) == [ColumnPiece(NormalizeColumn(table, column), value)] && Complete(table, where)
            && (RowSelected(c, db, table, where, row) <==> ColumnSelects(c, cell, value))
            && (Holds(c, db, table, where, row) <==> ColumnHolds(c, cell, value))
  {
    hide ColumnPiece, ColumnHolds, ColumnSelects;
    var where := [Field(column, value)];
    assert where[0] in where && where[1..] == [];
    assert PiecesOf(table, []) == [] && Complete(table, []);
  }

  /**
   * With both `gte` and `lte`, in either order, only the lower bound is compiled: for every
   * collation, row and bounds the text agrees with the filter exactly when on that row the
   * lower bound implies the upper one.
   */
  lemma UpperBoundLost(c: Collation, db: Database, table: string, column: string, lo: Json, hi: Json,
      upperFirst: bool, row: Row)
    requires column != "OR" && RelationOf(table, column).None?
    ensures var where := [Field(column, Bounds(lo, hi, upperFirst))];
            var cell := Cell(row, NormalizeColumn(table, column));
            var selected := Selects(c, db, table, WhereText(table, where), Values(PiecesOf(table, where)), row);
            && PiecesOf(table, where) == PiecesOf(table, [Field(column, Obj([Field("gte", lo)]))])
            && selected == Some(OperatorHolds(c, cell, "gte", lo))
            && (selected == Some(Holds(c, db, table, where, row))
                <==> (OperatorHolds(c, cell, "gte", lo) ==> OperatorHolds(c, cell, "lte", hi)))
  {
    var where := [Field(column, Bounds(lo, hi, upperFirst))];
    BoundsLookup(lo, hi, upperFirst, "contains");
    BoundsLookup(lo, hi, upperFirst, "gte");
    assert ColumnPiece(NormalizeColumn(table, column), Bounds(lo, hi, upperFirst))
           == ColumnPiece(NormalizeColumn(table, column), Obj([Field("gte", lo)]));
    hide PiecesOf, Complete, Selects, WhereText, Holds, RowSelected, OperatorHolds, ColumnHolds, ColumnSelects,
         ColumnPiece;
    OneColumn(c, db, table, column, Bounds(lo, hi, upperFirst), row);
    OneColumn(c, db, table, column, Obj([Field("gte", lo)]), row);
    BoundsMeaning(c, Cell(row, NormalizeColumn(table, column)), lo, hi, upperFirst);
    EmittedMeaning(c, db, table, where, row);
  }

  /** Without the OR parentheses the joined text is read differently: AND takes the last alternative only. */
  lemma ParenthesesMatter(c: Collation, db: Database, table: string, a: string, b: string, d: string, x: Json,
      y: Json, z: Json, row: Row)
    requires Related(c, Cell(row, a), x) && !Related(c, Cell(row, d), z)
    ensures var bare := [Name(a), Op(Eq), Mark, Or, Name(b), Op(Eq), Mark, And, Name(d), Op(Eq), Mark];
            var grouped := [LParen, Name(a), Op(Eq), Mark, Or, Name(b), Op(Eq), Mark, RParen,
                            And, Name(d), Op(Eq), Mark];
            Selects(c, db, table, bare, [x, y, z], row) == Some(true)
            && Selects(c, db, table, grouped, [x, y, z], row) == Some(false)
  {
    hide ReadCondition, ReadOr, ReadAnd, Eval, Bind;
    var pa := ColumnClause(a, x);
    var pb := ColumnClause(b, y);
    var pd := ColumnClause(d, z);
    var s := Scope(map[table := row], table);
    var ea, eb, ed := Cmp(a, Eq, x), Cmp(b, Eq, y), Cmp(d, Eq, z);
    BareText(pa, pb, pd, ea, eb, ed);
    GroupedText(pa, pb, pd, ea, eb, ed);
    EvalEquality(c, db, s, a, x);
    EvalEquality(c, db, s, d, z);
    EvalCases(c, db, s, ea, eb, ed);
    assert [x] + [y] + [z] == [x, y, z];
    assert pa.tokens + [Or] + pb.tokens + [And] + pd.tokens
        == [Name(a), Op(Eq), Mark, Or, Name(b), Op(Eq), Mark, And, Name(d), Op(Eq), Mark];
    assert [LParen] + (pa.tokens + [Or] + pb.tokens) + [RParen] + [And] + pd.tokens
        == [LParen, Name(a), Op(Eq), Mark, Or, Name(b), Op(Eq), Mark, RParen, And, Name(d), Op(Eq), Mark];
  }

  lemma ColumnClause(column: string, v: Json) returns (p: Piece)
    ensures p == Piece([Name(column), Op(Eq), Mark], [v])
    ensures Reads([p], [Cmp(column, Eq, v)])
  {
    p := Piece([Name(column), Op(Eq), Mark], [v]);
    var bound := [Name(column), Op(Eq), Bound(v)];
    assert bound[3..] == [];
    ShortClause(p.tokens, [v], bound, Cmp(column, Eq, v));
  }

  lemma EvalEquality(c: Collation, db: Database, s: Scope, column: string, v: Json)
    ensures Eval(c, db, s, Cmp(column, Eq, v)) == True <==> Related(c, Cell(s.RowOf(s.current), column), v)
  {
  }

  lemma EvalCases(c: Collation, db: Database, s: Scope, ea: Expr, eb: Expr, ed: Expr)
    requires Eval(c, db, s, ea) == True && Eval(c, db, s, ed) != True
    ensures Eval(c, db, s, AnyOf([ea, AllOf([eb, ed])])) == True
    ensures Eval(c, db, s, AllOf([AnyOf([ea, eb]), ed])) != True
  {
    hide Compare, EvalMember;
    var l := [AnyOf([ea, eb]), ed];
    assert l[1..] == [ed] && [ed][1..] == [];
    assert EvalAll(c, db, s, [ed]) != True;
  }

  lemma BareText(pa: Piece, pb: Piece, pd: Piece, ea: Expr, eb: Expr, ed: Expr)
    requires Reads([pa], [ea]) && Reads([pb], [eb]) && Reads([pd], [ed])
    ensures Bind(pa.tokens + [Or] + pb.tokens + [And] + pd.tokens, pa.values + pb.values + pd.values).Some?
    ensures Read(Bind(pa.tokens + [Or] + pb.tokens + [And] + pd.tokens, pa.values + pb.values + pd.values).value)
            == Some(AnyOf([ea, AllOf([eb, ed])]))
  {
    hide ReadCondition, ReadAnd, ReadOr, Bind, IsCondition;
    ReadsAppend([pb], [eb], [pd], [ed]);
    PairText(pb, pd, And);
    ReadJoinedAll([pb, pd], [eb, ed], []);
    var tail := Bind(Join(Texts([pb, pd]), And), Values([pb, pd])).value;
    assert Bind([pa][0].tokens, [pa][0].values).Some?;
    var first := Bind(pa.tokens, pa.values).value;
    assert IsCondition(first, [ea][0]);
    MoreDisjuncts(first, ea, tail, [AllOf([eb, ed])], []);
    BindPlain([Or]);
    BindAppend(pa.tokens, [Or], pa.values, []);
    BindAppend(pa.tokens + [Or], Join(Texts([pb, pd]), And), pa.values + [], Values([pb, pd]));
    assert pa.values + [] + Values([pb, pd]) == pa.values + pb.values + pd.values;
    assert pa.tokens + [Or] + Join(Texts([pb, pd]), And) == pa.tokens + [Or] + pb.tokens + [And] + pd.tokens;
    assert tail + [] == tail && first + [Or] + tail + [] == first + [Or] + tail;
    assert Bind(pa.tokens + [Or] + pb.tokens + [And] + pd.tokens, pa.values + pb.values + pd.values).value
           == first + [Or] + tail;
    assert [ea] + [AllOf([eb, ed])] == [ea, AllOf([eb, ed])];
  }

  lemma GroupedText(pa: Piece, pb: Piece, pd: Piece, ea: Expr, eb: Expr, ed: Expr)
    requires Reads([pa], [ea]) && Reads([pb], [eb]) && Reads([pd], [ed])
    ensures Bind([LParen] + (pa.tokens + [Or] + pb.tokens) + [RParen] + [And] + pd.tokens,
                 pa.values + pb.values + pd.values).Some?
    ensures Read(Bind([LParen] + (pa.tokens + [Or] + pb.tokens) + [RParen] + [And] + pd.tokens,
                      pa.values + pb.values + pd.values).value)
            == Some(AllOf([AnyOf([ea, eb]), ed]))
  {
    hide ReadCondition, ReadAnd, ReadOr, Bind, IsCondition;
    ReadsAppend([pa], [ea], [pb], [eb]);
    PairText(pa, pb, Or);
    Parenthesised([pa, pb], [ea, eb], Or, AnyOf([ea, eb]));
    var g := Piece([LParen] + Join(Texts([pa, pb]), Or) + [RParen], Values([pa, pb]));
    ReadsAppend([g], [AnyOf([ea, eb])], [pd], [ed]);
    PairText(g, pd, And);
    ReadWhere([g, pd], [AnyOf([ea, eb]), ed]);
    assert g.tokens + [And] + pd.tokens == [LParen] + (pa.tokens + [Or] + pb.tokens) + [RParen] + [And] + pd.tokens;
    assert g.values + pd.values == pa.values + pb.values + pd.values;
  }

  lemma PairText(p: Piece, q: Piece, separator: Token)
    ensures [p] + [q] == [p, q]
    ensures Join(Texts([p, q]), separator) == p.tokens + [separator] + q.tokens
    ensures Values([p, q]) == p.values + q.values
  {
    assert [p, q][1..] == [q] && [q][1..] == [];
    assert Texts([q]) == [q.tokens] + [] && Values([q]) == q.values + [];
    assert q.values + [] == q.values;
    assert Texts([p, q]) == [p.tokens] + Texts([q]) == [p.tokens, q.tokens];
    assert [p.tokens, q.tokens][1..] == [q.tokens];
  }
}
