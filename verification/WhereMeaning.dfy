/**
 * What a filter object means for a row, and the correctness of the compiler
 * against that meaning.
 */
module WhereMeaning {
  import opened Prelude
  import opened Sql
  import opened WhereCompiler

  // ----- direct meaning -----

  /** A row meets a filter object when it meets every entry. */
  ghost predicate Holds(c: Collation, db: Database, table: string, where: seq<Field>, row: Row)
    decreases where
  {
    forall f | f in where :: EntryHolds(c, db, table, f.key, f.value, row)
  }

  /** OR: some branch holds as a whole. Relation: some related row meets the nested filter. */
  ghost predicate EntryHolds(c: Collation, db: Database, table: string, key: string, value: Json, row: Row)
    decreases value
  {
    if key == "OR" && value.Arr? then
      exists b | b in value.items :: b.Obj? && Holds(c, db, table, b.fields, row)
    else if RelationOf(table, key).Some? && value.Obj? then
      var rel := RelationOf(table, key).value;
      exists r | r in Rows(db, rel.inner) ::
        Related(c, Cell(r, rel.innerColumn), Cell(row, rel.outerColumn)) && Holds(c, db, rel.inner, value.fields, r)
    else
      ColumnHolds(c, Cell(row, NormalizeColumn(table, key)), value)
  }

  ghost predicate Related(c: Collation, a: Json, b: Json) {
    !a.Null? && !b.Null? && c.compare(a, b) == 0
  }

  ghost predicate ColumnHolds(c: Collation, cell: Json, value: Json) {
    if value.Null? then cell.Null?
    else if value.Obj? then forall f | f in value.fields :: OperatorHolds(c, cell, f.key, f.value)
    else Related(c, cell, value)
  }

  ghost predicate OperatorHolds(c: Collation, cell: Json, op: string, v: Json) {
    if op == "contains" then !cell.Null? && c.like(cell, LikePattern(v))
    else if op == "gte" then !cell.Null? && !v.Null? && c.compare(cell, v) >= 0
    else if op == "lte" then !cell.Null? && !v.Null? && c.compare(cell, v) <= 0
    else if op == "not" then !cell.Null? && (v.Null? || c.compare(cell, v) != 0)
    else op == "in" && v.Arr? && exists x | x in v.items :: Related(c, cell, x)
  }

  // ----- the supported filter language -----

  predicate Scalar(v: Json) {
    !v.Arr? && !v.Obj?
  }

  predicate SupportedValue(value: Json) {
    Scalar(value)
    || (value.Obj? && |value.fields| == 1 &&
        var f := value.fields[0];
        if f.key == "in" then f.value.Arr? && forall x | x in f.value.items :: Scalar(x)
        else f.key in ["contains", "gte", "lte", "not"] && Scalar(f.value))
  }

  /** Non-empty single-entry OR branches, non-empty relation filters, one operator per operator object. */
  predicate Supported(table: string, where: seq<Field>)
    decreases where
  {
    forall f | f in where :: SupportedEntry(table, f.key, f.value)
  }

  predicate SupportedEntry(table: string, key: string, value: Json)
    decreases value
  {
    if key == "OR" && value.Arr? then
      value.items != [] && forall b | b in value.items :: b.Obj? && |b.fields| == 1 && Supported(table, b.fields)
    else if RelationOf(table, key).Some? && (value.Obj? || value.Arr?) then
      value.Obj? && value.fields != [] && Supported(RelationOf(table, key).value.inner, value.fields)
    else
      SupportedValue(value)
  }

  // ----- supported filters are complete: one clause per entry -----

  lemma {:induction false} SupportedComplete(table: string, where: seq<Field>)
    requires Supported(table, where)
    ensures Complete(table, where)
    ensures |PiecesOf(table, where)| == |ExprsOf(table, where)| == |where|
    decreases where
  {
    if where != [] {
      SupportedEntryComplete(table, where[0].key, where[0].value);
      SupportedComplete(table, where[1..]);
    }
  }

  lemma {:induction false} SupportedEntryComplete(table: string, key: string, value: Json)
    requires SupportedEntry(table, key, value)
    ensures CompleteEntry(table, key, value)
    ensures |EntryPieces(table, key, value)| == |EntryExprs(table, key, value)| == 1
    decreases value
  {
    if key == "OR" && value.Arr? {
      SupportedBranchesComplete(table, value.items);
    } else if RelationOf(table, key).Some? && value.Obj? {
      SupportedComplete(RelationOf(table, key).value.inner, value.fields);
    }
  }

  lemma {:induction false} SupportedBranchesComplete(table: string, items: seq<Json>)
    requires forall b | b in items :: b.Obj? && |b.fields| == 1 && Supported(table, b.fields)
    ensures CompleteBranches(table, items)
    ensures |BranchPieces(table, items)| == |BranchExprs(table, items)| == |items|
    decreases items
  {
    if items != [] {
      SupportedComplete(table, items[0].fields);
      SupportedBranchesComplete(table, items[1..]);
    }
  }

  // ----- evaluation agrees with the meaning -----

  lemma EvalAllOf(c: Collation, db: Database, s: Scope, es: seq<Expr>)
    ensures Eval(c, db, s, AllOf(es)) == EvalAll(c, db, s, es)
  {
    if |es| == 1 {
      assert es[1..] == [];
    }
  }

  lemma EvalAnyOf(c: Collation, db: Database, s: Scope, es: seq<Expr>)
    ensures Eval(c, db, s, AnyOf(es)) == EvalAny(c, db, s, es)
  {
    if |es| == 1 {
      assert es[1..] == [];
    }
  }

  lemma {:induction false} EvalMemberTrue(c: Collation, cell: Json, vs: seq<Json>)
    ensures EvalMember(c, cell, vs) == True <==> exists v | v in vs :: Related(c, cell, v)
  {
    if vs != [] {
      EvalMemberTrue(c, cell, vs[1..]);
      assert forall v :: v in vs <==> v == vs[0] || v in vs[1..];
      assert Compare(c, Eq, cell, vs[0]) == True <==> Related(c, cell, vs[0]);
    }
  }

  lemma OneOperator(value: Json)
    requires value.Obj? && |value.fields| == 1
    ensures forall k: string :: Property(value, k) == if value.fields[0].key == k then Some(value.fields[0].value)
            else None
  {
    forall k: string
      ensures Property(value, k) == if value.fields[0].key == k then Some(value.fields[0].value) else None
    {
      assert value.fields[1..] == [];
      assert Lookup(value.fields[1..], k) == None;
    }
  }

  lemma ColumnMeaning(c: Collation, db: Database, s: Scope, column: string, value: Json)
    requires SupportedValue(value)
    ensures Eval(c, db, s, ColumnExpr(column, value)) == True
            <==> ColumnHolds(c, Cell(s.RowOf(s.current), column), value)
  {
    hide Text, TextList, Lookup;
    var cell := Cell(s.RowOf(s.current), column);
    if value.Obj? {
      OneOperator(value);
      var f := value.fields[0];
      assert f in value.fields;
      assert ColumnHolds(c, cell, value) <==> OperatorHolds(c, cell, f.key, f.value);
      if f.key == "in" {
        EvalMemberTrue(c, cell, f.value.items);
      }
    }
  }

  /** On supported filters the conditions hold together exactly when the filter does. */
  lemma {:induction false} ConditionsMean(c: Collation, db: Database, s: Scope, where: seq<Field>)
    requires Supported(s.current, where)
    ensures EvalAll(c, db, s, ExprsOf(s.current, where)) == True
            <==> Holds(c, db, s.current, where, s.RowOf(s.current))
    decreases where
  {
    if where != [] {
      var f := where[0];
      assert f in where;
      EntryMeans(c, db, s, f.key, f.value);
      ConditionsMean(c, db, s, where[1..]);
      SupportedEntryComplete(s.current, f.key, f.value);
      var es := EntryExprs(s.current, f.key, f.value);
      assert es == [es[0]];
      assert (es + ExprsOf(s.current, where[1..]))[1..] == ExprsOf(s.current, where[1..]);
      assert where == [f] + where[1..];
    }
  }

  lemma {:induction false} EntryMeans(c: Collation, db: Database, s: Scope, key: string, value: Json)
    requires SupportedEntry(s.current, key, value)
    ensures |EntryExprs(s.current, key, value)| == 1
    ensures Eval(c, db, s, EntryExprs(s.current, key, value)[0]) == True
            <==> EntryHolds(c, db, s.current, key, value, s.RowOf(s.current))
    decreases value
  {
    hide Eval, EvalAll, ColumnExpr, ColumnHolds;
    SupportedEntryComplete(s.current, key, value);
    if key == "OR" && value.Arr? {
      BranchesMean(c, db, s, value.items);
      EvalAnyOf(c, db, s, BranchExprs(s.current, value.items));
    } else if RelationOf(s.current, key).Some? && value.Obj? {
      RelationMeans(c, db, s, RelationOf(s.current, key).value, value);
    } else {
      ColumnMeaning(c, db, s, NormalizeColumn(s.current, key), value);
    }
  }

  lemma {:induction false} BranchesMean(c: Collation, db: Database, s: Scope, items: seq<Json>)
    requires forall b | b in items :: b.Obj? && |b.fields| == 1 && Supported(s.current, b.fields)
    ensures EvalAny(c, db, s, BranchExprs(s.current, items)) == True
            <==> exists b | b in items :: b.Obj? && Holds(c, db, s.current, b.fields, s.RowOf(s.current))
    decreases items
  {
    if items != [] {
      var b := items[0];
      assert b in items;
      BranchesMean(c, db, s, items[1..]);
      ConditionsMean(c, db, s, b.fields);
      SupportedComplete(s.current, b.fields);
      var es := ExprsOf(s.current, b.fields);
      assert es == [es[0]];
      assert EvalAll(c, db, s, es) == Eval(c, db, s, es[0]) by { assert es[1..] == []; }
      assert (es + BranchExprs(s.current, items[1..]))[1..] == BranchExprs(s.current, items[1..]);
      assert items == [b] + items[1..];
    }
  }

  lemma {:induction false} RelationMeans(c: Collation, db: Database, s: Scope, rel: Relation, value: Json)
    requires value.Obj? && Supported(rel.inner, value.fields)
    requires rel.outer == s.current && rel.inner != rel.outer
    ensures Eval(c, db, s, ExistsIn(rel.inner, AllOf([LinkExpr(rel)] + ExprsOf(rel.inner, value.fields)))) == True
            <==> exists r | r in Rows(db, rel.inner) ::
                   Related(c, Cell(r, rel.innerColumn), Cell(s.RowOf(s.current), rel.outerColumn))
                   && Holds(c, db, rel.inner, value.fields, r)
    decreases value, 0
  {
    hide Holds, ExprsOf, EvalAll, Supported;
    var es := [LinkExpr(rel)] + ExprsOf(rel.inner, value.fields);
    forall r | r in Rows(db, rel.inner)
      ensures Eval(c, db, s.Enter(rel.inner, r), AllOf(es)) == True
              <==> Related(c, Cell(r, rel.innerColumn), Cell(s.RowOf(s.current), rel.outerColumn))
                   && Holds(c, db, rel.inner, value.fields, r)
    {
      RelatedRow(c, db, s, rel, value, r);
    }
  }

  lemma {:induction false} RelatedRow(c: Collation, db: Database, s: Scope, rel: Relation, value: Json, r: Row)
    requires value.Obj? && Supported(rel.inner, value.fields)
    requires rel.outer == s.current && rel.inner != rel.outer
    ensures Eval(c, db, s.Enter(rel.inner, r), AllOf([LinkExpr(rel)] + ExprsOf(rel.inner, value.fields))) == True
            <==> Related(c, Cell(r, rel.innerColumn), Cell(s.RowOf(s.current), rel.outerColumn))
                 && Holds(c, db, rel.inner, value.fields, r)
    decreases value, 0, 0
  {
    hide Holds, ExprsOf, Supported;
    var inside := s.Enter(rel.inner, r);
    var es := [LinkExpr(rel)] + ExprsOf(rel.inner, value.fields);
    ConditionsMean(c, db, inside, value.fields);
    EvalAllOf(c, db, inside, es);
    assert es[1..] == ExprsOf(rel.inner, value.fields);
  }

  // ----- main results -----

  /** The text after WHERE: the clauses joined by AND. */
  function WhereText(table: string, where: seq<Field>): seq<Token> {
    Join(Texts(PiecesOf(table, where)), And)
  }

  /**
   * Compiler correctness: for every supported filter, table contents and row, the
   * emitted text has one mark per pushed value, is accepted, and selects the row
   * exactly when the filter holds.
   */
  lemma WhereCompilerCorrect(c: Collation, db: Database, table: string, where: seq<Field>, row: Row)
    requires Supported(table, where) && where != []
    ensures Marks(WhereText(table, where)) == |Values(PiecesOf(table, where))|
    ensures Selects(c, db, table, WhereText(table, where), Values(PiecesOf(table, where)), row)
            == Some(Holds(c, db, table, where, row))
  {
    hide Eval, Bind, Read, Join, PiecesOf, ExprsOf, Reads;
    SupportedComplete(table, where);
    EmittedReads(table, where);
    var ps, es := PiecesOf(table, where), ExprsOf(table, where);
    ReadWhere(ps, es);
    BindCounts(WhereText(table, where), Values(ps));
    var s := Scope(map[table := row], table);
    EvalAllOf(c, db, s, es);
    ConditionsMean(c, db, s, where);
  }

  /** The rows, in table order, that meet the filter. */
  ghost function Matching(c: Collation, db: Database, table: string, where: seq<Field>, rows: seq<Row>): seq<Row> {
    if rows == [] then []
    else (if Holds(c, db, table, where, rows[0]) then [rows[0]] else []) + Matching(c, db, table, where, rows[1..])
  }

  lemma {:induction false} FilterMatches(c: Collation, db: Database, table: string, where: seq<Field>, rows: seq<Row>)
    requires Supported(table, where) && where != []
    ensures Filter(c, db, table, WhereText(table, where), Values(PiecesOf(table, where)), rows)
            == Some(Matching(c, db, table, where, rows))
  {
    hide Selects, Holds, WhereText, Supported, PiecesOf;
    if rows != [] {
      WhereCompilerCorrect(c, db, table, where, rows[0]);
      FilterMatches(c, db, table, where, rows[1..]);
    }
  }

  /** genericCount: no WHERE part for an empty filter, the compiled one otherwise. */
  function GenericCount(c: Collation, db: Database, table: string, where: seq<Field>): Option<nat> {
    if where == [] then Some(|Rows(db, table)|)
    else match Filter(c, db, table, WhereText(table, where), Values(PiecesOf(table, where)), Rows(db, table))
      case None => None
      case Some(rows) => Some(|rows|)
  }

  /** The count is the number of rows that meet the filter, the empty filter included. */
  lemma GenericCountCorrect(c: Collation, db: Database, table: string, where: seq<Field>)
    requires Supported(table, where)
    ensures GenericCount(c, db, table, where) == Some(|Matching(c, db, table, where, Rows(db, table))|)
  {
    if where == [] {
      MatchingAll(c, db, table, Rows(db, table));
    } else {
      FilterMatches(c, db, table, where, Rows(db, table));
    }
  }

  lemma {:induction false} MatchingAll(c: Collation, db: Database, table: string, rows: seq<Row>)
    ensures Matching(c, db, table, [], rows) == rows
  {
    if rows != [] {
      MatchingAll(c, db, table, rows[1..]);
      assert rows == [rows[0]] + rows[1..];
    }
  }
}
