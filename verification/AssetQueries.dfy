/**
 * Asset queries: the asset form of the `where` compiler with its AND groups, and the
 * paging suffix.
 */
module AssetQueries {
  import opened Prelude
  import opened Sql
  import opened WhereCompiler
  import opened WhereMeaning

  // ----- clauses of the asset form -----

  /** Inside OR: only `contains` and equality. */
  function OrPiece(column: string, value: Json): Piece {
    if Property(value, "contains").Some? then ColumnPiece(column, value)
    else Piece([Name(column), Op(Eq), Mark], [value])
  }

  /** Inside AND: `contains`, NULL, `in` (a single value is wrapped) and equality. */
  function AndPiece(column: string, value: Json): Piece {
    if Property(value, "contains").Some? || value.Null? then ColumnPiece(column, value)
    else if Property(value, "in").Some? then
      var given := Property(value, "in").value;
      var vs := if given.Arr? then given.items else [given];
      if vs == [] then Piece([Literal(1), Op(Eq), Literal(0)], [])
      else Piece([Name(column), In, LParen] + MarkList(|vs|) + [RParen], vs)
    else Piece([Name(column), Op(Eq), Mark], [value])
  }

  /** At the top level: NULL, `contains` and equality. */
  function TopPiece(column: string, value: Json): Piece {
    if Property(value, "contains").Some? || value.Null? then ColumnPiece(column, value)
    else Piece([Name(column), Op(Eq), Mark], [value])
  }

  /** The entries of all the objects of an OR or AND array, in order. */
  function Flatten(items: seq<Json>): seq<Field> {
    if items == [] then [] else Entries(items[0]) + Flatten(items[1..])
  }

  function OrPieces(fields: seq<Field>): seq<Piece> {
    if fields == [] then [] else [OrPiece(fields[0].key, fields[0].value)] + OrPieces(fields[1..])
  }

  function AndPieces(fields: seq<Field>): seq<Piece> {
    if fields == [] then [] else [AndPiece(fields[0].key, fields[0].value)] + AndPieces(fields[1..])
  }

  function Group(ps: seq<Piece>, separator: Token): seq<Piece> {
    if ps == [] then [] else [Piece([LParen] + Join(Texts(ps), separator) + [RParen], Values(ps))]
  }

  function AssetEntryPieces(key: string, value: Json): seq<Piece> {
    if key == "OR" && value.Arr? then Group(OrPieces(Flatten(value.items)), Or)
    else if key == "AND" && value.Arr? then Group(AndPieces(Flatten(value.items)), And)
    else [TopPiece(key, value)]
  }

  function AssetPieces(where: seq<Field>): seq<Piece> {
    if where == [] then [] else AssetEntryPieces(where[0].key, where[0].value) + AssetPieces(where[1..])
  }

  function AssetWhere(where: seq<Field>): seq<Token> {
    if where == [] then [] else [Where] + Join(Texts(AssetPieces(where)), And)
  }

  /** The statement text of asset.findMany after the table name, and its values. */
  function FindManyText(where: seq<Field>, skip: Option<nat>, take: Option<nat>): seq<Token> {
    AssetWhere(where) + (if take.Some? then [Limit, Mark] else []) + (if skip.Some? then [Offset, Mark] else [])
  }

  function FindManyValues(where: seq<Field>, skip: Option<nat>, take: Option<nat>): seq<Json> {
    Values(AssetPieces(where)) + (if take.Some? then [Num(take.value)] else [])
        + (if skip.Some? then [Num(skip.value)] else [])
  }

  function FindMany(c: Collation, db: Database, where: seq<Field>, skip: Option<nat>,
      take: Option<nat>): Option<seq<Row>> {
    Execute(c, db, "Asset", FindManyText(where, skip, take), FindManyValues(where, skip, take))
  }

  /** asset.count repeats the WHERE part without paging and reports the number of rows. */
  function Count(c: Collation, db: Database, where: seq<Field>): Option<nat> {
    match Execute(c, db, "Asset", AssetWhere(where), Values(AssetPieces(where)))
    case None => None
    case Some(rows) => Some(|rows|)
  }

  // ----- meaning -----

  ghost predicate FieldHolds(c: Collation, f: Field, row: Row) {
    ColumnHolds(c, Cell(row, f.key), f.value)
  }

  /** AND: every entry of every object. OR: some entry of some (one-entry) object. */
  ghost predicate AssetEntryHolds(c: Collation, f: Field, row: Row) {
    if f.key == "OR" && f.value.Arr? then exists g | g in Flatten(f.value.items) :: FieldHolds(c, g, row)
    else if f.key == "AND" && f.value.Arr? then forall g | g in Flatten(f.value.items) :: FieldHolds(c, g, row)
    else FieldHolds(c, f, row)
  }

  ghost predicate AssetHolds(c: Collation, where: seq<Field>, row: Row) {
    forall f | f in where :: AssetEntryHolds(c, f, row)
  }

  ghost function MatchingAssets(c: Collation, where: seq<Field>, rows: seq<Row>): seq<Row> {
    if rows == [] then []
    else (if AssetHolds(c, where, rows[0]) then [rows[0]] else []) + MatchingAssets(c, where, rows[1..])
  }

  // ----- supported filters -----

  predicate IsContains(v: Json) {
    v.Obj? && |v.fields| == 1 && v.fields[0].key == "contains" && Scalar(v.fields[0].value)
  }

  predicate IsIn(v: Json) {
    v.Obj? && |v.fields| == 1 && v.fields[0].key == "in" && v.fields[0].value.Arr?
    && forall x | x in v.fields[0].value.items :: Scalar(x)
  }

  predicate SupportedAsset(f: Field) {
    if f.key == "OR" && f.value.Arr? then
      f.value.items != []
      && (forall b | b in f.value.items :: b.Obj? && |b.fields| == 1)
      && forall g | g in Flatten(f.value.items) :: (Scalar(g.value) && !g.value.Null?) || IsContains(g.value)
    else if f.key == "AND" && f.value.Arr? then
      Flatten(f.value.items) != []
      && forall g | g in Flatten(f.value.items) :: Scalar(g.value) || IsContains(g.value) || IsIn(g.value)
    else Scalar(f.value) || IsContains(f.value)
  }

  predicate SupportedAssets(where: seq<Field>) {
    forall f | f in where :: SupportedAsset(f)
  }

  // ----- the asset clauses are readable column clauses -----

  function FieldExprs(fields: seq<Field>): seq<Expr> {
    if fields == [] then [] else [ColumnExpr(fields[0].key, fields[0].value)] + FieldExprs(fields[1..])
  }

  function AssetExprs(where: seq<Field>): seq<Expr> {
    if where == [] then [] else
    var f := where[0];
    [if f.key == "OR" && f.value.Arr? then AnyOf(FieldExprs(Flatten(f.value.items)))
     else if f.key == "AND" && f.value.Arr? then AllOf(FieldExprs(Flatten(f.value.items)))
     else ColumnExpr(f.key, f.value)]
    + AssetExprs(where[1..])
  }

  lemma SameClause(f: Field)
    ensures Scalar(f.value) || IsContains(f.value) ==> TopPiece(f.key, f.value) == ColumnPiece(f.key, f.value)
    ensures (Scalar(f.value) && !f.value.Null?) || IsContains(f.value)
            ==> OrPiece(f.key, f.value) == ColumnPiece(f.key, f.value)
    ensures Scalar(f.value) || IsContains(f.value) || IsIn(f.value)
            ==> AndPiece(f.key, f.value) == ColumnPiece(f.key, f.value)
  {
    hide Text, TextList, MarkList;
    if f.value.Obj? && |f.value.fields| == 1 {
      OneOperator(f.value);
    }
  }

  lemma {:induction false} OrPiecesRead(fields: seq<Field>)
    requires forall g | g in fields :: (Scalar(g.value) && !g.value.Null?) || IsContains(g.value)
    ensures Reads(OrPieces(fields), FieldExprs(fields))
  {
    hide ColumnPiece, ColumnExpr, OrPiece, IsCondition;
    if fields != [] {
      assert fields[0] in fields;
      SameClause(fields[0]);
      ColumnReads(fields[0].key, fields[0].value);
      OrPiecesRead(fields[1..]);
      ReadsAppend([ColumnPiece(fields[0].key, fields[0].value)], [ColumnExpr(fields[0].key, fields[0].value)],
                  OrPieces(fields[1..]), FieldExprs(fields[1..]));
    }
  }

  lemma {:induction false} AndPiecesRead(fields: seq<Field>)
    requires forall g | g in fields :: Scalar(g.value) || IsContains(g.value) || IsIn(g.value)
    ensures Reads(AndPieces(fields), FieldExprs(fields))
  {
    hide ColumnPiece, ColumnExpr, AndPiece, IsCondition;
    if fields != [] {
      assert fields[0] in fields;
      SameClause(fields[0]);
      ColumnReads(fields[0].key, fields[0].value);
      AndPiecesRead(fields[1..]);
      ReadsAppend([ColumnPiece(fields[0].key, fields[0].value)], [ColumnExpr(fields[0].key, fields[0].value)],
                  AndPieces(fields[1..]), FieldExprs(fields[1..]));
    }
  }

  lemma FlattenNonEmpty(items: seq<Json>)
    requires items != [] && forall b | b in items :: b.Obj? && |b.fields| == 1
    ensures Flatten(items) != []
  {
    assert items[0] in items;
  }

  lemma AssetEntryReads(f: Field)
    requires SupportedAsset(f)
    ensures Reads(AssetEntryPieces(f.key, f.value), [AssetExprs([f])[0]])
    ensures |AssetEntryPieces(f.key, f.value)| == 1
  {
    hide ColumnPiece, ColumnExpr, TopPiece, IsCondition, Bind, Join, Texts, Values;
    if f.key == "OR" && f.value.Arr? {
      FlattenNonEmpty(f.value.items);
      var fs := Flatten(f.value.items);
      OrPiecesRead(fs);
      ReadsLength(OrPieces(fs), FieldExprs(fs));
      Parenthesised(OrPieces(fs), FieldExprs(fs), Or, AnyOf(FieldExprs(fs)));
    } else if f.key == "AND" && f.value.Arr? {
      var fs := Flatten(f.value.items);
      AndPiecesRead(fs);
      ReadsLength(AndPieces(fs), FieldExprs(fs));
      Parenthesised(AndPieces(fs), FieldExprs(fs), And, AllOf(FieldExprs(fs)));
    } else {
      SameClause(f);
      ColumnReads(f.key, f.value);
    }
  }

  lemma {:induction false} AssetReads(where: seq<Field>)
    requires SupportedAssets(where)
    ensures Reads(AssetPieces(where), AssetExprs(where))
    ensures |AssetPieces(where)| == |where|
  {
    hide AssetEntryPieces, Reads, SupportedAsset;
    if where != [] {
      AssetEntryReads(where[0]);
      AssetReads(where[1..]);
      assert [where[0]][0] == where[0];
      assert AssetExprs(where) == [AssetExprs([where[0]])[0]] + AssetExprs(where[1..]);
      ReadsAppend(AssetEntryPieces(where[0].key, where[0].value), [AssetExprs([where[0]])[0]],
          AssetPieces(where[1..]), AssetExprs(where[1..]));
    } else {
      ReadsNothing();
    }
  }

  lemma ReadsNothing()
    ensures Reads([], [])
  {
  }

  // ----- evaluation agrees with the meaning -----

  lemma FieldMeans(c: Collation, db: Database, s: Scope, f: Field)
    requires Scalar(f.value) || IsContains(f.value) || IsIn(f.value)
    ensures Eval(c, db, s, ColumnExpr(f.key, f.value)) == True <==> FieldHolds(c, f, s.RowOf(s.current))
  {
    ColumnMeaning(c, db, s, f.key, f.value);
  }

  lemma {:induction false} FieldsMean(c: Collation, db: Database, s: Scope, fields: seq<Field>)
    requires forall f | f in fields :: Scalar(f.value) || IsContains(f.value) || IsIn(f.value)
    ensures EvalAll(c, db, s, FieldExprs(fields)) == True
            <==> forall f | f in fields :: FieldHolds(c, f, s.RowOf(s.current))
    ensures EvalAny(c, db, s, FieldExprs(fields)) == True
            <==> exists f | f in fields :: FieldHolds(c, f, s.RowOf(s.current))
  {
    hide Eval, FieldHolds, ColumnExpr;
    if fields != [] {
      assert fields[0] in fields;
      FieldMeans(c, db, s, fields[0]);
      FieldsMean(c, db, s, fields[1..]);
      assert forall f :: f in fields <==> f == fields[0] || f in fields[1..];
    }
  }

  lemma AssetEntryMeans(c: Collation, db: Database, s: Scope, f: Field)
    requires SupportedAsset(f)
    ensures Eval(c, db, s, AssetExprs([f])[0]) == True <==> AssetEntryHolds(c, f, s.RowOf(s.current))
  {
    hide Eval, FieldHolds, ColumnExpr;
    if f.value.Arr? && (f.key == "OR" || f.key == "AND") {
      var fs := Flatten(f.value.items);
      FieldsMean(c, db, s, fs);
      EvalAnyOf(c, db, s, FieldExprs(fs));
      EvalAllOf(c, db, s, FieldExprs(fs));
    } else {
      FieldMeans(c, db, s, f);
    }
  }

  lemma {:induction false} AssetsMean(c: Collation, db: Database, s: Scope, where: seq<Field>)
    requires SupportedAssets(where)
    ensures EvalAll(c, db, s, AssetExprs(where)) == True <==> AssetHolds(c, where, s.RowOf(s.current))
  {
    hide Eval, AssetEntryHolds, SupportedAsset;
    if where != [] {
      var f := where[0];
      AssetEntryMeans(c, db, s, f);
      AssetsMean(c, db, s, where[1..]);
      assert [f][0] == f;
      assert AssetExprs(where)[0] == AssetExprs([f])[0];
      assert AssetExprs(where)[1..] == AssetExprs(where[1..]);
      assert forall g :: g in where <==> g == f || g in where[1..];
    }
  }

  lemma {:induction false} KeepMatches(c: Collation, db: Database, where: seq<Field>, rows: seq<Row>)
    requires SupportedAssets(where)
    ensures Keep(c, db, "Asset", if where == [] then None else Some(AllOf(AssetExprs(where))), rows)
            == MatchingAssets(c, where, rows)
  {
    hide Eval, AssetHolds, AssetExprs;
    if rows != [] {
      var s := Scope(map["Asset" := rows[0]], "Asset");
      AssetsMean(c, db, s, where);
      EvalAllOf(c, db, s, AssetExprs(where));
      if where == [] {
        NothingAsked(c, rows[0]);
      }
      KeepMatches(c, db, where, rows[1..]);
    }
  }

  lemma NothingAsked(c: Collation, row: Row)
    ensures AssetHolds(c, [], row)
  {
  }

  // ----- statements -----

  /** The paging suffix as it reads after binding. */
  function PagingTokens(skip: Option<nat>, take: Option<nat>): seq<Token> {
    (if take.Some? then [Limit, Bound(Num(take.value))] else [])
        + (if skip.Some? then [Offset, Bound(Num(skip.value))] else [])
  }

  lemma BindPaging(skip: Option<nat>, take: Option<nat>)
    ensures Bind((if take.Some? then [Limit, Mark] else []) + (if skip.Some? then [Offset, Mark] else []),
                 (if take.Some? then [Num(take.value)] else []) + (if skip.Some? then [Num(skip.value)] else []))
            == Some(PagingTokens(skip, take))
  {
    BindWord(Limit, take);
    BindWord(Offset, skip);
    BindAppend(if take.Some? then [Limit, Mark] else [], if skip.Some? then [Offset, Mark] else [],
               if take.Some? then [Num(take.value)] else [], if skip.Some? then [Num(skip.value)] else []);
  }

  lemma BindWord(word: Token, n: Option<nat>)
    requires !word.Mark?
    ensures Bind(if n.Some? then [word, Mark] else [], if n.Some? then [Num(n.value)] else [])
            == Some(if n.Some? then [word, Bound(Num(n.value))] else [])
  {
    if n.Some? {
      var v := Num(n.value);
      BindPlain([word]);
      BindMarkList([v]);
      BindAppend([word], [Mark], [], [v]);
      assert [word] + [Mark] == [word, Mark] && [] + [v] == [v];
      assert [word] + [Bound(v)] == [word, Bound(v)];
    }
  }

  /** The whole statement binds its values and reads as its condition with its paging. */
  lemma StatementReads(where: seq<Field>, skip: Option<nat>, take: Option<nat>)
    requires SupportedAssets(where)
    ensures Bind(FindManyText(where, skip, take), FindManyValues(where, skip, take)).Some?
    ensures ReadStatement(Bind(FindManyText(where, skip, take), FindManyValues(where, skip, take)).value)
            == ReadPaging(if where == [] then None else Some(AllOf(AssetExprs(where))), PagingTokens(skip, take))
  {
    hide Bind, Join, AssetPieces, AssetExprs, ReadOr, Values, Texts, Reads, SupportedAssets;
    BindPaging(skip, take);
    var tail := PagingTokens(skip, take);
    var suffix := (if take.Some? then [Limit, Mark] else []) + (if skip.Some? then [Offset, Mark] else []);
    var numbers := (if take.Some? then [Num(take.value)] else []) + (if skip.Some? then [Num(skip.value)] else []);
    AssetReads(where);
    var ps, es := AssetPieces(where), AssetExprs(where);
    if where == [] {
      NoPieces();
      assert FindManyText(where, skip, take) == suffix;
      assert FindManyValues(where, skip, take) == numbers;
    } else {
      ReadJoinedAll(ps, es, tail);
      var text := Join(Texts(ps), And);
      var bound := Bind(text, Values(ps)).value;
      BindPlain([Where]);
      BindAppend([Where], text, [], Values(ps));
      assert [] + Values(ps) == Values(ps);
      BindAppend([Where] + text, suffix, Values(ps), numbers);
      assert FindManyText(where, skip, take) == [Where] + text + suffix;
      assert FindManyValues(where, skip, take) == Values(ps) + numbers;
      assert ([Where] + bound + tail)[1..] == bound + tail;
    }
  }

  lemma NoPieces()
    ensures AssetPieces([]) == [] && Values([]) == []
  {
  }

  /**
   * For every supported filter, table and paging, findMany returns the page of exactly
   * the matching rows; a skip without a take is the one form the server rejects.
   */
  lemma FindManyCorrect(c: Collation, db: Database, where: seq<Field>, skip: Option<nat>, take: Option<nat>)
    requires SupportedAssets(where)
    ensures FindMany(c, db, where, skip, take)
            == if skip.Some? && take.None? then None
               else Some(Page(MatchingAssets(c, where, Rows(db, "Asset")), if skip.Some? then skip.value else 0, take))
  {
    hide Bind, FindManyText, FindManyValues, ReadStatement, AssetExprs, Keep, MatchingAssets, SupportedAssets;
    StatementReads(where, skip, take);
    KeepMatches(c, db, where, Rows(db, "Asset"));
    var rows := MatchingAssets(c, where, Rows(db, "Asset"));
    assert rows[0..] == rows;
  }

  /** asset.count is the number of rows that findMany returns without paging. */
  lemma CountCorrect(c: Collation, db: Database, where: seq<Field>)
    requires SupportedAssets(where)
    ensures Count(c, db, where) == Some(|MatchingAssets(c, where, Rows(db, "Asset"))|)
    ensures FindMany(c, db, where, None, None) == Some(MatchingAssets(c, where, Rows(db, "Asset")))
  {
    hide AssetWhere, AssetPieces, Execute, MatchingAssets, SupportedAssets, Values;
    FindManyCorrect(c, db, where, None, None);
    var rows := MatchingAssets(c, where, Rows(db, "Asset"));
    assert Page(rows, 0, None) == rows;
    assert AssetWhere(where) + [] + [] == AssetWhere(where);
    assert Values(AssetPieces(where)) + [] + [] == Values(AssetPieces(where));
  }
}
