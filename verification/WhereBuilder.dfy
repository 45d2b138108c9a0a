/**
 * The compiler in the form in which it runs: it walks the filter object and pushes
 * each bound value onto one list that all recursive calls share.
 */
module WhereBuilder {
  import opened Prelude
  import opened Sql
  import opened WhereCompiler

  /** The `values` array that the caller hands in. */
  class BoundValues {
    var items: seq<Json>

    constructor ()
      ensures items == []
    {
      items := [];
    }

    method Push(more: seq<Json>)
      modifies this
      ensures items == old(items) + more
    {
      items := items + more;
    }
  }

  /** escapeColumn is reached for every column clause except the constant one of an empty `in` list. */
  predicate LegalColumn(column: string, value: Json) {
    Identifier(column) || ColumnPiece(column, value).tokens == [Literal(1), Op(Eq), Literal(0)]
  }

  /** The one form whose clause does not name the column: an empty `in` list as the first operator present. */
  predicate IsEmptyIn(value: Json) {
    && Property(value, "contains").None? && Property(value, "gte").None?
    && Property(value, "lte").None? && Property(value, "not").None?
    && Property(value, "in") == Some(Arr([]))
  }

  lemma ConstantPiece(column: string, value: Json)
    ensures LegalColumn(column, value) <==> IsEmptyIn(value) || Identifier(column)
  {
    hide Lookup, Text;
    assert MarkList(0) == [];
  }

  /** No column name at any depth makes escapeColumn throw. */
  predicate Legal(table: string, where: seq<Field>)
    decreases where
  {
    forall i :: 0 <= i < |where| ==> LegalEntry(table, where[i].key, where[i].value)
  }

  predicate LegalEntry(table: string, key: string, value: Json)
    decreases value
  {
    if key == "OR" && value.Arr? then
      forall i :: 0 <= i < |value.items| ==> value.items[i].Obj? ==> Legal(table, value.items[i].fields)
    else if RelationOf(table, key).Some? && (value.Obj? || value.Arr?) then
      value.Obj? ==> Legal(RelationOf(table, key).value.inner, value.fields)
    else LegalColumn(NormalizeColumn(table, key), value)
  }

  lemma {:induction false} PiecesSnoc(table: string, where: seq<Field>, f: Field)
    ensures PiecesOf(table, where + [f]) == PiecesOf(table, where) + EntryPieces(table, f.key, f.value)
  {
    hide EntryPieces;
    if where == [] {
      assert where + [f] == [f] && [f][1..] == [];
    } else {
      PiecesSnoc(table, where[1..], f);
      assert (where + [f])[1..] == where[1..] + [f];
    }
  }

  lemma {:induction false} BranchesSnoc(table: string, items: seq<Json>, b: Json)
    ensures BranchPieces(table, items + [b])
            == BranchPieces(table, items) + if b.Obj? then PiecesOf(table, b.fields) else []
  {
    hide PiecesOf;
    if items == [] {
      assert items + [b] == [b] && [b][1..] == [];
      assert BranchPieces(table, [b][1..]) == [];
    } else {
      BranchesSnoc(table, items[1..], b);
      assert (items + [b])[1..] == items[1..] + [b];
    }
  }

  lemma NextEntry(table: string, where: seq<Field>, i: nat)
    requires i < |where|
    ensures Texts(PiecesOf(table, where[..i + 1]))
            == Texts(PiecesOf(table, where[..i])) + Texts(EntryPieces(table, where[i].key, where[i].value))
    ensures Values(PiecesOf(table, where[..i + 1]))
            == Values(PiecesOf(table, where[..i])) + Values(EntryPieces(table, where[i].key, where[i].value))
  {
    hide Texts, Values, PiecesOf, EntryPieces;
    PiecesSnoc(table, where[..i], where[i]);
    TextsAppend(PiecesOf(table, where[..i]), EntryPieces(table, where[i].key, where[i].value));
    ValuesAppend(PiecesOf(table, where[..i]), EntryPieces(table, where[i].key, where[i].value));
    assert where[..i + 1] == where[..i] + [where[i]];
  }

  /** The clauses of one OR branch. */
  function BranchOf(table: string, b: Json): seq<Piece> {
    if b.Obj? then PiecesOf(table, b.fields) else []
  }

  lemma NextBranch(table: string, items: seq<Json>, i: nat)
    requires i < |items|
    ensures Texts(BranchPieces(table, items[..i + 1]))
            == Texts(BranchPieces(table, items[..i])) + Texts(BranchOf(table, items[i]))
    ensures Values(BranchPieces(table, items[..i + 1]))
            == Values(BranchPieces(table, items[..i])) + Values(BranchOf(table, items[i]))
  {
    hide Texts, Values, PiecesOf, BranchPieces;
    BranchesSnoc(table, items[..i], items[i]);
    TextsAppend(BranchPieces(table, items[..i]), BranchOf(table, items[i]));
    ValuesAppend(BranchPieces(table, items[..i]), BranchOf(table, items[i]));
    assert items[..i + 1] == items[..i] + [items[i]];
  }

  lemma NoEntries(table: string)
    ensures Texts(PiecesOf(table, [])) == [] && Values(PiecesOf(table, [])) == []
  {
  }

  lemma NoBranches(table: string)
    ensures BranchPieces(table, []) == [] && Texts([]) == [] && Values([]) == []
  {
  }

  /** Clauses and pushed values are those of the specification; an illegal column name throws. */
  method BuildWhereClauses(table: string, where: seq<Field>, values: BoundValues) returns (r: Result<seq<seq<Token>>>)
    modifies values
    decreases where
    ensures r.Ok? <==> Legal(table, where)
    ensures r.Ok? ==>
            r.value == Texts(PiecesOf(table, where))
            && values.items == old(values.items) + Values(PiecesOf(table, where))
  {
    hide LegalEntry, EntryPieces, PiecesOf, Texts, Values;
    NoEntries(table);
    var clauses: seq<seq<Token>> := [];
    var i := 0;
    while i < |where|
      invariant 0 <= i <= |where|
      invariant forall j :: 0 <= j < i ==> LegalEntry(table, where[j].key, where[j].value)
      invariant clauses == Texts(PiecesOf(table, where[..i]))
      invariant values.items == old(values.items) + Values(PiecesOf(table, where[..i]))
    {
      var entry := BuildEntry(table, where[i].key, where[i].value, values);
      if entry.Err? {
        return entry;
      }
      clauses := clauses + entry.value;
      NextEntry(table, where, i);
      i := i + 1;
    }
    assert where[..i] == where;
    r := Ok(clauses);
  }

  method BuildEntry(table: string, key: string, value: Json, values: BoundValues) returns (r: Result<seq<seq<Token>>>)
    modifies values
    decreases value
    ensures r.Ok? <==> LegalEntry(table, key, value)
    ensures r.Ok? ==>
            r.value == Texts(EntryPieces(table, key, value))
            && values.items == old(values.items) + Values(EntryPieces(table, key, value))
  {
    hide LegalColumn, Identifier, IsEmptyIn, ColumnPiece, Legal, PiecesOf, BranchPieces;
    if key == "OR" && value.Arr? {
      var branches := BuildBranches(table, value.items, values);
      if branches.Err? {
        return branches;
      }
      if branches.value == [] {
        r := Ok([]);
      } else {
        r := Ok([[LParen] + Join(branches.value, Or) + [RParen]]);
      }
    } else if RelationOf(table, key).Some? && (value.Obj? || value.Arr?) {
      var rel := RelationOf(table, key).value;
      var own := new BoundValues();
      var inner := Ok([]);
      if value.Obj? {
        inner := BuildWhereClauses(rel.inner, value.fields, own);
        if inner.Err? {
          return inner;
        }
      }
      values.Push(own.items);
      r := Ok([[Exists, LParen, Select, Literal(1), From, Table(rel.inner), Where]
               + (LinkPiece(rel).tokens + [And] + Join(inner.value, And)) + [RParen]]);
    } else {
      var column := NormalizeColumn(table, key);
      var piece := ColumnPiece(column, value);
      ConstantPiece(column, value);
      if !IsEmptyIn(value) && !Identifier(column) {
        return Err("Invalid SQL identifier");
      }
      values.Push(piece.values);
      r := Ok([piece.tokens]);
    }
  }

  method BuildBranches(table: string, items: seq<Json>, values: BoundValues) returns (r: Result<seq<seq<Token>>>)
    modifies values
    decreases items
    ensures r.Ok? <==> forall i :: 0 <= i < |items| ==> items[i].Obj? ==> Legal(table, items[i].fields)
    ensures r.Ok? ==>
            r.value == Texts(BranchPieces(table, items))
            && values.items == old(values.items) + Values(BranchPieces(table, items))
  {
    hide Legal, PiecesOf, BranchPieces, Texts, Values;
    NoBranches(table);
    var clauses: seq<seq<Token>> := [];
    var i := 0;
    while i < |items|
      invariant 0 <= i <= |items|
      invariant forall j :: 0 <= j < i ==> items[j].Obj? ==> Legal(table, items[j].fields)
      invariant clauses == Texts(BranchPieces(table, items[..i]))
      invariant values.items == old(values.items) + Values(BranchPieces(table, items[..i]))
    {
      if items[i].Obj? {
        var branch := BuildWhereClauses(table, items[i].fields, values);
        if branch.Err? {
          return branch;
        }
        clauses := clauses + branch.value;
      }
      NextBranch(table, items, i);
      i := i + 1;
    }
    assert items[..i] == items;
    r := Ok(clauses);
  }
}
