/**
 * The generic `where` compiler of the database service: filter objects become
 * SQL clauses while the bound values are pushed onto one shared list.
 */
module WhereCompiler {
  import opened Prelude
  import opened Sql
  import opened Decimal

  // ----- the pieces of a filter object -----

  function Letter(ch: char): bool {
    'a' <= ch <= 'z' || 'A' <= ch <= 'Z' || ch == '_'
  }

  /** escapeSqlIdentifier accepts exactly these names and throws on any other. */
  predicate Identifier(s: string) {
    s != "" && Letter(s[0]) && forall i :: 0 < i < |s| ==> Letter(s[i]) || '0' <= s[i] <= '9'
  }

  function NormalizeColumn(table: string, column: string): string {
    if table == "Permission" && column == "group" then "grp" else column
  }

  /** The template-literal text of a value. */
  function Text(v: Json): string {
    match v
    case Null => "null"
    case Bool(b) => if b then "true" else "false"
    case Num(n) => if n < 0 then "-" + Digits(-n) else Digits(n)
    case Str(s) => s
    case Arr(items) => TextList(items)
    case Obj(_) => "[object Object]"
  }

  function TextList(items: seq<Json>): string {
    if items == [] then ""
    else (if items[0].Null? then "" else Text(items[0])) + (if |items| == 1 then "" else "," + TextList(items[1..]))
  }

  function Lookup(fields: seq<Field>, key: string): Option<Json> {
    if fields == [] then None
    else if fields[0].key == key then Some(fields[0].value)
    else Lookup(fields[1..], key)
  }

  function Property(v: Json, key: string): Option<Json> {
    if v.Obj? then Lookup(v.fields, key) else None
  }

  function LikePattern(v: Json): Json {
    Str("%" + Text(v) + "%")
  }

  function MarkList(n: nat): seq<Token> {
    if n == 0 then [] else if n == 1 then [Mark] else [Mark, Comma] + MarkList(n - 1)
  }

  /** The clause for a plain column: the first operator that is present wins. */
  function ColumnPiece(column: string, value: Json): Piece {
    var name := Name(column);
    if value.Null? then Piece([name, Is, NullWord], [])
    else if Property(value, "contains").Some? then
        Piece([name, Op(Like), Mark], [LikePattern(Property(value, "contains").value)])
    else if Property(value, "gte").Some? then Piece([name, Op(Ge), Mark], [Property(value, "gte").value])
    else if Property(value, "lte").Some? then Piece([name, Op(Le), Mark], [Property(value, "lte").value])
    else if Property(value, "not").Some? then
      var v := Property(value, "not").value;
      if v.Null? then Piece([name, Is, Not, NullWord], []) else Piece([name, Op(Ne), Mark], [v])
    else if Property(value, "in").Some? && Property(value, "in").value.Arr? then
      var vs := Property(value, "in").value.items;
      if vs == [] then Piece([Literal(1), Op(Eq), Literal(0)], [])
      else Piece([name, In, LParen] + MarkList(|vs|) + [RParen], vs)
    else Piece([name, Op(Eq), Mark], [value])
  }

  /** The condition that this clause stands for. */
  function ColumnExpr(column: string, value: Json): Expr {
    if value.Null? then IsNull(column)
    else if Property(value, "contains").Some? then Cmp(column, Like, LikePattern(Property(value, "contains").value))
    else if Property(value, "gte").Some? then Cmp(column, Ge, Property(value, "gte").value)
    else if Property(value, "lte").Some? then Cmp(column, Le, Property(value, "lte").value)
    else if Property(value, "not").Some? then
      var v := Property(value, "not").value;
      if v.Null? then NotNull(column) else Cmp(column, Ne, v)
    else if Property(value, "in").Some? && Property(value, "in").value.Arr? then
      var vs := Property(value, "in").value.items;
      if vs == [] then LiteralEq(1, 0) else Member(column, vs)
    else Cmp(column, Eq, value)
  }

  /** The two relations that compile to a correlated subquery. */
  datatype Relation = Relation(inner: string, innerColumn: string, outer: string, outerColumn: string)

  function RelationOf(table: string, key: string): Option<Relation> {
    if table == "TicketTimeline" && key == "ticket" then Some(Relation("Ticket", "id", "TicketTimeline", "ticketId"))
    else if table == "Ticket" && key == "createdBy" then Some(Relation("User", "id", "Ticket", "createdById"))
    else None
  }

  function LinkPiece(rel: Relation): Piece {
    Piece([Qualified(rel.inner, rel.innerColumn), Op(Eq), Qualified(rel.outer, rel.outerColumn)], [])
  }

  function LinkExpr(rel: Relation): Expr {
    Linked(rel.inner, rel.innerColumn, rel.outer, rel.outerColumn)
  }

  function RelationPiece(rel: Relation, inner: seq<Piece>): Piece {
    Piece([Exists, LParen, Select, Literal(1), From, Table(rel.inner), Where]
          + (LinkPiece(rel).tokens + [And] + Join(Texts(inner), And)) + [RParen],
          Values(inner))
  }

  /** A filter object nested where the compiler recurses; other values have no entries. */
  function Entries(v: Json): seq<Field> {
    if v.Obj? then v.fields else []
  }

  /** The clauses of a filter object with their values. */
  function PiecesOf(table: string, where: seq<Field>): seq<Piece>
    decreases where
  {
    if where == [] then [] else EntryPieces(table, where[0].key, where[0].value) + PiecesOf(table, where[1..])
  }

  function EntryPieces(table: string, key: string, value: Json): seq<Piece>
    decreases value
  {
    if key == "OR" && value.Arr? then
      var branches := BranchPieces(table, value.items);
      if branches == [] then [] else [Piece([LParen] + Join(Texts(branches), Or) + [RParen], Values(branches))]
    else if RelationOf(table, key).Some? && (value.Obj? || value.Arr?) then
      var rel := RelationOf(table, key).value;
      [RelationPiece(rel, if value.Obj? then PiecesOf(rel.inner, value.fields) else [])]
    else
      [ColumnPiece(NormalizeColumn(table, key), value)]
  }

  /** The clauses of all OR branches in one flat list. */
  function BranchPieces(table: string, items: seq<Json>): seq<Piece>
    decreases items
  {
    if items == [] then []
    else (if items[0].Obj? then PiecesOf(table, items[0].fields) else []) + BranchPieces(table, items[1..])
  }

  // ----- what the clauses stand for -----

  function ExprsOf(table: string, where: seq<Field>): seq<Expr>
    decreases where
  {
    if where == [] then [] else EntryExprs(table, where[0].key, where[0].value) + ExprsOf(table, where[1..])
  }

  function EntryExprs(table: string, key: string, value: Json): seq<Expr>
    decreases value
  {
    if key == "OR" && value.Arr? then
      var branches := BranchExprs(table, value.items);
      if branches == [] then [] else [AnyOf(branches)]
    else if RelationOf(table, key).Some? && (value.Obj? || value.Arr?) then
      var rel := RelationOf(table, key).value;
      [ExistsIn(rel.inner, AllOf([LinkExpr(rel)] + if value.Obj? then ExprsOf(rel.inner, value.fields) else []))]
    else
      [ColumnExpr(NormalizeColumn(table, key), value)]
  }

  function BranchExprs(table: string, items: seq<Json>): seq<Expr>
    decreases items
  {
    if items == [] then []
    else (if items[0].Obj? then ExprsOf(table, items[0].fields) else []) + BranchExprs(table, items[1..])
  }

  /** Every relation filter, at any depth, emits at least one clause. */
  predicate Complete(table: string, where: seq<Field>)
    decreases where
  {
    where != [] ==> CompleteEntry(table, where[0].key, where[0].value) && Complete(table, where[1..])
  }

  predicate CompleteEntry(table: string, key: string, value: Json)
    decreases value
  {
    if key == "OR" && value.Arr? then CompleteBranches(table, value.items)
    else if RelationOf(table, key).Some? && (value.Obj? || value.Arr?) then
      value.Obj? && PiecesOf(RelationOf(table, key).value.inner, value.fields) != []
      && Complete(RelationOf(table, key).value.inner, value.fields)
    else true
  }

  predicate CompleteBranches(table: string, items: seq<Json>)
    decreases items
  {
    items != [] ==> (items[0].Obj? ==> Complete(table, items[0].fields)) && CompleteBranches(table, items[1..])
  }

  // ----- the emitted text reads as intended -----

  lemma ReadsAppend(ps: seq<Piece>, es: seq<Expr>, qs: seq<Piece>, fs: seq<Expr>)
    requires Reads(ps, es) && Reads(qs, fs)
    ensures Reads(ps + qs, es + fs)
  {
    hide IsCondition, Bind;
    forall i | 0 <= i < |ps + qs|
      ensures Bind((ps + qs)[i].tokens, (ps + qs)[i].values).Some?
      ensures IsCondition(Bind((ps + qs)[i].tokens, (ps + qs)[i].values).value, (es + fs)[i])
    {
      if i < |ps| {
        assert (ps + qs)[i] == ps[i];
      } else {
        assert (ps + qs)[i] == qs[i - |ps|];
      }
    }
  }

  lemma {:induction false} BindMarkList(vs: seq<Json>)
    requires vs != []
    ensures Bind(MarkList(|vs|), vs).Some?
    ensures |vs| == 1 ==> Bind(MarkList(|vs|), vs).value == [Bound(vs[0])]
    ensures |vs| > 1 ==> Bind(MarkList(|vs| - 1), vs[1..]).Some?
    ensures |vs| > 1 ==>
            Bind(MarkList(|vs|), vs).value
            == [Bound(vs[0]), Comma] + Bind(MarkList(|vs| - 1), vs[1..]).value
  {
    if |vs| == 1 {
      assert [Mark][1..] == [] && vs[1..] == [];
    } else {
      BindMarkList(vs[1..]);
      var list := [Mark, Comma] + MarkList(|vs| - 1);
      assert list[1..] == [Comma] + MarkList(|vs| - 1);
      assert list[1..][1..] == MarkList(|vs| - 1);
    }
  }

  lemma {:induction false} ReadMarkList(vs: seq<Json>, rest: seq<Token>)
    requires vs != []
    ensures Bind(MarkList(|vs|), vs).Some?
    ensures ReadValues(Bind(MarkList(|vs|), vs).value + ([RParen] + rest)) == Done(vs, rest)
  {
    hide Bind, MarkList;
    BindMarkList(vs);
    var after := [RParen] + rest;
    if |vs| == 1 {
      var ts := [Bound(vs[0])] + after;
      assert ts[2..] == rest;
      assert vs == [vs[0]];
    } else {
      ReadMarkList(vs[1..], rest);
      var tail := Bind(MarkList(|vs| - 1), vs[1..]).value;
      var ts := [Bound(vs[0]), Comma] + tail + after;
      assert ts[2..] == tail + after;
      assert [vs[0]] + vs[1..] == vs;
    }
  }

  lemma BindThree(ts: seq<Token>, vs: seq<Json>, bound: seq<Token>)
    requires |ts| == 3 && !ts[0].Mark? && !ts[1].Mark?
    requires if ts[2].Mark? then |vs| == 1 && bound == [ts[0], ts[1], Bound(vs[0])] else vs == [] && bound == ts
    ensures Bind(ts, vs) == Some(bound)
  {
    assert ts == [ts[0], ts[1], ts[2]];
    assert Bind(ts[2..], vs) == Some(bound[2..]) by {
      assert ts[2..] == [ts[2]] && ts[2..][1..] == [];
      if ts[2].Mark? {
        assert vs[1..] == [];
        assert [Bound(vs[0])] + [] == bound[2..];
      } else {
        assert [ts[2]] + [] == bound[2..];
      }
    }
    assert ts[1..][1..] == ts[2..];
    assert Bind(ts[1..], vs) == Some(bound[1..]) by { assert [ts[1]] + bound[2..] == bound[1..]; }
    assert [ts[0]] + bound[1..] == bound;
  }

  lemma ReadThree(bound: seq<Token>, e: Expr, rest: seq<Token>)
    requires |bound| == 3 && ReadCondition(bound) == Done(e, [])
    requires bound[0].Name? || bound[0].Literal? || bound[0].Qualified?
    requires !(bound[1] == Is && bound[2] == Not) && bound[1] != In
    ensures ReadCondition(bound + rest) == Done(e, rest)
  {
    hide ReadOr, ReadValues, Close;
    assert (bound + rest)[3..] == rest && bound[3..] == [];
    assert (bound + rest)[0] == bound[0] && (bound + rest)[1] == bound[1] && (bound + rest)[2] == bound[2];
  }

  /** A clause that is bound and reads as its condition in front of anything. */
  lemma OneReads(p: Piece, bound: seq<Token>, e: Expr)
    requires Bind(p.tokens, p.values) == Some(bound)
    requires forall rest: seq<Token> :: ReadCondition(bound + rest) == Done(e, rest)
    ensures Reads([p], [e])
  {
    hide Bind, ReadCondition;
  }

  lemma ShortClause(ts: seq<Token>, vs: seq<Json>, bound: seq<Token>, e: Expr)
    requires |ts| == 3 && !ts[0].Mark? && !ts[1].Mark?
    requires if ts[2].Mark? then |vs| == 1 && bound == [ts[0], ts[1], Bound(vs[0])] else vs == [] && bound == ts
    requires ReadCondition(bound) == Done(e, [])
    requires bound[0].Name? || bound[0].Literal? || bound[0].Qualified?
    requires !(bound[1] == Is && bound[2] == Not) && bound[1] != In
    ensures Reads([Piece(ts, vs)], [e])
  {
    hide Bind, ReadCondition, Reads;
    BindThree(ts, vs, bound);
    forall rest: seq<Token>
      ensures ReadCondition(bound + rest) == Done(e, rest)
    {
      ReadThree(bound, e, rest);
    }
    OneReads(Piece(ts, vs), bound, e);
  }

  lemma MembershipClause(column: string, vs: seq<Json>)
    requires vs != []
    ensures Reads([Piece([Name(column), In, LParen] + MarkList(|vs|) + [RParen], vs)], [Member(column, vs)])
  {
    hide Bind, MarkList, ReadValues, ReadCondition, Reads;
    BindMarkList(vs);
    var opening := [Name(column), In, LParen];
    BindEnclosed(opening, MarkList(|vs|), vs);
    var inner := Bind(MarkList(|vs|), vs).value;
    var bound := opening + inner + [RParen];
    forall rest: seq<Token>
      ensures ReadCondition(bound + rest) == Done(Member(column, vs), rest)
    {
      ReadMarkList(vs, rest);
      OpenMembership(column, inner, rest, vs);
      Regroup(opening, inner, [RParen], rest);
    }
    OneReads(Piece(opening + MarkList(|vs|) + [RParen], vs), bound, Member(column, vs));
  }

  lemma Regroup(a: seq<Token>, b: seq<Token>, c: seq<Token>, d: seq<Token>)
    ensures (a + b + c) + d == a + (b + (c + d))
  {
  }

  lemma OpenMembership(column: string, inner: seq<Token>, rest: seq<Token>, vs: seq<Json>)
    requires ReadValues(inner + ([RParen] + rest)) == Done(vs, rest)
    ensures ReadCondition([Name(column), In, LParen] + (inner + ([RParen] + rest))) == Done(Member(column, vs), rest)
  {
    hide ReadValues, ReadOr, ReadAnd;
    var ts := [Name(column), In, LParen] + (inner + ([RParen] + rest));
    assert ts[3..] == inner + ([RParen] + rest);
  }

  lemma NotNullClause(column: string)
    ensures Reads([Piece([Name(column), Is, Not, NullWord], [])], [NotNull(column)])
  {
    var ts := [Name(column), Is, Not, NullWord];
    BindPlain(ts);
    forall rest: seq<Token>
      ensures ReadCondition(ts + rest) == Done(NotNull(column), rest)
    {
      assert (ts + rest)[4..] == rest;
    }
  }

  lemma ColumnReads(column: string, value: Json)
    ensures Reads([ColumnPiece(column, value)], [ColumnExpr(column, value)])
  {
    hide Text, Lookup, TextList;
    var p, e := ColumnPiece(column, value), ColumnExpr(column, value);
    if e.NotNull? {
      NotNullClause(column);
    } else if e.Member? {
      MembershipClause(column, e.values);
    } else {
      var bound := if p.tokens[2].Mark? then [p.tokens[0], p.tokens[1], Bound(p.values[0])] else p.tokens;
      assert bound[3..] == [];
      ShortClause(p.tokens, p.values, bound, e);
    }
  }

  lemma LinkReads(rel: Relation)
    ensures Reads([LinkPiece(rel)], [LinkExpr(rel)])
  {
    var p := LinkPiece(rel);
    assert p.tokens[3..] == [];
    ShortClause(p.tokens, [], p.tokens, LinkExpr(rel));
  }

  lemma RelationReads(rel: Relation, ps: seq<Piece>, es: seq<Expr>)
    requires ps != [] && Reads(ps, es)
    ensures Reads([RelationPiece(rel, ps)], [ExistsIn(rel.inner, AllOf([LinkExpr(rel)] + es))])
  {
    var link := LinkPiece(rel);
    LinkReads(rel);
    ReadsAppend([link], [LinkExpr(rel)], ps, es);
    Subquery(link, LinkExpr(rel), ps, es, rel.inner);
    assert ([link] + ps)[1..] == ps;
    assert Values([link] + ps) == [] + Values(ps) == Values(ps);
    assert Texts([link] + ps) == [link.tokens] + Texts(ps);
    assert ([link.tokens] + Texts(ps))[1..] == Texts(ps);
    assert Texts(ps) != [];
  }

  /** Every emitted clause binds exactly the values pushed for it and reads as its own condition. */
  lemma {:induction false} EmittedReads(table: string, where: seq<Field>)
    requires Complete(table, where)
    ensures Reads(PiecesOf(table, where), ExprsOf(table, where))
    decreases where
  {
    if where != [] {
      EntryReads(table, where[0].key, where[0].value);
      EmittedReads(table, where[1..]);
      ReadsAppend(EntryPieces(table, where[0].key, where[0].value), EntryExprs(table, where[0].key, where[0].value),
                  PiecesOf(table, where[1..]), ExprsOf(table, where[1..]));
    }
  }

  lemma {:induction false} EntryReads(table: string, key: string, value: Json)
    requires CompleteEntry(table, key, value)
    ensures Reads(EntryPieces(table, key, value), EntryExprs(table, key, value))
    decreases value
  {
    hide Reads;
    if key == "OR" && value.Arr? {
      BranchesRead(table, value.items);
      var ps, es := BranchPieces(table, value.items), BranchExprs(table, value.items);
      ReadsLength(ps, es);
      if ps != [] {
        Parenthesised(ps, es, Or, AnyOf(es));
      }
    } else if RelationOf(table, key).Some? && (value.Obj? || value.Arr?) {
      var rel := RelationOf(table, key).value;
      EmittedReads(rel.inner, value.fields);
      RelationReads(rel, PiecesOf(rel.inner, value.fields), ExprsOf(rel.inner, value.fields));
    } else {
      ColumnReads(NormalizeColumn(table, key), value);
    }
  }

  lemma ReadsLength(ps: seq<Piece>, es: seq<Expr>)
    requires Reads(ps, es)
    ensures |ps| == |es|
    ensures ps == [] ==> es == [] && Reads([], [])
  {
  }

  lemma {:induction false} BranchesRead(table: string, items: seq<Json>)
    requires CompleteBranches(table, items)
    ensures Reads(BranchPieces(table, items), BranchExprs(table, items))
    decreases items
  {
    if items != [] {
      BranchesRead(table, items[1..]);
      if items[0].Obj? {
        EmittedReads(table, items[0].fields);
        ReadsAppend(PiecesOf(table, items[0].fields), ExprsOf(table, items[0].fields),
                    BranchPieces(table, items[1..]), BranchExprs(table, items[1..]));
      } else {
        assert [] + BranchPieces(table, items[1..]) == BranchPieces(table, items[1..]);
        assert [] + BranchExprs(table, items[1..]) == BranchExprs(table, items[1..]);
      }
    }
  }
}
