/**
 * The fragment of SQL that the query compilers emit: tokens with anonymous
 * `?` marks, left-to-right binding of values, a reading that respects operator
 * precedence (AND binds tighter than OR), and three-valued evaluation.
 */
module Sql {
  import opened Prelude

  /** A JavaScript value, as it appears in filter objects, bound values and table cells. */
  datatype Json =
    | Null
    | Bool(b: bool)
    | Num(n: int)
    | Str(s: string)
    | Arr(items: seq<Json>)
    | Obj(fields: seq<Field>)

  /** One entry of an object, in the order of Object.entries. */
  datatype Field = Field(key: string, value: Json)

  type Row = map<string, Json>

  type Database = map<string, seq<Row>>

  /** The database's comparison order and its LIKE matcher, on non-NULL operands. */
  datatype Collation = Collation(compare: (Json, Json) -> int, like: (Json, Json) -> bool)

  datatype CmpOp = Eq | Ne | Ge | Le | Like

  datatype Token =
    | LParen | RParen | Comma | And | Or | Exists | Select | From | Where
    | Is | Not | NullWord | In | Limit | Offset
    | Op(op: CmpOp)
    | Name(column: string)
    | Qualified(table: string, column: string)
    | Table(name: string)
    | Literal(n: int)
    | Mark
    | Bound(value: Json)

  /** Conditions after reading. */
  datatype Expr =
    | Cmp(column: string, op: CmpOp, value: Json)
    | IsNull(column: string)
    | NotNull(column: string)
    | Member(column: string, values: seq<Json>)
    | LiteralEq(left: int, right: int)
    | Linked(innerTable: string, innerColumn: string, outerTable: string, outerColumn: string)
    | ExistsIn(table: string, condition: Expr)
    | All(conjuncts: seq<Expr>)
    | Any(disjuncts: seq<Expr>)

  // ----- binding values to marks -----

  function Marks(ts: seq<Token>): nat {
    if ts == [] then 0 else (if ts[0].Mark? then 1 else 0) + Marks(ts[1..])
  }

  /** Replaces the marks by the values from left to right; None when the numbers differ. */
  function Bind(ts: seq<Token>, vs: seq<Json>): Option<seq<Token>> {
    if ts == [] then
      if vs == [] then Some([]) else None
    else if ts[0].Mark? then
      if vs == [] then None else
      match Bind(ts[1..], vs[1..])
      case None => None
      case Some(bound) => Some([Bound(vs[0])] + bound)
    else
      match Bind(ts[1..], vs)
      case None => None
      case Some(bound) => Some([ts[0]] + bound)
  }

  /** Binding succeeds exactly when there are as many values as marks. */
  lemma {:induction false} BindCounts(ts: seq<Token>, vs: seq<Json>)
    ensures Bind(ts, vs).Some? <==> Marks(ts) == |vs|
  {
    if ts != [] {
      if ts[0].Mark? {
        if vs != [] {
          BindCounts(ts[1..], vs[1..]);
        }
      } else {
        BindCounts(ts[1..], vs);
      }
    }
  }

  /** Binding works clause by clause when each clause brings its own number of values. */
  lemma {:induction false} BindAppend(ts: seq<Token>, us: seq<Token>, vs: seq<Json>, ws: seq<Json>)
    requires Bind(ts, vs).Some? && Bind(us, ws).Some?
    ensures Bind(ts + us, vs + ws) == Some(Bind(ts, vs).value + Bind(us, ws).value)
  {
    if ts == [] {
      assert ts + us == us && vs + ws == ws;
      assert Bind(ts, vs).value + Bind(us, ws).value == Bind(us, ws).value;
    } else {
      assert (ts + us)[1..] == ts[1..] + us;
      if ts[0].Mark? {
        assert (vs + ws)[1..] == vs[1..] + ws;
        BindAppend(ts[1..], us, vs[1..], ws);
        calc {
          Bind(ts + us, vs + ws).value;
          [Bound(vs[0])] + (Bind(ts[1..], vs[1..]).value + Bind(us, ws).value);
          ([Bound(vs[0])] + Bind(ts[1..], vs[1..]).value) + Bind(us, ws).value;
        }
      } else {
        BindAppend(ts[1..], us, vs, ws);
        assert [ts[0]] + (Bind(ts[1..], vs).value + Bind(us, ws).value)
               == ([ts[0]] + Bind(ts[1..], vs).value) + Bind(us, ws).value;
      }
    }
  }

  // ----- reading -----

  datatype Parsed<T> = Fail | Done(value: T, rest: seq<Token>)

  function AllOf(es: seq<Expr>): Expr {
    if |es| == 1 then es[0] else All(es)
  }

  function AnyOf(es: seq<Expr>): Expr {
    if |es| == 1 then es[0] else Any(es)
  }

  /** disjunction := conjunction { OR conjunction } */
  function ReadOr(ts: seq<Token>): (r: Parsed<seq<Expr>>)
    ensures r.Done? ==> |r.rest| < |ts|
    decreases |ts|, 2
  {
    match ReadAnd(ts)
    case Fail => Fail
    case Done(es, rest) =>
      if rest != [] && rest[0] == Or then
        match ReadOr(rest[1..])
        case Fail => Fail
        case Done(more, rest') => Done([AllOf(es)] + more, rest')
      else
        Done([AllOf(es)], rest)
  }

  /** conjunction := condition { AND condition } */
  function ReadAnd(ts: seq<Token>): (r: Parsed<seq<Expr>>)
    ensures r.Done? ==> |r.rest| < |ts|
    decreases |ts|, 1
  {
    match ReadCondition(ts)
    case Fail => Fail
    case Done(e, rest) =>
      if rest != [] && rest[0] == And then
        match ReadAnd(rest[1..])
        case Fail => Fail
        case Done(more, rest') => Done([e] + more, rest')
      else
        Done([e], rest)
  }

  /** A parenthesised disjunction, an EXISTS subquery or a comparison. */
  function ReadCondition(ts: seq<Token>): (r: Parsed<Expr>)
    ensures r.Done? ==> |r.rest| < |ts|
    decreases |ts|, 0
  {
    if |ts| < 3 then Fail
    else if ts[0] == LParen then
      Close(ReadOr(ts[1..]), |ts|)
    else if |ts| > 7 && ts[..4] == [Exists, LParen, Select, Literal(1)] && ts[4] == From && ts[5].Table?
        && ts[6] == Where then
      match Close(ReadOr(ts[7..]), |ts|)
      case Fail => Fail
      case Done(e, rest) => Done(ExistsIn(ts[5].name, e), rest)
    else if ts[0].Literal? && ts[1] == Op(Eq) && ts[2].Literal? then
      Done(LiteralEq(ts[0].n, ts[2].n), ts[3..])
    else if ts[0].Qualified? && ts[1] == Op(Eq) && ts[2].Qualified? then
      Done(Linked(ts[0].table, ts[0].column, ts[2].table, ts[2].column), ts[3..])
    else if ts[0].Name? then
      if ts[1] == Is && ts[2] == NullWord then Done(IsNull(ts[0].column), ts[3..])
      else if ts[1] == Is && ts[2] == Not && |ts| > 3 && ts[3] == NullWord then Done(NotNull(ts[0].column), ts[4..])
      else if ts[1].Op? && ts[2].Bound? then Done(Cmp(ts[0].column, ts[1].op, ts[2].value), ts[3..])
      else if ts[1] == In && ts[2] == LParen then
        match ReadValues(ts[3..])
        case Fail => Fail
        case Done(vs, rest) => Done(Member(ts[0].column, vs), rest)
      else Fail
    else Fail
  }

  /** Takes the closing parenthesis after a disjunction. */
  function Close(p: Parsed<seq<Expr>>, ghost bound: nat): (r: Parsed<Expr>)
    requires p.Done? ==> |p.rest| < bound
    ensures r.Done? ==> |r.rest| < bound
  {
    if p.Done? && p.rest != [] && p.rest[0] == RParen then Done(AnyOf(p.value), p.rest[1..]) else Fail
  }

  /** values := value { , value } ) */
  function ReadValues(ts: seq<Token>): (r: Parsed<seq<Json>>)
    ensures r.Done? ==> |r.rest| < |ts|
  {
    if |ts| < 2 || !ts[0].Bound? then Fail
    else if ts[1] == RParen then Done([ts[0].value], ts[2..])
    else if ts[1] == Comma then
      match ReadValues(ts[2..])
      case Fail => Fail
      case Done(vs, rest) => Done([ts[0].value] + vs, rest)
    else Fail
  }

  /** Reads a whole condition: nothing may be left over. */
  function Read(ts: seq<Token>): Option<Expr> {
    match ReadOr(ts)
    case Fail => None
    case Done(es, rest) => if rest == [] then Some(AnyOf(es)) else None
  }

  // ----- three-valued evaluation -----

  datatype Truth = True | False | Unknown

  function Known(b: bool): Truth {
    if b then True else False
  }

  function Cell(row: Row, column: string): Json {
    if column in row then row[column] else Null
  }

  function Rows(db: Database, table: string): seq<Row> {
    if table in db then db[table] else []
  }

  function Compare(c: Collation, op: CmpOp, cell: Json, v: Json): Truth {
    if cell.Null? || v.Null? then Unknown
    else match op
      case Eq => Known(c.compare(cell, v) == 0)
      case Ne => Known(c.compare(cell, v) != 0)
      case Ge => Known(c.compare(cell, v) >= 0)
      case Le => Known(c.compare(cell, v) <= 0)
      case Like => Known(c.like(cell, v))
  }

  /** Rows in scope, one per table name; unqualified columns belong to `current`. */
  datatype Scope = Scope(rows: map<string, Row>, current: string) {
    function RowOf(table: string): Row {
      if table in rows then rows[table] else map[]
    }
    function Enter(table: string, row: Row): Scope {
      Scope(rows[table := row], table)
    }
  }

  function Eval(c: Collation, db: Database, s: Scope, e: Expr): Truth
    decreases e
  {
    var row := s.RowOf(s.current);
    match e
    case Cmp(col, op, v) => Compare(c, op, Cell(row, col), v)
    case IsNull(col) => Known(Cell(row, col).Null?)
    case NotNull(col) => Known(!Cell(row, col).Null?)
    case Member(col, vs) => EvalMember(c, Cell(row, col), vs)
    case LiteralEq(a, b) => Known(a == b)
    case Linked(t, col, u, col') => Compare(c, Eq, Cell(s.RowOf(t), col), Cell(s.RowOf(u), col'))
    case ExistsIn(t, cond) => Known(exists r | r in Rows(db, t) :: Eval(c, db, s.Enter(t, r), cond) == True)
    case All(es) => EvalAll(c, db, s, es)
    case Any(es) => EvalAny(c, db, s, es)
  }

  function EvalMember(c: Collation, cell: Json, vs: seq<Json>): Truth {
    if vs == [] then False else Disjoin(Compare(c, Eq, cell, vs[0]), EvalMember(c, cell, vs[1..]))
  }

  function EvalAll(c: Collation, db: Database, s: Scope, es: seq<Expr>): Truth
    decreases es
  {
    if es == [] then True else Conjoin(Eval(c, db, s, es[0]), EvalAll(c, db, s, es[1..]))
  }

  function EvalAny(c: Collation, db: Database, s: Scope, es: seq<Expr>): Truth
    decreases es
  {
    if es == [] then False else Disjoin(Eval(c, db, s, es[0]), EvalAny(c, db, s, es[1..]))
  }

  function Conjoin(a: Truth, b: Truth): Truth {
    if a == False || b == False then False else if a == True && b == True then True else Unknown
  }

  function Disjoin(a: Truth, b: Truth): Truth {
    if a == True || b == True then True else if a == False && b == False then False else Unknown
  }

  /** A condition selects a row when it is True, not when it is Unknown; None stands for a rejected statement. */
  function Selects(c: Collation, db: Database, table: string, ts: seq<Token>, vs: seq<Json>, row: Row): Option<bool> {
    match Bind(ts, vs)
    case None => None
    case Some(bound) =>
      match Read(bound)
      case None => None
      case Some(e) => Some(Eval(c, db, Scope(map[table := row], table), e) == True)
  }

  /** The rows that the text of a WHERE part selects, in table order; None when the text is rejected for a row. */
  function Filter(c: Collation, db: Database, table: string, ts: seq<Token>, vs: seq<Json>,
      rows: seq<Row>): Option<seq<Row>> {
    if rows == [] then Some([]) else
    match (Selects(c, db, table, ts, vs, rows[0]), Filter(c, db, table, ts, vs, rows[1..]))
    case (Some(keep), Some(more)) => Some((if keep then [rows[0]] else []) + more)
    case _ => None
  }

  // ----- whole statements -----

  /** What follows the table name: an optional WHERE part and an optional LIMIT with an optional OFFSET. */
  datatype Statement = Statement(condition: Option<Expr>, limit: Option<Json>, offset: Option<Json>)

  function ReadPaging(condition: Option<Expr>, ts: seq<Token>): Option<Statement> {
    if ts == [] then Some(Statement(condition, None, None))
    else if |ts| == 2 && ts[0] == Limit && ts[1].Bound? then Some(Statement(condition, Some(ts[1].value), None))
    else if |ts| == 4 && ts[0] == Limit && ts[1].Bound? && ts[2] == Offset && ts[3].Bound? then
      Some(Statement(condition, Some(ts[1].value), Some(ts[3].value)))
    else None
  }

  function ReadStatement(ts: seq<Token>): Option<Statement> {
    if ts != [] && ts[0] == Where then
      match ReadOr(ts[1..])
      case Fail => None
      case Done(es, rest) => ReadPaging(Some(AnyOf(es)), rest)
    else ReadPaging(None, ts)
  }

  /** The rows, in table order, on which the condition is True. */
  function Keep(c: Collation, db: Database, table: string, condition: Option<Expr>, rows: seq<Row>): seq<Row> {
    if rows == [] then []
    else
      (if condition.None? || Eval(c, db, Scope(map[table := rows[0]], table), condition.value) == True then [rows[0]]
          else [])
      + Keep(c, db, table, condition, rows[1..])
  }

  /** LIMIT take OFFSET skip. */
  function Page(rows: seq<Row>, skip: nat, take: Option<nat>): seq<Row> {
    var from := if skip <= |rows| then rows[skip..] else [];
    if take.Some? && take.value <= |from| then from[..take.value] else from
  }

  /** A page holds the rows from `skip` on, in their order, as many as there are up to `take`. */
  lemma PageMeans(rows: seq<Row>, skip: nat, take: Option<nat>)
    ensures var rest := if skip < |rows| then |rows| - skip else 0;
            |Page(rows, skip, take)| == if take.Some? && take.value < rest then take.value else rest
    ensures forall i | 0 <= i < |Page(rows, skip, take)| ::
              skip + i < |rows| && Page(rows, skip, take)[i] == rows[skip + i]
  {
  }

  /** Runs `SELECT * FROM table` followed by the given text; None when the server rejects the statement. */
  function Execute(c: Collation, db: Database, table: string, ts: seq<Token>, vs: seq<Json>): Option<seq<Row>> {
    match Bind(ts, vs)
    case None => None
    case Some(bound) =>
      match ReadStatement(bound)
      case None => None
      case Some(st) =>
        var rows := Keep(c, db, table, st.condition, Rows(db, table));
        match (st.limit, st.offset)
        case (None, None) => Some(rows)
        case (Some(Num(take)), None) => if take >= 0 then Some(Page(rows, 0, Some(take))) else None
        case (Some(Num(take)), Some(Num(skip))) =>
          if take >= 0 && skip >= 0 then Some(Page(rows, skip, Some(take))) else None
        case _ => None
  }

  // ----- emitted clauses -----

  /** One clause of emitted text with the values pushed for its marks. */
  datatype Piece = Piece(tokens: seq<Token>, values: seq<Json>)

  function Texts(ps: seq<Piece>): seq<seq<Token>> {
    if ps == [] then [] else [ps[0].tokens] + Texts(ps[1..])
  }

  function Values(ps: seq<Piece>): seq<Json> {
    if ps == [] then [] else ps[0].values + Values(ps[1..])
  }

  /** Array.join with a one-token separator. */
  function Join(clauses: seq<seq<Token>>, separator: Token): seq<Token> {
    if clauses == [] then []
    else if |clauses| == 1 then clauses[0]
    else clauses[0] + [separator] + Join(clauses[1..], separator)
  }

  /** The bound text `ts` is read as the single condition `e`, whatever follows it. */
  ghost predicate IsCondition(ts: seq<Token>, e: Expr) {
    forall rest: seq<Token> :: ReadCondition(ts + rest) == Done(e, rest)
  }

  /** Every clause binds its own values and reads as its own condition. */
  ghost predicate Reads(ps: seq<Piece>, es: seq<Expr>) {
    |ps| == |es| &&
    forall i :: 0 <= i < |ps| ==>
      Bind(ps[i].tokens, ps[i].values).Some? && IsCondition(Bind(ps[i].tokens, ps[i].values).value, es[i])
  }

  /** Every clause brings as many values as it has marks. */
  predicate AllBind(ps: seq<Piece>) {
    forall i :: 0 <= i < |ps| ==> Bind(ps[i].tokens, ps[i].values).Some?
  }

  lemma {:induction false} TextsAppend(ps: seq<Piece>, qs: seq<Piece>)
    ensures Texts(ps + qs) == Texts(ps) + Texts(qs)
  {
    if ps == [] {
      assert ps + qs == qs;
    } else {
      assert (ps + qs)[1..] == ps[1..] + qs;
      TextsAppend(ps[1..], qs);
      assert [ps[0].tokens] + (Texts(ps[1..]) + Texts(qs)) == Texts(ps) + Texts(qs);
    }
  }

  lemma {:induction false} ValuesAppend(ps: seq<Piece>, qs: seq<Piece>)
    ensures Values(ps + qs) == Values(ps) + Values(qs)
  {
    if ps == [] {
      assert ps + qs == qs;
    } else {
      assert (ps + qs)[1..] == ps[1..] + qs;
      ValuesAppend(ps[1..], qs);
      assert ps[0].values + (Values(ps[1..]) + Values(qs)) == Values(ps) + Values(qs);
    }
  }

  /** Text joined by `separator`, bound as a whole. */
  lemma {:induction false} BindJoin(ps: seq<Piece>, separator: Token)
    requires ps != [] && AllBind(ps) && !separator.Mark?
    ensures Bind(Join(Texts(ps), separator), Values(ps)).Some?
    ensures |ps| > 1 ==> Bind(Join(Texts(ps[1..]), separator), Values(ps[1..])).Some?
    ensures |ps| > 1 ==>
      Bind(Join(Texts(ps), separator), Values(ps)).value
        == Bind(ps[0].tokens, ps[0].values).value + [separator]
            + Bind(Join(Texts(ps[1..]), separator), Values(ps[1..])).value
    ensures |ps| == 1 ==> Bind(Join(Texts(ps), separator), Values(ps)).value == Bind(ps[0].tokens, ps[0].values).value
  {
    hide Bind;
    if |ps| == 1 {
      assert Texts(ps) == [ps[0].tokens];
      assert Values(ps) == ps[0].values;
    } else {
      BindJoin(ps[1..], separator);
      var tail := Join(Texts(ps[1..]), separator);
      BindPlain([separator]);
      BindAppend([separator], tail, [], Values(ps[1..]));
      assert [] + Values(ps[1..]) == Values(ps[1..]);
      BindAppend(ps[0].tokens, [separator] + tail, ps[0].values, Values(ps[1..]));
      assert Join(Texts(ps), separator) == ps[0].tokens + ([separator] + tail);
    }
  }

  lemma MoreConjuncts(first: seq<Token>, e: Expr, tail: seq<Token>, es: seq<Expr>, rest: seq<Token>)
    requires IsCondition(first, e) && ReadAnd(tail + rest) == Done(es, rest)
    ensures ReadAnd(first + [And] + tail + rest) == Done([e] + es, rest)
  {
    hide ReadCondition;
    var after := [And] + (tail + rest);
    assert first + [And] + tail + rest == first + after;
    assert ReadCondition(first + after) == Done(e, after);
    assert after[1..] == tail + rest;
  }

  /** Clauses joined by AND read as the list of their conditions. */
  lemma {:induction false} ReadJoinedAnd(ps: seq<Piece>, es: seq<Expr>, rest: seq<Token>)
    requires ps != [] && Reads(ps, es) && (rest == [] || rest[0] != And)
    ensures Bind(Join(Texts(ps), And), Values(ps)).Some?
    ensures ReadAnd(Bind(Join(Texts(ps), And), Values(ps)).value + rest) == Done(es, rest)
  {
    hide ReadCondition, ReadAnd, Bind, IsCondition, Join;
    BindJoin(ps, And);
    var first := Bind(ps[0].tokens, ps[0].values).value;
    if |ps| == 1 {
      OneConjunct(first, es[0], rest);
      assert es == [es[0]];
    } else {
      ReadJoinedAnd(ps[1..], es[1..], rest);
      MoreConjuncts(first, es[0], Bind(Join(Texts(ps[1..]), And), Values(ps[1..])).value, es[1..], rest);
      assert es == [es[0]] + es[1..];
    }
  }

  lemma OneConjunct(ts: seq<Token>, e: Expr, rest: seq<Token>)
    requires IsCondition(ts, e) && (rest == [] || rest[0] != And)
    ensures ReadAnd(ts + rest) == Done([e], rest)
  {
    hide ReadCondition;
    assert ReadCondition(ts + rest) == Done(e, rest);
  }

  lemma MoreDisjuncts(first: seq<Token>, e: Expr, tail: seq<Token>, es: seq<Expr>, rest: seq<Token>)
    requires IsCondition(first, e) && ReadOr(tail + rest) == Done(es, rest)
    ensures ReadOr(first + [Or] + tail + rest) == Done([e] + es, rest)
  {
    hide ReadCondition, ReadAnd;
    var after := [Or] + (tail + rest);
    assert first + [Or] + tail + rest == first + after;
    OneConjunct(first, e, after);
    assert after[1..] == tail + rest;
  }

  /** Clauses joined by OR read as the list of their conditions. */
  lemma {:induction false} ReadJoinedOr(ps: seq<Piece>, es: seq<Expr>, rest: seq<Token>)
    requires ps != [] && Reads(ps, es) && (rest == [] || (rest[0] != And && rest[0] != Or))
    ensures Bind(Join(Texts(ps), Or), Values(ps)).Some?
    ensures ReadOr(Bind(Join(Texts(ps), Or), Values(ps)).value + rest) == Done(es, rest)
  {
    hide ReadCondition, ReadAnd, Bind, IsCondition, Join;
    BindJoin(ps, Or);
    var first := Bind(ps[0].tokens, ps[0].values).value;
    if |ps| == 1 {
      OneConjunct(first, es[0], rest);
      assert es == [es[0]];
    } else {
      ReadJoinedOr(ps[1..], es[1..], rest);
      MoreDisjuncts(first, es[0], Bind(Join(Texts(ps[1..]), Or), Values(ps[1..])).value, es[1..], rest);
      assert es == [es[0]] + es[1..];
    }
  }

  /** Clauses joined by AND, read where a disjunction is expected, are one conjunction. */
  lemma ReadJoinedAll(ps: seq<Piece>, es: seq<Expr>, rest: seq<Token>)
    requires ps != [] && Reads(ps, es) && (rest == [] || (rest[0] != And && rest[0] != Or))
    ensures Bind(Join(Texts(ps), And), Values(ps)).Some?
    ensures ReadOr(Bind(Join(Texts(ps), And), Values(ps)).value + rest) == Done([AllOf(es)], rest)
  {
    ReadJoinedAnd(ps, es, rest);
  }

  /** A WHERE text of clauses joined by AND reads as the conjunction of their conditions. */
  lemma ReadWhere(ps: seq<Piece>, es: seq<Expr>)
    requires ps != [] && Reads(ps, es)
    ensures Bind(Join(Texts(ps), And), Values(ps)).Some?
    ensures Read(Bind(Join(Texts(ps), And), Values(ps)).value) == Some(AllOf(es))
  {
    ReadJoinedAll(ps, es, []);
    var bound := Bind(Join(Texts(ps), And), Values(ps)).value;
    assert bound + [] == bound;
  }

  /** A parenthesised group is one condition, so it can be joined by AND without being torn apart. */
  lemma Parenthesised(ps: seq<Piece>, es: seq<Expr>, separator: Token, e: Expr)
    requires ps != [] && Reads(ps, es)
    requires (separator == Or && e == AnyOf(es)) || (separator == And && e == AllOf(es))
    ensures Reads([Piece([LParen] + Join(Texts(ps), separator) + [RParen], Values(ps))], [e])
  {
    hide ReadOr, ReadAnd, ReadCondition, Bind, Join, Texts, Values;
    BindJoin(ps, separator);
    var inner := Bind(Join(Texts(ps), separator), Values(ps)).value;
    var p := Piece([LParen] + Join(Texts(ps), separator) + [RParen], Values(ps));
    BindEnclosed([LParen], Join(Texts(ps), separator), Values(ps));
    var bound := [LParen] + inner + [RParen];
    forall rest: seq<Token>
      ensures ReadCondition(bound + rest) == Done(e, rest)
    {
      var after := [RParen] + rest;
      if separator == Or { ReadJoinedOr(ps, es, after); } else { ReadJoinedAll(ps, es, after); }
      CloseGroup(inner, rest, if separator == Or then es else [AllOf(es)]);
      assert bound + rest == [LParen] + (inner + after);
    }
  }

  lemma CloseGroup(inner: seq<Token>, rest: seq<Token>, es: seq<Expr>)
    requires ReadOr(inner + ([RParen] + rest)) == Done(es, [RParen] + rest)
    ensures ReadCondition([LParen] + (inner + ([RParen] + rest))) == Done(AnyOf(es), rest)
  {
    hide ReadOr, ReadAnd;
    var after := [RParen] + rest;
    var ts := [LParen] + (inner + after);
    assert ts[1..] == inner + after;
    assert after[1..] == rest;
    assert |after| < |inner + after|;
  }

  lemma CloseSubquery(table: string, inner: seq<Token>, rest: seq<Token>, e: Expr)
    requires ReadOr(inner + ([RParen] + rest)) == Done([e], [RParen] + rest)
    ensures ReadCondition([Exists, LParen, Select, Literal(1), From, Table(table), Where] + (inner + ([RParen] + rest)))
            == Done(ExistsIn(table, e), rest)
  {
    hide ReadOr, ReadAnd;
    var after := [RParen] + rest;
    var ts := [Exists, LParen, Select, Literal(1), From, Table(table), Where] + (inner + after);
    assert ts[7..] == inner + after;
    assert ts[..4] == [Exists, LParen, Select, Literal(1)];
    assert after[1..] == rest;
    assert |after| < |inner + after|;
  }

  lemma BindEnclosed(opening: seq<Token>, ts: seq<Token>, vs: seq<Json>)
    requires Bind(ts, vs).Some?
    requires forall t | t in opening :: !t.Mark?
    ensures Bind(opening + ts + [RParen], vs) == Some(opening + Bind(ts, vs).value + [RParen])
  {
    BindPlain(opening);
    BindAppend(opening, ts, [], vs);
    assert [] + vs == vs;
    BindPlain([RParen]);
    BindAppend(opening + ts, [RParen], vs, []);
    assert vs + [] == vs;
  }

  lemma BindPlain(ts: seq<Token>)
    requires forall t | t in ts :: !t.Mark?
    ensures Bind(ts, []) == Some(ts)
  {
    if ts != [] {
      BindPlain(ts[1..]);
      assert ts == [ts[0]] + ts[1..];
    }
  }

  /** An EXISTS subquery over non-empty inner clauses is one condition. */
  lemma Subquery(link: Piece, linked: Expr, ps: seq<Piece>, es: seq<Expr>, table: string)
    requires ps != [] && Reads([link] + ps, [linked] + es)
    ensures Reads([Piece([Exists, LParen, Select, Literal(1), From, Table(table), Where]
            + Join(Texts([link] + ps), And) + [RParen],
                         Values([link] + ps))],
                  [ExistsIn(table, AllOf([linked] + es))])
  {
    hide Bind, Join, Texts, Values;
    hide ReadOr, ReadAnd, ReadCondition;
    var opening := [Exists, LParen, Select, Literal(1), From, Table(table), Where];
    var qs, fs := [link] + ps, [linked] + es;
    BindJoin(qs, And);
    var inner := Bind(Join(Texts(qs), And), Values(qs)).value;
    BindEnclosed(opening, Join(Texts(qs), And), Values(qs));
    var bound := opening + inner + [RParen];
    forall rest: seq<Token>
      ensures ReadCondition(bound + rest) == Done(ExistsIn(table, AllOf(fs)), rest)
    {
      var after := [RParen] + rest;
      ReadJoinedAll(qs, fs, after);
      CloseSubquery(table, inner, rest, AllOf(fs));
      assert bound + rest == opening + (inner + after);
    }
  }
}
