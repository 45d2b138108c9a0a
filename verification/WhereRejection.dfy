/**
 * When the server rejects the emitted text: a relation filter without clauses
 * leaves `AND )` behind, and a filter without clauses leaves an empty WHERE part.
 */
module WhereRejection {
  import opened Prelude
  import opened Sql
  import opened WhereCompiler
  import opened WhereMeaning

  /** Bound text that cannot be read as a condition, whatever follows it. */
  ghost predicate IsBroken(ts: seq<Token>) {
    forall rest: seq<Token> :: ReadCondition(ts + rest) == Fail
  }

  ghost predicate BrokenPiece(p: Piece) {
    Bind(p.tokens, p.values).Some? && IsBroken(Bind(p.tokens, p.values).value)
  }

  ghost predicate GoodPiece(p: Piece) {
    Bind(p.tokens, p.values).Some? && exists e :: IsCondition(Bind(p.tokens, p.values).value, e)
  }

  /** Each clause is readable or broken, and at least one is broken. */
  ghost predicate SomeBroken(ps: seq<Piece>) {
    (forall i :: 0 <= i < |ps| ==> GoodPiece(ps[i]) || BrokenPiece(ps[i])) && exists i ::
        0 <= i < |ps|
        && BrokenPiece(ps[i])
  }

  lemma ReadsGood(ps: seq<Piece>, es: seq<Expr>, i: nat)
    requires Reads(ps, es) && i < |ps|
    ensures GoodPiece(ps[i])
  {
    hide IsCondition, Bind;
    assert IsCondition(Bind(ps[i].tokens, ps[i].values).value, es[i]);
  }

  lemma BrokenFirst(ts: seq<Token>, after: seq<Token>)
    requires IsBroken(ts)
    ensures ReadAnd(ts + after) == Fail
  {
    hide ReadCondition;
    assert ReadCondition(ts + after) == Fail;
  }

  lemma BrokenLater(ts: seq<Token>, e: Expr, tail: seq<Token>)
    requires IsCondition(ts, e) && ReadAnd(tail) == Fail
    ensures ReadAnd(ts + [And] + tail) == Fail
  {
    hide ReadCondition;
    var after := [And] + tail;
    assert ts + [And] + tail == ts + after;
    assert ReadCondition(ts + after) == Done(e, after);
    assert after[1..] == tail;
  }

  lemma BrokenLaterBranch(ts: seq<Token>, e: Expr, tail: seq<Token>)
    requires IsCondition(ts, e) && ReadOr(tail) == Fail
    ensures ReadOr(ts + [Or] + tail) == Fail
  {
    hide ReadCondition, ReadAnd;
    var after := [Or] + tail;
    assert ts + [Or] + tail == ts + after;
    OneConjunct(ts, e, after);
    assert after[1..] == tail;
  }

  /** One broken clause spoils the whole text joined around it. */
  lemma {:induction false} JoinedBroken(ps: seq<Piece>, separator: Token, rest: seq<Token>)
    requires SomeBroken(ps) && separator in {And, Or}
    ensures AllBind(ps) && Bind(Join(Texts(ps), separator), Values(ps)).Some?
    ensures separator == And ==> ReadAnd(Bind(Join(Texts(ps), And), Values(ps)).value + rest) == Fail
    ensures ReadOr(Bind(Join(Texts(ps), separator), Values(ps)).value + rest) == Fail
  {
    hide ReadCondition, Bind, Join, IsCondition, IsBroken, Texts, Values;
    BindJoin(ps, separator);
    var first := Bind(ps[0].tokens, ps[0].values).value;
    if |ps| == 1 {
      BrokenFirst(first, rest);
    } else {
      var tail := Bind(Join(Texts(ps[1..]), separator), Values(ps[1..])).value;
      assert first + [separator] + tail + rest == first + ([separator] + tail + rest);
      assert first + [separator] + tail + rest == first + [separator] + (tail + rest);
      if BrokenPiece(ps[0]) {
        BrokenFirst(first, [separator] + tail + rest);
      } else {
        var e :| IsCondition(first, e);
        TailBroken(ps);
        JoinedBroken(ps[1..], separator, rest);
        if separator == And {
          BrokenLater(first, e, tail + rest);
        } else {
          BrokenLaterBranch(first, e, tail + rest);
        }
      }
    }
  }

  lemma TailBroken(ps: seq<Piece>)
    requires SomeBroken(ps) && !BrokenPiece(ps[0])
    ensures SomeBroken(ps[1..])
  {
    hide BrokenPiece, GoodPiece;
    var i :| 0 <= i < |ps| && BrokenPiece(ps[i]);
    assert ps[1..][i - 1] == ps[i];
  }

  lemma BrokenAppend(ps: seq<Piece>, qs: seq<Piece>)
    requires forall i :: 0 <= i < |ps| ==> GoodPiece(ps[i]) || BrokenPiece(ps[i])
    requires forall i :: 0 <= i < |qs| ==> GoodPiece(qs[i]) || BrokenPiece(qs[i])
    requires SomeBroken(ps) || SomeBroken(qs)
    ensures SomeBroken(ps + qs)
  {
    hide BrokenPiece, GoodPiece;
    if SomeBroken(ps) {
      var i :| 0 <= i < |ps| && BrokenPiece(ps[i]);
      assert (ps + qs)[i] == ps[i];
    } else {
      var i :| 0 <= i < |qs| && BrokenPiece(qs[i]);
      assert (ps + qs)[|ps| + i] == qs[i];
    }
  }

  lemma BrokenGroup(ps: seq<Piece>)
    requires SomeBroken(ps)
    ensures BrokenPiece(Piece([LParen] + Join(Texts(ps), Or) + [RParen], Values(ps)))
  {
    hide ReadOr, ReadAnd, ReadCondition, Bind, Join, Texts, Values, SomeBroken;
    JoinedBroken(ps, Or, []);
    var inner := Bind(Join(Texts(ps), Or), Values(ps)).value;
    BindEnclosed([LParen], Join(Texts(ps), Or), Values(ps));
    var bound := [LParen] + inner + [RParen];
    forall rest: seq<Token>
      ensures ReadCondition(bound + rest) == Fail
    {
      JoinedBroken(ps, Or, [RParen] + rest);
      OpenGroupFails(inner + ([RParen] + rest));
      assert bound + rest == [LParen] + (inner + ([RParen] + rest));
    }
  }

  lemma OpenGroupFails(ts: seq<Token>)
    requires ReadOr(ts) == Fail
    ensures ReadCondition([LParen] + ts) == Fail
  {
    hide ReadOr, ReadAnd, ReadValues;
    assert ([LParen] + ts)[1..] == ts;
  }

  lemma OpenSubqueryFails(table: string, ts: seq<Token>)
    requires ReadOr(ts) == Fail
    ensures ReadCondition([Exists, LParen, Select, Literal(1), From, Table(table), Where] + ts) == Fail
  {
    hide ReadOr, ReadAnd, ReadValues;
    assert ([Exists, LParen, Select, Literal(1), From, Table(table), Where] + ts)[7..] == ts;
  }

  lemma DanglingAnd(rel: Relation, rest: seq<Token>)
    ensures ReadAnd(LinkPiece(rel).tokens + [And] + ([RParen] + rest)) == Fail
  {
    LinkReads(rel);
    BindPlain(LinkPiece(rel).tokens);
    assert ReadAnd([RParen] + rest) == Fail;
    BrokenLater(LinkPiece(rel).tokens, LinkExpr(rel), [RParen] + rest);
  }

  lemma EmptyRelationBroken(rel: Relation)
    ensures BrokenPiece(RelationPiece(rel, []))
  {
    hide ReadCondition, ReadAnd, Bind;
    var opening := [Exists, LParen, Select, Literal(1), From, Table(rel.inner), Where];
    var link := LinkPiece(rel).tokens;
    var ts := opening + (link + [And] + []) + [RParen];
    BindPlain(ts);
    assert Join([], And) == [] && Texts([]) == [] && Values([]) == [];
    assert RelationPiece(rel, []) == Piece(ts, []);
    forall rest: seq<Token>
      ensures ReadCondition(ts + rest) == Fail
    {
      DanglingAnd(rel, rest);
      var after := link + [And] + ([RParen] + rest);
      assert ReadOr(after) == Fail;
      OpenSubqueryFails(rel.inner, after);
      assert ts + rest == opening + after;
    }
  }

  lemma BrokenRelation(rel: Relation, ps: seq<Piece>)
    requires SomeBroken(ps)
    ensures BrokenPiece(RelationPiece(rel, ps))
  {
    hide ReadCondition, ReadAnd, ReadOr, Bind, Join, Texts, IsCondition, IsBroken;
    var opening := [Exists, LParen, Select, Literal(1), From, Table(rel.inner), Where];
    var link := LinkPiece(rel);
    LinkReads(rel);
    BindPlain(link.tokens);
    var qs := [link] + ps;
    assert Reads([link], [LinkExpr(rel)]);
    ReadsGood([link], [LinkExpr(rel)], 0);
    BrokenAppend([link], ps);
    JoinedBroken(qs, And, []);
    var inner := Bind(Join(Texts(qs), And), Values(qs)).value;
    BindEnclosed(opening, Join(Texts(qs), And), Values(qs));
    RelationText(rel, ps);
    var bound := opening + inner + [RParen];
    forall rest: seq<Token>
      ensures ReadCondition(bound + rest) == Fail
    {
      JoinedBroken(qs, And, [RParen] + rest);
      OpenSubqueryFails(rel.inner, inner + ([RParen] + rest));
      assert bound + rest == opening + (inner + ([RParen] + rest));
    }
    assert IsBroken(bound) by { BrokenDef(bound); }
  }

  lemma BrokenDef(ts: seq<Token>)
    requires forall rest: seq<Token> :: ReadCondition(ts + rest) == Fail
    ensures IsBroken(ts)
  {
  }

  lemma RelationText(rel: Relation, ps: seq<Piece>)
    requires ps != []
    ensures RelationPiece(rel, ps)
            == Piece([Exists, LParen, Select, Literal(1), From, Table(rel.inner), Where]
                + Join(Texts([LinkPiece(rel)] + ps), And) + [RParen],
                     Values([LinkPiece(rel)] + ps))
  {
    var link := LinkPiece(rel);
    assert ([link] + ps)[1..] == ps;
    assert Values([link] + ps) == [] + Values(ps) == Values(ps);
    assert Texts([link] + ps) == [link.tokens] + Texts(ps);
    assert ([link.tokens] + Texts(ps))[1..] == Texts(ps);
  }

  /** A filter that is not complete has a broken clause; every other clause can be read. */
  lemma {:induction false} IncompleteBroken(table: string, where: seq<Field>)
    ensures if Complete(table, where)
            then forall i :: 0 <= i < |PiecesOf(table, where)| ==> GoodPiece(PiecesOf(table, where)[i])
            else SomeBroken(PiecesOf(table, where))
    decreases where
  {
    hide GoodPiece, BrokenPiece, Reads;
    if Complete(table, where) {
      EmittedReads(table, where);
      AllGood(PiecesOf(table, where), ExprsOf(table, where));
    } else {
      IncompleteEntry(table, where[0].key, where[0].value);
      IncompleteBroken(table, where[1..]);
      BrokenAppend(EntryPieces(table, where[0].key, where[0].value), PiecesOf(table, where[1..]));
    }
  }

  lemma AllGood(ps: seq<Piece>, es: seq<Expr>)
    requires Reads(ps, es)
    ensures forall i :: 0 <= i < |ps| ==> GoodPiece(ps[i])
  {
    hide Reads, GoodPiece;
    forall i | 0 <= i < |ps| ensures GoodPiece(ps[i]) { ReadsGood(ps, es, i); }
  }

  lemma {:induction false} IncompleteEntry(table: string, key: string, value: Json)
    ensures if CompleteEntry(table, key, value)
            then forall i :: 0 <= i < |EntryPieces(table, key, value)| ==> GoodPiece(EntryPieces(table, key, value)[i])
            else SomeBroken(EntryPieces(table, key, value))
    decreases value
  {
    hide GoodPiece, BrokenPiece, Reads, RelationPiece, ColumnPiece;
    if CompleteEntry(table, key, value) {
      EntryReads(table, key, value);
      AllGood(EntryPieces(table, key, value), EntryExprs(table, key, value));
    } else if key == "OR" && value.Arr? {
      IncompleteBranches(table, value.items);
      BrokenGroup(BranchPieces(table, value.items));
      assert BrokenPiece(EntryPieces(table, key, value)[0]);
    } else {
      var rel := RelationOf(table, key).value;
      if value.Obj? && PiecesOf(rel.inner, value.fields) != [] {
        IncompleteBroken(rel.inner, value.fields);
        BrokenRelation(rel, PiecesOf(rel.inner, value.fields));
      } else {
        EmptyRelationBroken(rel);
      }
      assert BrokenPiece(EntryPieces(table, key, value)[0]);
    }
  }

  lemma {:induction false} IncompleteBranches(table: string, items: seq<Json>)
    ensures if CompleteBranches(table, items)
            then forall i :: 0 <= i < |BranchPieces(table, items)| ==> GoodPiece(BranchPieces(table, items)[i])
            else SomeBroken(BranchPieces(table, items))
    decreases items
  {
    hide GoodPiece, BrokenPiece, Reads;
    if CompleteBranches(table, items) {
      BranchesRead(table, items);
      AllGood(BranchPieces(table, items), BranchExprs(table, items));
    } else {
      IncompleteBranches(table, items[1..]);
      var ps := if items[0].Obj? then PiecesOf(table, items[0].fields) else [];
      if items[0].Obj? {
        IncompleteBroken(table, items[0].fields);
      }
      BrokenAppend(ps, BranchPieces(table, items[1..]));
    }
  }

  /**
   * For every filter object with at least one entry, supported or not, the emitted
   * statement binds all its values, and the server accepts it exactly when some
   * clause is emitted and no relation filter at any depth is without clauses.
   */
  lemma AcceptedIffComplete(c: Collation, db: Database, table: string, where: seq<Field>, row: Row)
    ensures Marks(WhereText(table, where)) == |Values(PiecesOf(table, where))|
    ensures Selects(c, db, table, WhereText(table, where), Values(PiecesOf(table, where)), row).Some?
            <==> PiecesOf(table, where) != [] && Complete(table, where)
  {
    hide Eval, Bind, ReadOr, ReadAnd, ReadCondition, Reads, ExprsOf, Complete, SomeBroken;
    var ps := PiecesOf(table, where);
    if ps == [] {
      NothingToRead();
    } else if Complete(table, where) {
      EmittedReads(table, where);
      ReadWhere(ps, ExprsOf(table, where));
    } else {
      IncompleteBroken(table, where);
      JoinedBroken(ps, And, []);
      var bound := Bind(WhereText(table, where), Values(ps)).value;
      assert bound + [] == bound;
    }
    BindCounts(WhereText(table, where), Values(ps));
  }

  lemma NothingToRead()
    ensures Bind([], []) == Some([])
    ensures Read([]) == None
  {
  }
}
