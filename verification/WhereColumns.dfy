/**
 * What single entries of a filter mean in terms of tables and columns: the two relations,
 * plain columns, and `contains` under a LIKE matcher that knows the wildcard `%`.
 */
module WhereColumns {
  import opened Prelude
  import opened Sql
  import opened WhereCompiler
  import opened WhereMeaning
  import opened WhereRejection
  import opened WhereLimits
  import opened Decimal

  lemma OneEntry(c: Collation, db: Database, table: string, key: string, value: Json, row: Row)
    ensures var where := [Field(key, value)];
            && (RowSelected(c, db, table, where, row) <==> EntrySelects(c, db, table, key, value, row))
            && (Complete(table, where) <==> CompleteEntry(table, key, value))
            && PiecesOf(table, where) == EntryPieces(table, key, value)
  {
    hide EntrySelects, CompleteEntry, EntryPieces;
    var where := [Field(key, value)];
    assert where[0] in where && where[1..] == [];
    assert PiecesOf(table, []) == [] && Complete(table, []);
    assert EntryPieces(table, key, value) + [] == EntryPieces(table, key, value);
  }

  lemma SupportedSelected(c: Collation, db: Database, table: string, where: seq<Field>, row: Row)
    requires Supported(table, where) && where != []
    ensures RowSelected(c, db, table, where, row) <==> Holds(c, db, table, where, row)
    ensures Complete(table, where) && PiecesOf(table, where) != []
  {
    hide Holds, RowSelected, Supported, Complete, PiecesOf, Selects, WhereText;
    WhereCompilerCorrect(c, db, table, where, row);
    EmittedMeaning(c, db, table, where, row);
  }

  /**
   * A ticket is selected by a filter on its creator exactly when some user with the id in
   * the ticket's createdById meets that filter.
   */
  lemma CreatedByMeans(c: Collation, db: Database, user: seq<Field>, ticket: Row)
    requires Supported("User", user) && user != []
    ensures var where := [Field("createdBy", Obj(user))];
            Selects(c, db, "Ticket", WhereText("Ticket", where), Values(PiecesOf("Ticket", where)), ticket)
            == Some(exists u | u in Rows(db, "User") ::
                      Related(c, Cell(u, "id"), Cell(ticket, "createdById")) && Holds(c, db, "User", user, u))
  {
    var where := [Field("createdBy", Obj(user))];
    OneEntry(c, db, "Ticket", "createdBy", Obj(user), ticket);
    SupportedSelected(c, db, "User", user, ticket);
    assert EntryPieces("Ticket", "createdBy", Obj(user)) != [];
    assert CompleteEntry("Ticket", "createdBy", Obj(user));
    hide RowSelected, Holds, Supported, PiecesOf, Selects, WhereText, EntryPieces, Complete;
    EmittedMeaning(c, db, "Ticket", where, ticket);
    forall u | u in Rows(db, "User")
      ensures RowSelected(c, db, "User", user, u) <==> Holds(c, db, "User", user, u)
    {
      SupportedSelected(c, db, "User", user, u);
    }
  }

  /**
   * A timeline entry is selected by a filter on its ticket exactly when some ticket with
   * the id in the entry's ticketId meets that filter.
   */
  lemma TimelineTicketMeans(c: Collation, db: Database, ticket: seq<Field>, entry: Row)
    requires Supported("Ticket", ticket) && ticket != []
    ensures var where := [Field("ticket", Obj(ticket))];
            Selects(c, db, "TicketTimeline", WhereText("TicketTimeline", where),
                Values(PiecesOf("TicketTimeline", where)), entry)
            == Some(exists t | t in Rows(db, "Ticket") ::
                      Related(c, Cell(t, "id"), Cell(entry, "ticketId")) && Holds(c, db, "Ticket", ticket, t))
  {
    var where := [Field("ticket", Obj(ticket))];
    OneEntry(c, db, "TicketTimeline", "ticket", Obj(ticket), entry);
    SupportedSelected(c, db, "Ticket", ticket, entry);
    assert EntryPieces("TicketTimeline", "ticket", Obj(ticket)) != [];
    assert CompleteEntry("TicketTimeline", "ticket", Obj(ticket));
    hide RowSelected, Holds, Supported, PiecesOf, Selects, WhereText, EntryPieces, Complete;
    EmittedMeaning(c, db, "TicketTimeline", where, entry);
    forall t | t in Rows(db, "Ticket")
      ensures RowSelected(c, db, "Ticket", ticket, t) <==> Holds(c, db, "Ticket", ticket, t)
    {
      SupportedSelected(c, db, "Ticket", ticket, t);
    }
  }

  /** Neither an OR group nor one of the two relations with an object or array as its filter. */
  predicate IsColumn(table: string, key: string, value: Json) {
    && !(key == "OR" && value.Arr?)
    && !(table == "Ticket" && key == "createdBy" && (value.Obj? || value.Arr?))
    && !(table == "TicketTimeline" && key == "ticket" && (value.Obj? || value.Arr?))
  }

  /** Any other entry, of any table, tests the cell of its own name, `Permission.group` the cell `grp`. */
  lemma PlainColumnMeans(c: Collation, db: Database, table: string, key: string, value: Json, row: Row)
    requires IsColumn(table, key, value)
    ensures var where := [Field(key, value)];
            var cell := Cell(row, if table == "Permission" && key == "group" then "grp" else key);
            Selects(c, db, table, WhereText(table, where), Values(PiecesOf(table, where)), row)
            == Some(ColumnSelects(c, cell, value))
  {
    OneEntry(c, db, table, key, value, row);
    hide ColumnSelects, ColumnPiece, Selects, WhereText, RowSelected, PiecesOf, Complete;
    EmittedMeaning(c, db, table, [Field(key, value)], row);
  }

  // ----- names -----

  const UPPER := "ABCDEFGHIJKLMNOPQRSTUVWXYZ"
  const LOWER := "abcdefghijklmnopqrstuvwxyz"
  const DIGITS := "0123456789"

  lemma {:induction false} InAlphabet(first: char, alphabet: string, ch: char)
    requires forall i | 0 <= i < |alphabet| :: alphabet[i] as int == first as int + i
    ensures ch in alphabet <==> first as int <= ch as int < first as int + |alphabet|
  {
    if first as int <= ch as int < first as int + |alphabet| {
      assert alphabet[ch as int - first as int] == ch;
    }
  }

  /** A column name is accepted exactly when it is made of letters, digits and underscores and starts with no digit. */
  lemma IdentifierExactly(s: string)
    ensures Identifier(s) <==>
            s != "" && s[0] !in DIGITS
            && forall i | 0 <= i < |s| :: s[i] in UPPER || s[i] in LOWER || s[i] in DIGITS || s[i] == '_'
  {
    forall i | 0 <= i < |s|
      ensures s[i] in UPPER <==> 'A' <= s[i] <= 'Z'
      ensures s[i] in LOWER <==> 'a' <= s[i] <= 'z'
      ensures s[i] in DIGITS <==> '0' <= s[i] <= '9'
    {
      InAlphabet('A', UPPER, s[i]);
      InAlphabet('a', LOWER, s[i]);
      InAlphabet('0', DIGITS, s[i]);
    }
  }

  // ----- the text of a value -----

  /** The text of a number reads as that number, with a minus sign if it is negative. */
  lemma NumberReadsBack(n: int)
    ensures n >= 0 ==> ParseDigits(Text(Num(n))) == n
    ensures n < 0 ==>
              Text(Num(n)) != "" && Text(Num(n))[0] == '-' && ParseDigits(Text(Num(n))[1..]) == -n
  {
    if n >= 0 {
      ParseOfDigits(n);
    } else {
      ParseOfDigits(-n);
      assert Text(Num(n)) == "-" + Digits(-n);
      assert Text(Num(n))[1..] == Digits(-n);
    }
  }

  lemma {:induction false} TextListAppend(xs: seq<Json>, ys: seq<Json>)
    requires xs != [] && ys != []
    ensures TextList(xs + ys) == TextList(xs) + "," + TextList(ys)
  {
    hide Text;
    if |xs| == 1 {
      assert (xs + ys)[1..] == ys;
    } else {
      TextListAppend(xs[1..], ys);
      assert (xs + ys)[1..] == xs[1..] + ys;
    }
  }

  /** The texts of a list's values, null as nothing, with one comma between two of them. */
  lemma ListText(xs: seq<Json>, ys: seq<Json>)
    requires xs != [] && ys != []
    ensures Text(Arr([])) == "" && Text(Arr([Null])) == ""
    ensures !xs[0].Null? ==> Text(Arr([xs[0]])) == Text(xs[0])
    ensures Text(Arr(xs + ys)) == Text(Arr(xs)) + "," + Text(Arr(ys))
  {
    TextListAppend(xs, ys);
  }

  lemma WordTexts()
    ensures Text(Null) == "null" && Text(Bool(true)) == "true" && Text(Bool(false)) == "false"
    ensures forall fields: seq<Field> :: Text(Obj(fields)) == "[object Object]"
  {
  }

  // ----- LIKE -----

  /** LIKE on strings, for patterns whose only special character is `%`. */
  predicate LikeString(text: string, pattern: string)
    decreases |pattern|, |text|
  {
    if pattern == "" then text == ""
    else if pattern[0] == '%' then LikeString(text, pattern[1..]) || (text != "" && LikeString(text[1..], pattern))
    else text != "" && text[0] == pattern[0] && LikeString(text[1..], pattern[1..])
  }

  predicate Contains(text: string, part: string) {
    exists i :: 0 <= i <= |text| && part <= text[i..]
  }

  predicate Wildless(s: string) {
    forall ch | ch in s :: ch != '%' && ch != '_' && ch != '\\'
  }

  lemma {:induction false} AnythingMatches(text: string)
    ensures LikeString(text, "%")
    decreases |text|
  {
    assert "%"[1..] == "";
    if text != "" {
      AnythingMatches(text[1..]);
    }
  }

  lemma {:induction false} StartsMatch(text: string, part: string)
    requires Wildless(part)
    ensures LikeString(text, part + "%") <==> part <= text
    decreases |part|
  {
    if part == "" {
      assert part + "%" == "%";
      AnythingMatches(text);
    } else {
      assert (part + "%")[0] == part[0] && part[0] in part && (part + "%")[1..] == part[1..] + "%";
      if text != "" {
        assert forall ch | ch in part[1..] :: ch in part;
        StartsMatch(text[1..], part[1..]);
        assert part <= text <==> part[0] == text[0] && part[1..] <= text[1..];
      }
    }
  }

  lemma ContainsStep(text: string, part: string)
    requires text != ""
    ensures Contains(text, part) <==> part <= text || Contains(text[1..], part)
  {
    assert text[0..] == text;
    if Contains(text, part) && !(part <= text) {
      var i :| 0 <= i <= |text| && part <= text[i..];
      assert text[1..][i - 1..] == text[i..];
    }
    if Contains(text[1..], part) {
      var i :| 0 <= i <= |text[1..]| && part <= text[1..][i..];
      assert text[i + 1..] == text[1..][i..];
    }
  }

  lemma {:induction false} LikeContains(text: string, part: string)
    requires Wildless(part)
    ensures LikeString(text, "%" + part + "%") <==> Contains(text, part)
    decreases |text|
  {
    var pattern := "%" + part + "%";
    assert pattern[1..] == part + "%";
    StartsMatch(text, part);
    if text == "" {
      assert text[0..] == text;
    } else {
      ContainsStep(text, part);
      LikeContains(text[1..], part);
    }
  }

  /** The collation's LIKE is the matcher above on text and patterns without other special characters. */
  ghost predicate LikesStrings(c: Collation) {
    forall text: string, pattern: string | forall ch | ch in pattern :: ch != '_' && ch != '\\' ::
      c.like(Str(text), Str(pattern)) <==> LikeString(text, pattern)
  }

  /** `contains` selects exactly the rows whose text contains the part, for parts without wildcards. */
  lemma ContainsMeans(c: Collation, db: Database, table: string, key: string, part: string, text: string, row: Row)
    requires LikesStrings(c) && Wildless(part) && IsColumn(table, key, Obj([Field("contains", Str(part))]))
    requires Cell(row, if table == "Permission" && key == "group" then "grp" else key) == Str(text)
    ensures var where := [Field(key, Obj([Field("contains", Str(part))]))];
            Selects(c, db, table, WhereText(table, where), Values(PiecesOf(table, where)), row)
                == Some(Contains(text, part))
  {
    var value := Obj([Field("contains", Str(part))]);
    PlainColumnMeans(c, db, table, key, value, row);
    LikeContains(text, part);
    assert Property(value, "contains") == Some(Str(part));
    assert ColumnSelects(c, Str(text), value) <==> c.like(Str(text), Str("%" + part + "%"));
  }
}
