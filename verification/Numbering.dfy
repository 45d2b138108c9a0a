/**
 * Quote and invoice numbers: COUNT(*) + 1 read in one statement, stored by another
 * under a UNIQUE key, with other requests running in between.
 */
module Numbering {
  import opened Decimal

  datatype Kind = Quote | Invoice

  datatype Row = Row(kind: Kind, companyId: string, number: string)

  function Prefix(kind: Kind, year: nat): string {
    (if kind == Quote then "Q" else "INV") + "-" + Digits(year) + "-"
  }

  function Zeros(n: nat): string {
    seq(n, (i: nat) => '0')
  }

  /** padStart(5, '0'). */
  function Pad(s: string): string {
    if |s| < 5 then Zeros(5 - |s|) + s else s
  }

  function NumberText(kind: Kind, year: nat, n: nat): string {
    Prefix(kind, year) + Pad(Digits(n))
  }

  /** `Q-` or `INV-`, the year, a dash, and at least five digits that read as n, with zeros in front only up to five. */
  ghost predicate Shape(text: string, kind: Kind, year: nat, n: nat) {
    exists digits: string ::
      && text == (match kind case Quote => "Q-" case Invoice => "INV-") + Digits(year) + "-" + digits
      && |digits| >= 5 && (|digits| > 5 ==> digits[0] != '0')
      && (forall i | 0 <= i < |digits| :: '0' <= digits[i] <= '9')
      && ParseDigits(digits) == n
  }

  lemma {:induction false} FirstDigit(n: nat)
    ensures Digits(n) != "" && (n > 0 ==> Digits(n)[0] != '0')
    ensures forall i | 0 <= i < |Digits(n)| :: '0' <= Digits(n)[i] <= '9'
  {
    if n >= 10 {
      FirstDigit(n / 10);
    }
  }

  lemma NumberShape(kind: Kind, year: nat, n: nat)
    ensures n > 0 ==> Shape(NumberText(kind, year, n), kind, year, n)
  {
    if n > 0 {
      FirstDigit(n);
      PadParses(n);
      var digits := Pad(Digits(n));
      assert NumberText(kind, year, n)
             == (match kind case Quote => "Q-" case Invoice => "INV-") + Digits(year) + "-" + digits by {
        assert "Q" + "-" == "Q-" && "INV" + "-" == "INV-";
      }
    }
  }

  /** LIKE 'prefix%'. */
  predicate Like(text: string, prefix: string) {
    prefix <= text
  }

  function Matching(rows: set<Row>, kind: Kind, companyId: string, year: nat): set<Row> {
    set r | r in rows && r.kind == kind && r.companyId == companyId && Like(r.number, Prefix(kind, year))
  }

  /** The number that a count leads to. */
  predicate IsNumber(number: string, kind: Kind, year: nat, count: nat) {
    number == NumberText(kind, year, count + 1)
  }

  /** The two tables with their UNIQUE(companyId, number) keys. */
  class NumberedDocuments {
    var rows: set<Row>

    constructor ()
      ensures rows == {}
    {
      rows := {};
    }

    /** On dense tables the number is free, and every smaller one of the company and year is taken. */
    method NextNumber(kind: Kind, companyId: string, year: nat) returns (number: string)
      ensures number == NumberText(kind, year, |Matching(rows, kind, companyId, year)| + 1)
      ensures Shape(number, kind, year, |Matching(rows, kind, companyId, year)| + 1)
      ensures Dense(rows) ==> Row(kind, companyId, number) !in rows
      ensures Dense(rows) ==>
                forall n: nat | 1 <= n <= |Matching(rows, kind, companyId, year)| ::
                    Row(kind, companyId, NumberText(kind, year, n)) in rows
    {
      var count := |Matching(rows, kind, companyId, year)|;
      NumberShape(kind, year, count + 1);
      if Dense(rows) { NextIsFree(rows, kind, companyId, year); }
      number := NumberText(kind, year, count + 1);
    }

    /**
     * False stands for the duplicate-key error, which changes nothing. On dense tables a
     * number from a count read at any earlier time is stored exactly when no other row was
     * stored since, and leaves the tables dense.
     */
    method Insert(kind: Kind, companyId: string, number: string) returns (stored: bool)
      modifies this
      ensures stored <==> Row(kind, companyId, number) !in old(rows)
      ensures !stored ==> rows == old(rows)
      ensures stored ==> rows == old(rows) + {Row(kind, companyId, number)} && |rows| == |old(rows)| + 1
      ensures Dense(old(rows)) ==>
                forall year: nat, count: nat | count <= |Matching(old(rows), kind, companyId, year)|
                    && IsNumber(number, kind, year, count) ::
                  Dense(rows) && (stored <==> count == |Matching(old(rows), kind, companyId, year)|)
    {
      stored := Row(kind, companyId, number) !in rows;
      if stored {
        rows := rows + {Row(kind, companyId, number)};
      }
      if Dense(old(rows)) {
        assert rows == old(rows) + {Row(kind, companyId, number)};
        forall year: nat, count: nat | count <= |Matching(old(rows), kind, companyId, year)|
            && IsNumber(number, kind, year, count)
          ensures Dense(rows) && (stored <==> count == |Matching(old(rows), kind, companyId, year)|)
        {
          StoreCounted(old(rows), kind, companyId, year, count);
        }
      }
    }
  }

  // ----- the text form -----

  lemma {:induction false} ParseLeadingZeros(k: nat, s: string)
    requires forall i :: 0 <= i < |s| ==> '0' <= s[i] <= '9'
    ensures ParseDigits(Zeros(k) + s) == ParseDigits(s)
    decreases |s|, k
  {
    var t := Zeros(k) + s;
    if s != [] {
      assert t[..|t| - 1] == Zeros(k) + s[..|s| - 1];
      ParseLeadingZeros(k, s[..|s| - 1]);
    } else if k > 0 {
      assert t[..|t| - 1] == Zeros(k - 1) + [];
      ParseLeadingZeros(k - 1, []);
    } else {
      assert t == [];
    }
  }

  /** The padded text determines the number, for all naturals and not only those of five digits. */
  lemma PadInjective(m: nat, n: nat)
    requires Pad(Digits(m)) == Pad(Digits(n))
    ensures m == n
  {
    hide Digits;
    PadParses(m);
    PadParses(n);
  }

  lemma PadParses(n: nat)
    ensures forall i :: 0 <= i < |Pad(Digits(n))| ==> '0' <= Pad(Digits(n))[i] <= '9'
    ensures ParseDigits(Pad(Digits(n))) == n
  {
    ParseOfDigits(n);
    if |Digits(n)| < 5 {
      ParseLeadingZeros(5 - |Digits(n)|, Digits(n));
    }
  }

  /** A digit string is cut off by the first dash. */
  lemma DashDelimits(a: string, b: string, x: string, y: string)
    requires forall i :: 0 <= i < |a| ==> '0' <= a[i] <= '9'
    requires forall i :: 0 <= i < |b| ==> '0' <= b[i] <= '9'
    requires a + "-" + x == b + "-" + y
    ensures a == b && x == y
  {
    var s, t := a + "-" + x, b + "-" + y;
    assert s[|a|] == '-' && t[|b|] == '-';
    assert forall i :: 0 <= i < |a| ==> s[i] == a[i];
    assert forall i :: 0 <= i < |b| ==> t[i] == b[i];
    assert |a| == |b|;
    assert a == s[..|a|] == t[..|b|] == b;
    assert x == s[|a| + 1..] == t[|b| + 1..] == y;
  }

  /** LIKE on the prefix of a year finds exactly the numbers of that year. */
  lemma PrefixSelectsYear(kind: Kind, year: nat, year': nat, n: nat)
    ensures Like(NumberText(kind, year', n), Prefix(kind, year)) <==> year == year'
  {
    hide Digits, Pad;
    var head := (if kind == Quote then "Q" else "INV") + "-";
    var text := NumberText(kind, year', n);
    assert text == head + (Digits(year') + "-" + Pad(Digits(n)));
    assert Prefix(kind, year) == head + (Digits(year) + "-");
    if Like(text, Prefix(kind, year)) {
      var tail := text[|Prefix(kind, year)|..];
      assert text == Prefix(kind, year) + tail;
      assert Digits(year) + "-" + tail == text[|head|..] == Digits(year') + "-" + Pad(Digits(n));
      DashDelimits(Digits(year), Digits(year'), tail, Pad(Digits(n)));
      ParseOfDigits(year);
      ParseOfDigits(year');
    }
  }

  lemma NumberTextInjective(kind: Kind, year: nat, m: nat, n: nat)
    requires NumberText(kind, year, m) == NumberText(kind, year, n)
    ensures m == n
  {
    hide Digits, Pad;
    var p := Prefix(kind, year);
    assert Pad(Digits(m)) == NumberText(kind, year, m)[|p|..];
    assert Pad(Digits(n)) == NumberText(kind, year, n)[|p|..];
    PadInjective(m, n);
  }

  // ----- interleaved runs -----

  /** A request that has read its count and not stored its number yet. */
  datatype Pending = Pending(kind: Kind, companyId: string, year: nat, count: nat)

  datatype State = State(rows: set<Row>, pending: map<nat, Pending>)

  datatype Step =
    | ReadCount(request: nat, kind: Kind, companyId: string, year: nat)
    | Store(request: nat)

  const Start := State({}, map[])

  predicate Enabled(s: State, step: Step) {
    match step
    case ReadCount(request, _, _, _) => request !in s.pending
    case Store(request) => request in s.pending
  }

  /** Storing a number that is already taken fails on the UNIQUE key and changes no row. */
  function Next(s: State, step: Step): State
    requires Enabled(s, step)
  {
    match step
    case ReadCount(request, kind, companyId, year) =>
      s.(pending := s.pending[request := Pending(kind, companyId, year, |Matching(s.rows, kind, companyId, year)|)])
    case Store(request) =>
      var p := s.pending[request];
      State(s.rows + {Row(p.kind, p.companyId, NumberText(p.kind, p.year, p.count + 1))}, s.pending - {request})
  }

  predicate Runs(s: State, steps: seq<Step>)
    decreases |steps|
  {
    steps != [] ==> Enabled(s, steps[0]) && Runs(Next(s, steps[0]), steps[1..])
  }

  function Run(s: State, steps: seq<Step>): State
    requires Runs(s, steps)
    decreases |steps|
  {
    if steps == [] then s else Run(Next(s, steps[0]), steps[1..])
  }

  /** The numbers 1..n of one company, kind and year. */
  function Block(kind: Kind, companyId: string, year: nat, n: nat): set<Row> {
    set i | 1 <= i <= n :: Row(kind, companyId, NumberText(kind, year, i))
  }

  lemma InBlock(kind: Kind, companyId: string, year: nat, n: nat, i: nat)
    requires i >= 1
    ensures Row(kind, companyId, NumberText(kind, year, i)) in Block(kind, companyId, year, n) <==> i <= n
  {
    hide NumberText;
    var r := Row(kind, companyId, NumberText(kind, year, i));
    if r in Block(kind, companyId, year, n) {
      var j :| 1 <= j <= n && r == Row(kind, companyId, NumberText(kind, year, j));
      NumberTextInjective(kind, year, i, j);
    }
  }

  lemma BlockGrows(kind: Kind, companyId: string, year: nat, n: nat)
    ensures Block(kind, companyId, year, n + 1)
            == Block(kind, companyId, year, n) + {Row(kind, companyId, NumberText(kind, year, n + 1))}
  {
    hide NumberText;
  }

  lemma {:induction false} BlockSize(kind: Kind, companyId: string, year: nat, n: nat)
    ensures |Block(kind, companyId, year, n)| == n
  {
    hide NumberText, Block;
    if n > 0 {
      BlockSize(kind, companyId, year, n - 1);
      BlockGrows(kind, companyId, year, n - 1);
      InBlock(kind, companyId, year, n - 1, n);
    } else {
      EmptyBlock(kind, companyId, year);
    }
  }

  lemma EmptyBlock(kind: Kind, companyId: string, year: nat)
    ensures Block(kind, companyId, year, 0) == {}
  {
  }

  /** The matching rows of every company, kind and year are its numbers 1..n. */
  ghost predicate Dense(rows: set<Row>) {
    forall kind, companyId, year: nat ::
      Matching(rows, kind, companyId, year) == Block(kind, companyId, year, |Matching(rows, kind, companyId, year)|)
  }

  ghost predicate Inv(s: State) {
    Dense(s.rows)
    && forall q | q in s.pending ::
        s.pending[q].count <= |Matching(s.rows, s.pending[q].kind, s.pending[q].companyId, s.pending[q].year)|
  }

  lemma StoreElsewhere(rows: set<Row>, r: Row, kind: Kind, companyId: string, year: nat)
    ensures Matching(rows + {r}, kind, companyId, year)
            == Matching(rows, kind, companyId, year)
               + if r.kind == kind && r.companyId == companyId && Like(r.number, Prefix(kind, year)) then {r} else {}
  {
    hide Prefix;
  }

  lemma StoreMatching(rows: set<Row>, p: Pending, kind: Kind, companyId: string, year: nat)
    requires Matching(rows, p.kind, p.companyId, p.year)
             == Block(p.kind, p.companyId, p.year, |Matching(rows, p.kind, p.companyId, p.year)|)
    requires p.count <= |Matching(rows, p.kind, p.companyId, p.year)|
    ensures var rows' := rows + {Row(p.kind, p.companyId, NumberText(p.kind, p.year, p.count + 1))};
            var before := Matching(rows, kind, companyId, year);
            Matching(rows', kind, companyId, year)
            == if (kind, companyId, year) == (p.kind, p.companyId, p.year) && p.count == |before|
               then Block(kind, companyId, year, |before| + 1)
               else before
  {
    hide NumberText, Prefix, Matching, Block, Like;
    var r := Row(p.kind, p.companyId, NumberText(p.kind, p.year, p.count + 1));
    var before := Matching(rows, kind, companyId, year);
    StoreElsewhere(rows, r, kind, companyId, year);
    if kind == p.kind && companyId == p.companyId {
      PrefixSelectsYear(kind, year, p.year, p.count + 1);
      if year == p.year {
        InBlock(kind, companyId, year, |before|, p.count + 1);
        BlockGrows(kind, companyId, year, |before|);
        assert p.count < |before| ==> r in before;
      }
    }
  }

  lemma StepKeeps(s: State, step: Step)
    requires Inv(s) && Enabled(s, step)
    ensures Inv(Next(s, step))
  {
    hide Matching, Block, NumberText;
    if step.Store? {
      var p := s.pending[step.request];
      var s' := Next(s, step);
      forall kind, companyId, year: nat
        ensures Matching(s'.rows, kind, companyId, year)
                == Block(kind, companyId, year, |Matching(s'.rows, kind, companyId, year)|)
        ensures |Matching(s.rows, kind, companyId, year)| <= |Matching(s'.rows, kind, companyId, year)|
      {
        StoreMatching(s.rows, p, kind, companyId, year);
        BlockSize(kind, companyId, year, |Matching(s.rows, kind, companyId, year)| + 1);
      }
    }
  }

  lemma NextIsFree(rows: set<Row>, kind: Kind, companyId: string, year: nat)
    requires Dense(rows)
    ensures var n := |Matching(rows, kind, companyId, year)|;
            Row(kind, companyId, NumberText(kind, year, n + 1)) !in rows
            && forall i: nat | 1 <= i <= n :: Row(kind, companyId, NumberText(kind, year, i)) in rows
  {
    hide NumberText, Block;
    var n := |Matching(rows, kind, companyId, year)|;
    forall i: nat | 1 <= i <= n + 1
      ensures Row(kind, companyId, NumberText(kind, year, i)) in rows <==> i <= n
    {
      InBlock(kind, companyId, year, n, i);
      PrefixSelectsYear(kind, year, year, i);
    }
  }

  lemma StoreCounted(rows: set<Row>, kind: Kind, companyId: string, year: nat, count: nat)
    requires Dense(rows) && count <= |Matching(rows, kind, companyId, year)|
    ensures var r := Row(kind, companyId, NumberText(kind, year, count + 1));
            Dense(rows + {r}) && (r !in rows <==> count == |Matching(rows, kind, companyId, year)|)
  {
    hide NumberText, Matching, Block;
    NextIsFree(rows, kind, companyId, year);
    StepKeeps(State(rows, map[0 := Pending(kind, companyId, year, count)]), Store(0));
  }

  lemma {:induction false} RunKeeps(s: State, steps: seq<Step>)
    requires Inv(s) && Runs(s, steps)
    ensures Inv(Run(s, steps))
    decreases |steps|
  {
    hide Inv, Next;
    if steps != [] {
      StepKeeps(s, steps[0]);
      RunKeeps(Next(s, steps[0]), steps[1..]);
    }
  }

  /**
   * Dense numbering under races: after any interleaving, the stored numbers of every
   * company, kind and year are exactly 1..n, with n the number of rows stored.
   */
  lemma NumbersAreDense(steps: seq<Step>, kind: Kind, companyId: string, year: nat)
    requires Runs(Start, steps)
    ensures var numbers := Matching(Run(Start, steps).rows, kind, companyId, year);
            forall i: nat | i >= 1 :: Row(kind, companyId, NumberText(kind, year, i)) in numbers <==> i <= |numbers|
    ensures forall r | r in Matching(Run(Start, steps).rows, kind, companyId, year) ::
              exists i: nat :: i >= 1 && r == Row(kind, companyId, NumberText(kind, year, i))
  {
    hide NumberText;
    assert Inv(Start) by { EmptyIsDense(); }
    RunKeeps(Start, steps);
    var numbers := Matching(Run(Start, steps).rows, kind, companyId, year);
    assert numbers == Block(kind, companyId, year, |numbers|);
    forall i: nat | i >= 1
      ensures Row(kind, companyId, NumberText(kind, year, i)) in numbers <==> i <= |numbers|
    {
      InBlock(kind, companyId, year, |numbers|, i);
    }
  }

  lemma EmptyIsDense()
    ensures Inv(Start)
  {
    forall kind, companyId, year: nat
      ensures Matching({}, kind, companyId, year) == Block(kind, companyId, year, |Matching({}, kind, companyId, year)|)
    {
      assert Matching({}, kind, companyId, year) == {};
    }
  }

  /** Of the requests that read the same count, the first to store gets the number and the others fail. */
  lemma RacersGetOneNumber(s: State, q: nat, q': nat)
    requires q in s.pending && q' in s.pending && q != q' && s.pending[q] == s.pending[q']
    ensures Enabled(Next(s, Store(q)), Store(q'))
    ensures Next(Next(s, Store(q)), Store(q')).rows == Next(s, Store(q)).rows
  {
  }
}
