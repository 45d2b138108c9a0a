/**
 * Conversion beside edits, statement by statement. A conversion reads the row and the lines
 * of a quote separately; creating or editing a quote replaces the lines one by one, and an
 * edit writes the totals afterwards. When is an invoice's total that of its lines?
 */
module ConversionReads {
  import opened Prelude
  import opened Money
  import Billing

  /** What a row says about the amounts. */
  datatype Header = Header(taxRate: real, discount: int, totals: Totals)

  /** An edit with lines, as it is after its checks. */
  datatype Edit = Edit(taxRate: Option<real>, discount: Option<int>, lines: seq<Line>)

  datatype Invoice = Invoice(header: Header, lines: seq<Line>)

  /**
   * A request between its statements: one that replaces the lines of a quote, first to be
   * cleared and then written from `left`, with the header to write at the end if it is an
   * edit; or a conversion with the row it has read and, later, the lines.
   */
  datatype Flight =
    | Replacing(quoteId: nat, cleared: bool, left: seq<Line>, header: Option<Header>)
    | Converting(quoteId: nat, invoiceId: nat, row: Header, lines: Option<seq<Line>>)

  datatype Desk = Desk(
    headers: map<nat, Header>,
    lines: map<nat, seq<Line>>,
    invoices: map<nat, Invoice>,
    flights: map<nat, Flight>)

  datatype Step =
    | InsertQuote(flight: nat, quoteId: nat, taxRate: real, discount: int, newLines: seq<Line>)
    | ReadForEdit(flight: nat, quoteId: nat, edit: Edit)
    | ClearLines(flight: nat)
    | InsertLine(flight: nat)
    | Finish(flight: nat)
    | ReadRow(flight: nat, quoteId: nat, invoiceId: nat)
    | ReadLines(flight: nat)
    | StoreInvoice(flight: nat)

  predicate Adds(h: Header, lines: seq<Line>) {
    h.totals == CalculateTotals(lines, h.taxRate, h.discount as real)
  }

  function Priced(taxRate: real, discount: int, lines: seq<Line>): Header {
    Header(taxRate, discount, CalculateTotals(lines, taxRate, discount as real))
  }

  /** The header that an edit writes: its own rate and discount, or else those it has read. */
  function EditedHeader(seen: Header, edit: Edit): Header {
    Priced(if edit.taxRate.Some? then edit.taxRate.value else seen.taxRate,
           if edit.discount.Some? then edit.discount.value else seen.discount,
           edit.lines)
  }

  predicate Stored(d: Desk, q: nat) {
    q in d.headers && q in d.lines
  }

  predicate Replaces(d: Desk, f: nat) {
    f in d.flights && d.flights[f].Replacing? && Stored(d, d.flights[f].quoteId)
  }

  predicate Enabled(d: Desk, step: Step) {
    match step
    case InsertQuote(f, q, _, _, _) => f !in d.flights && q !in d.headers
    case ReadForEdit(f, q, _) => f !in d.flights && Stored(d, q)
    case ClearLines(f) => Replaces(d, f) && !d.flights[f].cleared
    case InsertLine(f) => Replaces(d, f) && d.flights[f].cleared && d.flights[f].left != []
    case Finish(f) => Replaces(d, f) && d.flights[f].cleared && d.flights[f].left == []
    case ReadRow(f, q, _) => f !in d.flights && Stored(d, q)
    case ReadLines(f) =>
      && f in d.flights && d.flights[f].Converting? && d.flights[f].lines.None?
      && Stored(d, d.flights[f].quoteId) && d.lines[d.flights[f].quoteId] != []
    case StoreInvoice(f) =>
      f in d.flights && d.flights[f].Converting? && d.flights[f].lines.Some? && d.flights[f].invoiceId !in d.invoices
  }

  function After(d: Desk, step: Step): Desk
    requires Enabled(d, step)
  {
    match step
    case InsertQuote(f, q, taxRate, discount, newLines) =>
      d.(headers := d.headers[q := Priced(taxRate, discount, newLines)], lines := d.lines[q := []],
         flights := d.flights[f := Replacing(q, false, newLines, None)])
    case ReadForEdit(f, q, edit) =>
      d.(flights := d.flights[f := Replacing(q, false, edit.lines, Some(EditedHeader(d.headers[q], edit)))])
    case ClearLines(f) =>
      d.(lines := d.lines[d.flights[f].quoteId := []], flights := d.flights[f := d.flights[f].(cleared := true)])
    case InsertLine(f) =>
      var w := d.flights[f];
      d.(lines := d.lines[w.quoteId := d.lines[w.quoteId] + [w.left[0]]],
         flights := d.flights[f := w.(left := w.left[1..])])
    case Finish(f) =>
      var w := d.flights[f];
      d.(headers := if w.header.Some? then d.headers[w.quoteId := w.header.value] else d.headers,
         flights := d.flights - {f})
    case ReadRow(f, q, i) => d.(flights := d.flights[f := Converting(q, i, d.headers[q], None)])
    case ReadLines(f) =>
      d.(flights := d.flights[f := d.flights[f].(lines := Some(d.lines[d.flights[f].quoteId]))])
    case StoreInvoice(f) =>
      var c := d.flights[f];
      d.(invoices := d.invoices[c.invoiceId := Invoice(c.row, c.lines.value)], flights := d.flights - {f})
  }

  predicate Runs(d: Desk, steps: seq<Step>)
    decreases |steps|
  {
    steps != [] ==> Enabled(d, steps[0]) && Runs(After(d, steps[0]), steps[1..])
  }

  function AfterAll(d: Desk, steps: seq<Step>): Desk
    requires Runs(d, steps)
    decreases |steps|
  {
    if steps == [] then d else AfterAll(After(d, steps[0]), steps[1..])
  }

  const Empty := Desk(map[], map[], map[], map[])

  // ----- exactly when invoices add up -----

  /** Every invoice, stored or with all its parts read, has the totals of its lines. */
  ghost predicate InvoicesAdd(d: Desk) {
    && (forall i | i in d.invoices :: Adds(d.invoices[i].header, d.invoices[i].lines))
    && (forall f | f in d.flights && d.flights[f].Converting? && d.flights[f].lines.Some? ::
          Adds(d.flights[f].row, d.flights[f].lines.value))
  }

  /** The lines that a conversion reads add up to the row that it has read. */
  predicate ReadsMatch(d: Desk, step: Step)
    requires Enabled(d, step)
  {
    step.ReadLines? ==> Adds(d.flights[step.flight].row, d.lines[d.flights[step.flight].quoteId])
  }

  lemma InvoicesStep(d: Desk, step: Step)
    requires InvoicesAdd(d) && Enabled(d, step)
    ensures InvoicesAdd(After(d, step)) <==> ReadsMatch(d, step)
  {
    hide Adds, Priced, EditedHeader;
    if step.ReadLines? {
      assert step.flight in After(d, step).flights;
    }
  }

  ghost predicate AlwaysAdd(d: Desk, steps: seq<Step>)
    requires Runs(d, steps)
    decreases |steps|
  {
    InvoicesAdd(d) && (steps != [] ==> AlwaysAdd(After(d, steps[0]), steps[1..]))
  }

  predicate AlwaysMatch(d: Desk, steps: seq<Step>)
    requires Runs(d, steps)
    decreases |steps|
  {
    steps != [] ==> ReadsMatch(d, steps[0]) && AlwaysMatch(After(d, steps[0]), steps[1..])
  }

  lemma {:induction false} AddExactly(d: Desk, steps: seq<Step>)
    requires InvoicesAdd(d) && Runs(d, steps)
    ensures AlwaysAdd(d, steps) <==> AlwaysMatch(d, steps)
    decreases |steps|
  {
    hide InvoicesAdd, ReadsMatch, After, Enabled;
    if steps != [] {
      InvoicesStep(d, steps[0]);
      if ReadsMatch(d, steps[0]) {
        AddExactly(After(d, steps[0]), steps[1..]);
      } else {
        assert !AlwaysAdd(After(d, steps[0]), steps[1..]);
      }
    }
  }

  /**
   * Exactly which interleavings of conversions with creations and edits give every invoice
   * the totals of its lines: those in which the lines that each conversion reads add up to
   * the row it has read before.
   */
  lemma InterleavingsAdd(steps: seq<Step>)
    requires Runs(Empty, steps)
    ensures AlwaysAdd(Empty, steps) <==> AlwaysMatch(Empty, steps)
  {
    AddExactly(Empty, steps);
  }

  // ----- quotes at rest -----

  /** A request that replaces the lines of the quote is under way. */
  ghost predicate Busy(d: Desk, q: nat) {
    exists f :: f in d.flights && d.flights[f].Replacing? && d.flights[f].quoteId == q
  }

  /** Edits of one quote do not overlap. */
  ghost predicate OneAtATime(d: Desk, steps: seq<Step>)
    requires Runs(d, steps)
    decreases |steps|
  {
    steps != [] ==> (steps[0].ReadForEdit? ==> !Busy(d, steps[0].quoteId)) && OneAtATime(After(d, steps[0]), steps[1..])
  }

  /** What is written and what is left are the lines of the header that the quote will have. */
  ghost predicate OnCourse(d: Desk, f: nat)
    requires f in d.flights && d.flights[f].Replacing?
  {
    var w := d.flights[f];
    Stored(d, w.quoteId)
    && Adds(if w.header.Some? then w.header.value else d.headers[w.quoteId],
            if w.cleared then d.lines[w.quoteId] + w.left else w.left)
  }

  ghost predicate AtRest(d: Desk, q: nat) {
    Stored(d, q) && (!Busy(d, q) ==> Adds(d.headers[q], d.lines[q]))
  }

  /** No two requests replace the lines of one quote. */
  ghost predicate Apart(d: Desk) {
    forall f, g | f in d.flights && g in d.flights && f != g && d.flights[f].Replacing? && d.flights[g].Replacing? ::
      d.flights[f].quoteId != d.flights[g].quoteId
  }

  ghost predicate Orderly(d: Desk) {
    && d.headers.Keys == d.lines.Keys
    && (forall f | f in d.flights && d.flights[f].Replacing? :: OnCourse(d, f))
    && Apart(d)
    && (forall q | q in d.headers :: AtRest(d, q))
  }

  lemma FlightOnCourse(d: Desk, step: Step, f: nat)
    requires Orderly(d) && Enabled(d, step) && (step.ReadForEdit? ==> !Busy(d, step.quoteId))
    requires f in After(d, step).flights && After(d, step).flights[f].Replacing?
    ensures OnCourse(After(d, step), f)
  {
    hide CalculateTotals, AtRest;
    var d' := After(d, step);
    if f in d.flights && d.flights[f].Replacing? {
      assert OnCourse(d, f);
      if step.InsertLine? && step.flight == f {
        var w := d.flights[f];
        assert d.lines[w.quoteId] + [w.left[0]] + w.left[1..] == d.lines[w.quoteId] + w.left;
      } else if step.ClearLines? && step.flight == f {
        assert [] + d.flights[f].left == d.flights[f].left;
      }
    }
  }

  lemma QuoteAtRest(d: Desk, step: Step, q: nat)
    requires Orderly(d) && Enabled(d, step) && (step.ReadForEdit? ==> !Busy(d, step.quoteId))
    requires q in After(d, step).headers
    ensures AtRest(After(d, step), q)
  {
    hide CalculateTotals;
    var d' := After(d, step);
    if step.InsertQuote? && step.quoteId == q {
      assert d'.flights[step.flight].Replacing?;
      assert Busy(d', q);
    } else {
      assert AtRest(d, q);
      if step.Finish? && d.flights[step.flight].quoteId == q {
        assert OnCourse(d, step.flight);
        assert d.lines[q] + [] == d.lines[q];
      } else if Busy(d, q) {
        var f :| f in d.flights && d.flights[f].Replacing? && d.flights[f].quoteId == q;
        assert f in d'.flights && d'.flights[f].Replacing? && d'.flights[f].quoteId == q;
      } else if step.ReadForEdit? && step.quoteId == q {
        assert d'.flights[step.flight].Replacing?;
      }
    }
  }

  lemma FlightsApart(d: Desk, step: Step)
    requires Orderly(d) && Enabled(d, step) && (step.ReadForEdit? ==> !Busy(d, step.quoteId))
    ensures Apart(After(d, step)) && After(d, step).headers.Keys == After(d, step).lines.Keys
  {
    hide AtRest, Adds, Priced, EditedHeader;
    if step.InsertQuote? {
      forall g | g in d.flights && d.flights[g].Replacing?
        ensures d.flights[g].quoteId != step.quoteId
      {
        StoredOnCourse(d, g);
      }
    }
  }

  lemma OrderlyKept(d: Desk, step: Step)
    requires Orderly(d) && Enabled(d, step) && (step.ReadForEdit? ==> !Busy(d, step.quoteId))
    ensures Orderly(After(d, step))
  {
    FlightsApart(d, step);
    hide OnCourse, AtRest, After, Enabled, Apart, Busy;
    var d' := After(d, step);
    forall f | f in d'.flights && d'.flights[f].Replacing? ensures OnCourse(d', f) { FlightOnCourse(d, step, f); }
    forall q | q in d'.headers ensures AtRest(d', q) { QuoteAtRest(d, step, q); }
  }

  lemma StoredOnCourse(d: Desk, f: nat)
    requires f in d.flights && d.flights[f].Replacing? && OnCourse(d, f)
    ensures Stored(d, d.flights[f].quoteId)
  {
  }

  lemma {:induction false} OrderlyRun(d: Desk, steps: seq<Step>)
    requires Orderly(d) && Runs(d, steps) && OneAtATime(d, steps)
    ensures Orderly(AfterAll(d, steps))
    decreases |steps|
  {
    hide Orderly, After, Enabled, Busy;
    if steps != [] {
      OrderlyKept(d, steps[0]);
      OrderlyRun(After(d, steps[0]), steps[1..]);
    }
  }

  /** When edits of one quote do not overlap, every quote without a request under way has the totals of its lines. */
  lemma QuotesAtRestAdd(steps: seq<Step>, q: nat)
    requires Runs(Empty, steps) && OneAtATime(Empty, steps)
    requires q in AfterAll(Empty, steps).headers && !Busy(AfterAll(Empty, steps), q)
    ensures Stored(AfterAll(Empty, steps), q)
            && Adds(AfterAll(Empty, steps).headers[q], AfterAll(Empty, steps).lines[q])
  {
    OrderlyRun(Empty, steps);
    assert AtRest(AfterAll(Empty, steps), q);
  }

  // ----- one request alone -----

  /** The statements that write the lines and then the header. */
  function WriteOut(f: nat, n: nat): seq<Step> {
    if n == 0 then [Finish(f)] else [InsertLine(f)] + WriteOut(f, n - 1)
  }

  lemma {:induction false} WritesOut(d: Desk, f: nat)
    requires Replaces(d, f) && d.flights[f].cleared
    ensures var w := d.flights[f];
            var steps := WriteOut(f, |w.left|);
            Runs(d, steps)
            && AfterAll(d, steps) == d.(lines := d.lines[w.quoteId := d.lines[w.quoteId] + w.left],
                 headers := if w.header.Some? then d.headers[w.quoteId := w.header.value] else d.headers,
                 flights := d.flights - {f})
    decreases |d.flights[f].left|
  {
    var w := d.flights[f];
    if w.left == [] {
      assert d.lines[w.quoteId] + [] == d.lines[w.quoteId];
      assert d.lines[w.quoteId := d.lines[w.quoteId]] == d.lines;
      var steps := WriteOut(f, 0);
      assert steps[1..] == [];
      assert Runs(After(d, steps[0]), []) && AfterAll(After(d, steps[0]), []) == After(d, steps[0]);
    } else {
      var d' := After(d, InsertLine(f));
      WritesOut(d', f);
      assert d.lines[w.quoteId] + [w.left[0]] + w.left[1..] == d.lines[w.quoteId] + w.left;
      assert WriteOut(f, |w.left|)[1..] == WriteOut(f, |w.left| - 1);
      assert d'.lines[w.quoteId := d'.lines[w.quoteId] + w.left[1..]]
             == d.lines[w.quoteId := d.lines[w.quoteId] + w.left];
      assert d'.flights - {f} == d.flights - {f};
    }
  }

  /** An edit whose statements run without interference leaves its lines and the header priced for them, no more. */
  lemma EditAlone(d: Desk, f: nat, q: nat, edit: Edit)
    requires Enabled(d, ReadForEdit(f, q, edit))
    ensures var steps := [ReadForEdit(f, q, edit)] + ([ClearLines(f)] + WriteOut(f, |edit.lines|));
            Runs(d, steps)
            && AfterAll(d, steps)
               == d.(headers := d.headers[q := EditedHeader(d.headers[q], edit)], lines := d.lines[q := edit.lines])
  {
    hide EditedHeader;
    var d1 := After(d, ReadForEdit(f, q, edit));
    var d2 := After(d1, ClearLines(f));
    WritesOut(d2, f);
    var tail := WriteOut(f, |edit.lines|);
    assert ([ClearLines(f)] + tail)[1..] == tail;
    assert ([ReadForEdit(f, q, edit)] + ([ClearLines(f)] + tail))[1..] == [ClearLines(f)] + tail;
    assert [] + edit.lines == edit.lines;
    assert d2.lines[q := [] + edit.lines] == d.lines[q := edit.lines];
    assert d2.flights - {f} == d.flights;
  }

  /** The header that an edit with lines writes is that of the whole edit in `Billing`. */
  lemma SameAsWholeEdit(quote: Billing.Quote, taxRate: Option<Entered>, discount: Option<int>,
      payload: seq<LinePayload>)
    ensures var edit := Billing.QuoteEdit(None, taxRate, discount, Some(payload));
            var after := Billing.EditQuote(quote, edit);
            var rate := if taxRate.Some? then Some(NonNegative(taxRate.value)) else None;
            var cents := if discount.Some? then Some(Max(0, discount.value)) else None;
            && after.lines == KeptLines(payload)
            && Header(after.taxRate, after.discount, after.totals)
               == EditedHeader(Header(quote.taxRate, quote.discount, quote.totals),
                   Edit(rate, cents, KeptLines(payload)))
  {
  }

  // ----- conversions that are not disturbed -----

  /** The step writes nothing of the quote. */
  predicate LeavesAlone(d: Desk, step: Step, q: nat) {
    (step.ClearLines? || step.InsertLine? || step.Finish?) && step.flight in d.flights ==>
      d.flights[step.flight].quoteId != q
  }

  predicate AllLeaveAlone(d: Desk, steps: seq<Step>, q: nat)
    requires Runs(d, steps)
    decreases |steps|
  {
    steps != [] ==> LeavesAlone(d, steps[0], q) && AllLeaveAlone(After(d, steps[0]), steps[1..], q)
  }

  /** The flight is not touched either; only its own statements do that. */
  lemma {:induction false} Undisturbed(d: Desk, steps: seq<Step>, f: nat, q: nat)
    requires Runs(d, steps) && Stored(d, q) && f in d.flights && AllLeaveAlone(d, steps, q)
    requires forall step | step in steps :: step.flight != f
    ensures var d' := AfterAll(d, steps);
            Stored(d', q) && d'.headers[q] == d.headers[q] && d'.lines[q] == d.lines[q]
            && f in d'.flights && d'.flights[f] == d.flights[f]
    decreases |steps|
  {
    if steps != [] {
      assert steps[0] in steps;
      hide Adds, Priced, EditedHeader;
      Undisturbed(After(d, steps[0]), steps[1..], f, q);
    }
  }

  /**
   * A conversion between whose two reads nothing is written of its quote reads lines that
   * match its row exactly when the quote added up at the first read.
   */
  lemma UndisturbedReads(d: Desk, f: nat, q: nat, i: nat, between: seq<Step>)
    requires Enabled(d, ReadRow(f, q, i)) && Runs(After(d, ReadRow(f, q, i)), between)
    requires AllLeaveAlone(After(d, ReadRow(f, q, i)), between, q) && forall step | step in between :: step.flight != f
    requires d.lines[q] != []
    ensures var d' := AfterAll(After(d, ReadRow(f, q, i)), between);
            Enabled(d', ReadLines(f)) && (ReadsMatch(d', ReadLines(f)) <==> Adds(d.headers[q], d.lines[q]))
  {
    Undisturbed(After(d, ReadRow(f, q, i)), between, f, q);
  }

  /** A conversion whose three statements run at once stores the row and the lines as they are. */
  lemma Converts(d: Desk, q: nat, f: nat, i: nat)
    requires Stored(d, q) && f !in d.flights && i !in d.invoices && d.lines[q] != []
    ensures var steps := [ReadRow(f, q, i), ReadLines(f), StoreInvoice(f)];
            Runs(d, steps) && i in AfterAll(d, steps).invoices
            && AfterAll(d, steps).invoices[i] == Invoice(d.headers[q], d.lines[q])
  {
    hide Runs, AfterAll;
    var steps := [ReadRow(f, q, i), ReadLines(f), StoreInvoice(f)];
    var d1 := After(d, steps[0]);
    var d2 := After(d1, steps[1]);
    var d3 := After(d2, steps[2]);
    NoStep(d3, steps[3..]);
    OneStep(d2, steps, 2);
    OneStep(d1, steps, 1);
    OneStep(d, steps, 0);
    assert steps[0..] == steps;
  }

  /** A conversion that runs after an edit has replaced the lines and before it writes the totals mixes the two. */
  lemma MixedInvoice(d: Desk, q: nat, edit: Edit, line: Line, e: nat, f: nat, i: nat)
    requires Stored(d, q) && e !in d.flights && f !in d.flights && e != f && i !in d.invoices
    requires edit.lines == [line] && !Adds(d.headers[q], [line])
    ensures var steps := [ReadForEdit(e, q, edit), ClearLines(e), InsertLine(e)]
                         + [ReadRow(f, q, i), ReadLines(f), StoreInvoice(f)];
            Runs(d, steps)
            && i in AfterAll(d, steps).invoices
            && !Adds(AfterAll(d, steps).invoices[i].header, AfterAll(d, steps).invoices[i].lines)
  {
    hide Adds, Priced, EditedHeader, Runs, AfterAll;
    var tail := [ReadRow(f, q, i), ReadLines(f), StoreInvoice(f)];
    var steps := [ReadForEdit(e, q, edit), ClearLines(e), InsertLine(e)] + tail;
    var d1 := After(d, steps[0]);
    var d2 := After(d1, steps[1]);
    var d3 := After(d2, steps[2]);
    assert d3.lines[q] == [] + [line] == [line];
    Converts(d3, q, f, i);
    assert steps[3..] == tail;
    OneStep(d2, steps, 2);
    OneStep(d1, steps, 1);
    OneStep(d, steps, 0);
    assert steps[0..] == steps;
  }

  lemma OneStep(d: Desk, steps: seq<Step>, k: nat)
    requires k < |steps| && Enabled(d, steps[k]) && Runs(After(d, steps[k]), steps[k + 1..])
    ensures Runs(d, steps[k..]) && AfterAll(d, steps[k..]) == AfterAll(After(d, steps[k]), steps[k + 1..])
  {
    assert steps[k..][1..] == steps[k + 1..];
  }

  lemma NoStep(d: Desk, steps: seq<Step>)
    requires steps == []
    ensures Runs(d, steps) && AfterAll(d, steps) == d
  {
  }
}
