/**
 * Quotes and invoices: runs of requests on the two tables. Amounts are whole cents.
 */
module Billing {
  import opened Prelude
  import opened Money

  datatype QuoteStatus = QDraft | QSent | QApproved | QDeclined | QExpired | QConverted

  datatype InvoiceStatus = IDraft | ISent | IPartial | IPaid | IVoid | IOverdue

  datatype Quote = Quote(status: QuoteStatus, taxRate: real, discount: int, totals: Totals, lines: seq<Line>,
      convertedInvoiceId: Option<nat>)

  datatype Invoice = Invoice(quoteId: nat, status: InvoiceStatus, taxRate: real, discount: int, totals: Totals,
      lines: seq<Line>, amountPaid: int, balanceDue: int)

  datatype Store = Store(quotes: map<nat, Quote>, invoices: map<nat, Invoice>)

  /** The rows of ServiceQuoteLine or ServiceInvoiceLine, in insertion order. */
  class LineTable {
    var rows: seq<(nat, Line)>

    constructor ()
      ensures rows == []
    {
      rows := [];
    }

    /** Deletes the lines of a document and inserts the new ones; other documents keep theirs. */
    method ReplaceLines(documentId: nat, lines: seq<Line>)
      modifies this
      ensures LinesOf(rows, documentId) == lines
      ensures forall id | id != documentId :: LinesOf(rows, id) == LinesOf(old(rows), id)
    {
      var kept := Without(rows, documentId);
      ghost var before := rows;
      WithoutLines(rows, documentId);
      rows := kept;
      var i := 0;
      while i < |lines|
        invariant 0 <= i <= |lines|
        invariant LinesOf(rows, documentId) == lines[..i]
        invariant forall id | id != documentId :: LinesOf(rows, id) == LinesOf(before, id)
      {
        forall id
          ensures LinesOf(rows + [(documentId, lines[i])], id)
                  == LinesOf(rows, id) + if id == documentId then [lines[i]] else []
        {
          LinesSnoc(rows, (documentId, lines[i]), id);
        }
        rows := rows + [(documentId, lines[i])];
        i := i + 1;
      }
    }
  }

  function LinesOf(rows: seq<(nat, Line)>, id: nat): seq<Line> {
    if rows == [] then [] else (if rows[0].0 == id then [rows[0].1] else []) + LinesOf(rows[1..], id)
  }

  function Without(rows: seq<(nat, Line)>, id: nat): seq<(nat, Line)> {
    if rows == [] then [] else (if rows[0].0 == id then [] else [rows[0]]) + Without(rows[1..], id)
  }

  lemma {:induction false} LinesSnoc(rows: seq<(nat, Line)>, r: (nat, Line), id: nat)
    ensures LinesOf(rows + [r], id) == LinesOf(rows, id) + if r.0 == id then [r.1] else []
  {
    if rows == [] {
      assert rows + [r] == [r] && [r][1..] == [];
    } else {
      LinesSnoc(rows[1..], r, id);
      assert (rows + [r])[1..] == rows[1..] + [r];
    }
  }

  lemma {:induction false} WithoutLines(rows: seq<(nat, Line)>, documentId: nat)
    ensures LinesOf(Without(rows, documentId), documentId) == []
    ensures forall id | id != documentId :: LinesOf(Without(rows, documentId), id) == LinesOf(rows, id)
  {
    if rows != [] {
      WithoutLines(rows[1..], documentId);
      var rest := Without(rows[1..], documentId);
      assert ([rows[0]] + rest)[1..] == rest;
      assert [] + rest == rest;
    }
  }

  // ----- requests -----

  /** The edited fields of a quote; absent ones stay as they are. */
  datatype QuoteEdit = QuoteEdit(status: Option<QuoteStatus>, taxRate: Option<Entered>, discount: Option<int>,
      lines: Option<seq<LinePayload>>)

  datatype InvoiceEdit = InvoiceEdit(status: Option<InvoiceStatus>, amountPaid: Option<int>)

  datatype Request =
    | CreateQuote(id: nat, status: QuoteStatus, taxRate: Entered, discount: int, lines: seq<LinePayload>)
    | UpdateQuote(id: nat, edit: QuoteEdit)
    | ConvertQuote(id: nat, invoiceId: nat)
    | UpdateInvoice(id: nat, payment: InvoiceEdit)

  /** The request is answered with an error and changes nothing. */
  predicate Fails(s: Store, r: Request) {
    match r
    case CreateQuote(_, _, _, _, lines) => !Acceptable(lines)
    case UpdateQuote(id, edit) =>
      id !in s.quotes
      || (edit.lines.Some? && (s.quotes[id].status == QConverted || !Acceptable(edit.lines.value)))
    case ConvertQuote(id, _) => id !in s.quotes || (s.quotes[id].convertedInvoiceId.None? && s.quotes[id].lines == [])
    case UpdateInvoice(id, _) => id !in s.invoices
  }

  function EditQuote(q: Quote, edit: QuoteEdit): Quote {
    var taxRate := if edit.taxRate.Some? then NonNegative(edit.taxRate.value) else q.taxRate;
    var discount := if edit.discount.Some? then Max(0, edit.discount.value) else q.discount;
    var status := if edit.status.Some? then edit.status.value else q.status;
    var edited := q.(taxRate := taxRate, discount := discount, status := status);
    if edit.lines.None? then edited
    else
      var lines := KeptLines(edit.lines.value);
      edited.(lines := lines, totals := CalculateTotals(lines, taxRate, discount as real))
  }

  /** Paying clears or recomputes the balance; a recorded amount decides last. */
  function EditInvoice(i: Invoice, edit: InvoiceEdit): Invoice {
    var status := if edit.status.Some? then edit.status.value else i.status;
    var balance := if edit.status == Some(IPaid) || edit.status == Some(IVoid) then 0 else i.balanceDue;
    if edit.amountPaid.None? then i.(status := status, balanceDue := balance)
    else
      var paid := Max(0, edit.amountPaid.value);
      var due := Max(0, i.totals.total - paid);
      i.(amountPaid := paid, balanceDue := due,
         status := if due == 0 then IPaid else if paid > 0 then IPartial else status)
  }

  /** The invoice made from a quote as it was read. */
  function InvoiceFrom(quoteId: nat, q: Quote): Invoice {
    Invoice(quoteId, IDraft, q.taxRate, q.discount, q.totals, q.lines, 0, q.totals.total)
  }

  function InsertInvoice(s: Store, quoteId: nat, q: Quote, invoiceId: nat): Store {
    s.(invoices := s.invoices[invoiceId := InvoiceFrom(quoteId, q)])
  }

  function LinkQuote(s: Store, quoteId: nat, invoiceId: nat): Store
    requires quoteId in s.quotes
  {
    s.(quotes := s.quotes[quoteId := s.quotes[quoteId].(status := QConverted, convertedInvoiceId := Some(invoiceId))])
  }

  function Next(s: Store, r: Request): Store {
    if Fails(s, r) then s else
    match r
    case CreateQuote(id, status, taxRate, discount, payload) =>
      var lines := KeptLines(payload);
      var rate, cents := NonNegative(taxRate), Max(0, discount);
      s.(quotes := s.quotes[id := Quote(status, rate, cents, CalculateTotals(lines, rate, cents as real), lines, None)])
    case UpdateQuote(id, edit) => s.(quotes := s.quotes[id := EditQuote(s.quotes[id], edit)])
    case ConvertQuote(id, invoiceId) =>
      if s.quotes[id].convertedInvoiceId.Some? then s
      else LinkQuote(InsertInvoice(s, id, s.quotes[id], invoiceId), id, invoiceId)
    case UpdateInvoice(id, edit) => s.(invoices := s.invoices[id := EditInvoice(s.invoices[id], edit)])
  }

  /** New documents get identifiers that are not in use. */
  predicate FreshIds(s: Store, r: Request) {
    (r.CreateQuote? ==> r.id !in s.quotes) && (r.ConvertQuote? ==> r.invoiceId !in s.invoices)
  }

  predicate Runs(s: Store, rs: seq<Request>)
    decreases |rs|
  {
    rs != [] ==> FreshIds(s, rs[0]) && Runs(Next(s, rs[0]), rs[1..])
  }

  function Run(s: Store, rs: seq<Request>): Store
    decreases |rs|
  {
    if rs == [] then s else Run(Next(s, rs[0]), rs[1..])
  }

  const Empty := Store(map[], map[])

  /** The service over its tables, one request at a time. */
  class QuotesInvoicesService {
    var store: Store

    constructor ()
      ensures store == Empty
    {
      store := Empty;
    }

    /** A quote with its lines, a rate and a discount that are not negative, their totals, and no invoice. */
    method Create(id: nat, status: QuoteStatus, taxRate: Entered, discount: int, payload: seq<LinePayload>)
        returns (ok: bool)
      modifies this
      ensures !ok ==> store == old(store)
      ensures ok ==> store.invoices == old(store).invoices && store.quotes.Keys == old(store).quotes.Keys + {id}
      ensures ok ==> forall k | k in old(store).quotes && k != id :: store.quotes[k] == old(store).quotes[k]
      ensures ok ==>
                var q := store.quotes[id];
                && q.status == status && q.convertedInvoiceId.None? && q.lines == KeptLines(payload)
                && q.taxRate == (if taxRate.Value? && taxRate.v > 0.0 then taxRate.v else 0.0)
                && q.discount == (if discount > 0 then discount else 0)
                && q.totals == CalculateTotals(q.lines, q.taxRate, q.discount as real)
      ensures ok <==> Acceptable(payload)
      ensures store == Next(old(store), CreateQuote(id, status, taxRate, discount, payload))
    {
      var lines := NormalizeLines(payload);
      if lines.Err? {
        return false;
      }
      var rate, cents := NonNegative(taxRate), Max(0, discount);
      var totals := CalculateTotals(lines.value, rate, cents as real);
      store := store.(quotes := store.quotes[id := Quote(status, rate, cents, totals, lines.value, None)]);
      ok := true;
    }

    /**
     * Given fields change and the others stay; new lines are refused on a converted quote
     * and bring new totals, at the rate and discount as they are afterwards.
     */
    method Update(id: nat, edit: QuoteEdit) returns (ok: bool)
      modifies this
      ensures ok <==>
                && id in old(store).quotes
                && (edit.lines.Some? ==> old(store).quotes[id].status != QConverted && Acceptable(edit.lines.value))
      ensures !ok ==> store == old(store)
      ensures ok ==> store.invoices == old(store).invoices && store.quotes.Keys == old(store).quotes.Keys
      ensures ok ==> forall k | k in old(store).quotes && k != id :: store.quotes[k] == old(store).quotes[k]
      ensures ok ==>
                var was, q := old(store).quotes[id], store.quotes[id];
                && q.status == (if edit.status.Some? then edit.status.value else was.status)
                && q.convertedInvoiceId == was.convertedInvoiceId
                && (edit.taxRate.None? ==> q.taxRate == was.taxRate)
                && (edit.taxRate.Some? ==>
                      q.taxRate ==
                        if edit.taxRate.value.Value? && edit.taxRate.value.v > 0.0 then edit.taxRate.value.v else 0.0)
                && (edit.discount.None? ==> q.discount == was.discount)
                && (edit.discount.Some? ==> q.discount == if edit.discount.value > 0 then edit.discount.value else 0)
                && (edit.lines.None? ==> q.lines == was.lines && q.totals == was.totals)
                && (edit.lines.Some? ==>
                      q.lines == KeptLines(edit.lines.value)
                      && q.totals == CalculateTotals(q.lines, q.taxRate, q.discount as real))
      ensures ok <==> !Fails(old(store), UpdateQuote(id, edit))
      ensures store == Next(old(store), UpdateQuote(id, edit))
    {
      if id !in store.quotes || (edit.lines.Some? && store.quotes[id].status == QConverted) {
        return false;
      }
      var existing := store.quotes[id];
      var updates := EditQuote(existing, edit.(lines := None));
      if edit.lines.Some? {
        var lines := NormalizeLines(edit.lines.value);
        if lines.Err? {
          return false;
        }
        var totals := CalculateTotals(lines.value, updates.taxRate, updates.discount as real);
        updates := updates.(lines := lines.value, totals := totals);
      }
      store := store.(quotes := store.quotes[id := updates]);
      ok := true;
    }

    /**
     * A quote that has its invoice is left as it is; else it needs a line, and a draft
     * invoice takes over its amounts and lines with nothing paid and all of it due.
     */
    method Convert(id: nat, invoiceId: nat) returns (r: Option<nat>)
      modifies this
      ensures r.None? <==>
                id !in old(store).quotes
                || (old(store).quotes[id].convertedInvoiceId.None? && old(store).quotes[id].lines == [])
      ensures r.None? ==> store == old(store)
      ensures r.Some? && old(store).quotes[id].convertedInvoiceId.Some? ==>
                store == old(store) && r == old(store).quotes[id].convertedInvoiceId
      ensures r.Some? && old(store).quotes[id].convertedInvoiceId.None? ==>
                var q := old(store).quotes[id];
                && r == Some(invoiceId)
                && store.quotes == old(store).quotes[id :=
                    q.(status := QConverted, convertedInvoiceId := Some(invoiceId))]
                && store.invoices == old(store).invoices[invoiceId :=
                     Invoice(id, IDraft, q.taxRate, q.discount, q.totals, q.lines, 0, q.totals.total)]
      ensures store == Next(old(store), ConvertQuote(id, invoiceId))
      ensures r.None? <==> Fails(old(store), ConvertQuote(id, invoiceId))
      ensures r.Some? ==> store.quotes[id].convertedInvoiceId == r
    {
      if id !in store.quotes {
        return None;
      }
      var quote := store.quotes[id];
      if quote.convertedInvoiceId.Some? {
        return quote.convertedInvoiceId;
      }
      if quote.lines == [] {
        return None;
      }
      store := InsertInvoice(store, id, quote, invoiceId);
      store := LinkQuote(store, id, invoiceId);
      r := Some(invoiceId);
    }

    method Pay(id: nat, edit: InvoiceEdit) returns (ok: bool)
      modifies this
      ensures ok <==> id in old(store).invoices
      ensures store == Next(old(store), UpdateInvoice(id, edit))
      ensures store.quotes == old(store).quotes && store.invoices.Keys == old(store).invoices.Keys
      ensures forall i | i in store.invoices && i != id :: store.invoices[i] == old(store).invoices[i]
      ensures ok && InvoiceOk(old(store).invoices[id]) ==> InvoiceOk(store.invoices[id])
      ensures ok ==>
                var was, i := old(store).invoices[id], store.invoices[id];
                var asked := if edit.status.Some? then edit.status.value else was.status;
                && i.quoteId == was.quoteId && i.taxRate == was.taxRate && i.discount == was.discount
                && i.totals == was.totals && i.lines == was.lines
                && (edit.amountPaid.None? ==>
                      i.amountPaid == was.amountPaid && i.status == asked
                      && i.balanceDue ==
                           if edit.status == Some(IPaid) || edit.status == Some(IVoid) then 0 else was.balanceDue)
                && (edit.amountPaid.Some? ==>
                      var left := was.totals.total - i.amountPaid;
                      && i.amountPaid == (if edit.amountPaid.value > 0 then edit.amountPaid.value else 0)
                      && i.balanceDue == (if left > 0 then left else 0)
                      && i.status == (if left <= 0 then IPaid else if i.amountPaid > 0 then IPartial else asked))
    {
      if id !in store.invoices {
        return false;
      }
      var invoice := store.invoices[id];
      var updates := invoice;
      if edit.status.Some? {
        updates := updates.(status := edit.status.value);
        if edit.status.value == IPaid {
          updates := updates.(balanceDue := 0);
        }
        if edit.status.value == IVoid {
          updates := updates.(balanceDue := 0);
        }
      }
      if edit.amountPaid.Some? {
        var paid := Max(0, edit.amountPaid.value);
        updates := updates.(amountPaid := paid, balanceDue := Max(0, invoice.totals.total - paid));
        if updates.balanceDue == 0 {
          updates := updates.(status := IPaid);
        } else if paid > 0 {
          updates := updates.(status := IPartial);
        }
      }
      store := store.(invoices := store.invoices[id := updates]);
      ok := true;
    }
  }

  // ----- invariants over every run -----

  ghost predicate QuoteOk(q: Quote) {
    q.totals.total >= 0 && q.taxRate >= 0.0 && q.discount >= 0 && forall l | l in q.lines :: l.total >= 0
  }

  /** 0 <= balanceDue <= total, and the balance is either cleared or what is left to pay. */
  ghost predicate InvoiceOk(i: Invoice) {
    && 0 <= i.balanceDue <= i.totals.total && i.amountPaid >= 0
    && (i.balanceDue == 0 || i.balanceDue == Max(0, i.totals.total - i.amountPaid))
  }

  ghost predicate Linked(s: Store) {
    && (forall q | q in s.quotes && s.quotes[q].convertedInvoiceId.Some? ::
          s.quotes[q].convertedInvoiceId.value in s.invoices
              && s.invoices[s.quotes[q].convertedInvoiceId.value].quoteId == q)
    && (forall i | i in s.invoices ::
          s.invoices[i].quoteId in s.quotes && s.quotes[s.invoices[i].quoteId].convertedInvoiceId == Some(i))
  }

  ghost predicate Inv(s: Store) {
    && (forall q | q in s.quotes :: QuoteOk(s.quotes[q]))
    && (forall i | i in s.invoices :: InvoiceOk(s.invoices[i]))
    && Linked(s)
  }

  lemma TotalNonNegative(lines: seq<Line>, taxRate: real, discount: int)
    requires taxRate >= 0.0
    ensures CalculateTotals(lines, taxRate, discount as real).total >= 0
  {
    TotalIsBalance(lines, taxRate, discount as real);
  }

  lemma QuoteEditKeeps(q: Quote, edit: QuoteEdit)
    requires QuoteOk(q)
    ensures QuoteOk(EditQuote(q, edit)) && EditQuote(q, edit).convertedInvoiceId == q.convertedInvoiceId
  {
    hide CalculateTotals, KeptLines;
    if edit.lines.Some? {
      KeptNonNegative(edit.lines.value);
      TotalNonNegative(KeptLines(edit.lines.value),
                       if edit.taxRate.Some? then NonNegative(edit.taxRate.value) else q.taxRate,
                       if edit.discount.Some? then Max(0, edit.discount.value) else q.discount);
    }
  }

  lemma InvoiceEditKeeps(i: Invoice, edit: InvoiceEdit)
    requires InvoiceOk(i)
    ensures InvoiceOk(EditInvoice(i, edit)) && EditInvoice(i, edit).quoteId == i.quoteId
  {
  }

  lemma ConversionKeeps(s: Store, id: nat, invoiceId: nat)
    requires Inv(s) && id in s.quotes && invoiceId !in s.invoices && s.quotes[id].convertedInvoiceId.None?
    ensures Inv(LinkQuote(InsertInvoice(s, id, s.quotes[id], invoiceId), id, invoiceId))
  {
  }

  lemma StepKeeps(s: Store, r: Request)
    requires Inv(s) && FreshIds(s, r)
    ensures Inv(Next(s, r))
  {
    hide CalculateTotals, KeptLines, EditQuote, EditInvoice, LinkQuote, InsertInvoice, InvoiceOk;
    if !Fails(s, r) {
      match r
      case CreateQuote(_, _, taxRate, discount, payload) =>
        KeptNonNegative(payload);
        TotalNonNegative(KeptLines(payload), NonNegative(taxRate), Max(0, discount));
      case UpdateQuote(id, edit) => QuoteEditKeeps(s.quotes[id], edit);
      case ConvertQuote(id, invoiceId) =>
        if s.quotes[id].convertedInvoiceId.None? { ConversionKeeps(s, id, invoiceId); }
      case UpdateInvoice(id, edit) => InvoiceEditKeeps(s.invoices[id], edit);
    }
  }

  lemma {:induction false} RunKeeps(s: Store, rs: seq<Request>)
    requires Inv(s) && Runs(s, rs)
    ensures Inv(Run(s, rs))
    decreases |rs|
  {
    hide Inv, Next, FreshIds;
    if rs != [] {
      StepKeeps(s, rs[0]);
      RunKeeps(Next(s, rs[0]), rs[1..]);
    }
  }

  /** Over every run of requests: at most one invoice per quote, and every balance is in range. */
  lemma BillingRuns(rs: seq<Request>)
    requires Runs(Empty, rs)
    ensures var s := Run(Empty, rs);
            OneInvoiceEach(s)
            && (forall i | i in s.invoices ::
                  0 <= s.invoices[i].balanceDue <= s.invoices[i].totals.total
                  && (s.invoices[i].balanceDue == 0
                      || s.invoices[i].balanceDue == Max(0, s.invoices[i].totals.total - s.invoices[i].amountPaid)))
  {
    RunKeeps(Empty, rs);
  }

  /** Once set, a quote's convertedInvoiceId never changes; an invoice's amounts and lines never change. */
  lemma {:induction false} ConversionIsFinal(s: Store, rs: seq<Request>)
    requires Runs(s, rs)
    ensures forall q | q in s.quotes && s.quotes[q].convertedInvoiceId.Some? ::
              q in Run(s, rs).quotes && Run(s, rs).quotes[q].convertedInvoiceId == s.quotes[q].convertedInvoiceId
    ensures forall i | i in s.invoices ::
              i in Run(s, rs).invoices
              && Run(s, rs).invoices[i].quoteId == s.invoices[i].quoteId
              && Run(s, rs).invoices[i].totals == s.invoices[i].totals
              && Run(s, rs).invoices[i].lines == s.invoices[i].lines
    decreases |rs|
  {
    hide CalculateTotals, KeptLines, Acceptable;
    if rs != [] {
      var s' := Next(s, rs[0]);
      assert forall q | q in s.quotes && s.quotes[q].convertedInvoiceId.Some? ::
          q in s'.quotes && s'.quotes[q].convertedInvoiceId == s.quotes[q].convertedInvoiceId;
      ConversionIsFinal(s', rs[1..]);
    }
  }

  /** Conversion carries the quote's amounts and lines, with nothing paid and the whole total due. */
  lemma ConversionCarries(s: Store, rs: seq<Request>, id: nat, invoiceId: nat)
    requires id in s.quotes && s.quotes[id].convertedInvoiceId.None? && s.quotes[id].lines != []
    requires Runs(s, [ConvertQuote(id, invoiceId)] + rs)
    ensures var s' := Run(s, [ConvertQuote(id, invoiceId)] + rs);
            invoiceId in s'.invoices && s'.invoices[invoiceId].totals == s.quotes[id].totals
            && s'.invoices[invoiceId].lines == s.quotes[id].lines
            && id in s'.quotes && s'.quotes[id].convertedInvoiceId == Some(invoiceId)
  {
    var all := [ConvertQuote(id, invoiceId)] + rs;
    assert all[1..] == rs;
    ConversionIsFinal(Next(s, all[0]), rs);
  }

  /** One-shot: converting again, under whatever new identifier, changes nothing. */
  lemma ConvertOnce(s: Store, id: nat, i: nat, j: nat)
    requires id in s.quotes && s.quotes[id].lines != []
    ensures var s' := Next(s, ConvertQuote(id, i));
            Next(s', ConvertQuote(id, j)) == s'
            && (s.quotes[id].convertedInvoiceId.None? ==>
                  s' == Store(s.quotes[id := s.quotes[id].(status := QConverted, convertedInvoiceId := Some(i))],
                      s.invoices[i := s'.invoices[i]])
                  && s'.invoices[i].quoteId == id && s'.invoices[i].balanceDue == s.quotes[id].totals.total)
  {
  }

  // ----- amounts follow the lines -----

  predicate QuoteAdds(q: Quote) {
    q.totals == CalculateTotals(q.lines, q.taxRate, q.discount as real)
  }

  predicate InvoiceAdds(i: Invoice) {
    i.totals == CalculateTotals(i.lines, i.taxRate, i.discount as real)
  }

  ghost predicate AmountsMatch(s: Store) {
    (forall q | q in s.quotes :: QuoteAdds(s.quotes[q])) && forall i | i in s.invoices :: InvoiceAdds(s.invoices[i])
  }

  /** A new rate or discount comes with lines, the case in which the totals are recomputed. */
  predicate Repriced(r: Request) {
    r.UpdateQuote? && (r.edit.taxRate.Some? || r.edit.discount.Some?) ==> r.edit.lines.Some?
  }

  lemma AmountsStep(s: Store, r: Request)
    requires AmountsMatch(s) && Repriced(r)
    ensures AmountsMatch(Next(s, r))
  {
    hide CalculateTotals, KeptLines;
  }

  lemma {:induction false} AmountsRun(s: Store, rs: seq<Request>)
    requires AmountsMatch(s) && Runs(s, rs) && forall r | r in rs :: Repriced(r)
    ensures AmountsMatch(Run(s, rs))
    decreases |rs|
  {
    hide AmountsMatch, Repriced, Next, FreshIds;
    if rs != [] {
      assert rs[0] in rs;
      AmountsStep(s, rs[0]);
      AmountsRun(Next(s, rs[0]), rs[1..]);
    }
  }

  /**
   * Over every run in which a new rate or discount comes with lines, the totals of every
   * quote and invoice are those of its own lines, rate and discount.
   */
  lemma AmountsFollowLines(rs: seq<Request>)
    requires Runs(Empty, rs) && forall r | r in rs :: Repriced(r)
    ensures AmountsMatch(Run(Empty, rs))
  {
    AmountsRun(Empty, rs);
  }

  /**
   * Exactly when an edit without lines leaves totals that are right: the rounded tax is the
   * same at the new rate and discount, and the discount is the same or takes the total to
   * nothing before and after.
   */
  lemma EditWithoutLines(q: Quote, edit: QuoteEdit)
    requires QuoteAdds(q) && edit.lines.None?
    ensures QuoteAdds(EditQuote(q, edit)) <==> StillPriced(q, edit)
  {
    hide CalculateTotals;
    var after := EditQuote(q, edit);
    SameTotalsExactly(q.lines, q.taxRate, q.discount, after.taxRate, after.discount);
  }

  predicate StillPriced(q: Quote, edit: QuoteEdit) {
    var after := EditQuote(q, edit);
    var due := q.totals.subtotal + q.totals.taxTotal;
    CalculateTotals(q.lines, after.taxRate, after.discount as real).taxTotal == q.totals.taxTotal
    && (after.discount == q.discount || (q.discount >= due && after.discount >= due))
  }

  /** A discount changed alone leaves totals that are right exactly when it was and stays at least the subtotal. */
  lemma DiscountAloneIsNotPriced(q: Quote, discount: int)
    requires QuoteOk(q) && QuoteAdds(q)
    ensures QuoteAdds(EditQuote(q, QuoteEdit(None, None, Some(discount), None)))
            <==> Max(0, discount) == q.discount || (q.discount >= Sum(q.lines) && Max(0, discount) >= Sum(q.lines))
  {
    hide CalculateTotals, Sum;
    SameTotalsByDiscount(q.lines, q.taxRate, q.discount, Max(0, discount));
  }

  /** A rate changed alone leaves totals that are right exactly when the rounded tax is the same. */
  lemma RateAloneIsNotPriced(q: Quote, rate: Entered)
    requires QuoteAdds(q)
    ensures QuoteAdds(EditQuote(q, QuoteEdit(None, Some(rate), None, None)))
            <==> CalculateTotals(q.lines, NonNegative(rate), q.discount as real).taxTotal == q.totals.taxTotal
  {
    hide CalculateTotals;
    EditWithoutLines(q, QuoteEdit(None, Some(rate), None, None));
  }

  /** The request is no edit without lines that leaves wrong totals. */
  predicate KeepsPrice(s: Store, r: Request) {
    r.UpdateQuote? && !Fails(s, r) && r.edit.lines.None? ==> StillPriced(s.quotes[r.id], r.edit)
  }

  lemma PricedStep(s: Store, r: Request)
    requires AmountsMatch(s) && FreshIds(s, r)
    ensures AmountsMatch(Next(s, r)) <==> KeepsPrice(s, r)
  {
    hide CalculateTotals, KeptLines, StillPriced;
    if r.UpdateQuote? && !Fails(s, r) && r.edit.lines.None? {
      EditWithoutLines(s.quotes[r.id], r.edit);
      assert Next(s, r).quotes[r.id] == EditQuote(s.quotes[r.id], r.edit);
      hide EditQuote;
    } else if !Fails(s, r) {
      AmountsStep(s, r);
    }
  }

  ghost predicate AlwaysMatch(s: Store, rs: seq<Request>)
    decreases |rs|
  {
    AmountsMatch(s) && (rs != [] ==> AlwaysMatch(Next(s, rs[0]), rs[1..]))
  }

  predicate AlwaysKeepsPrice(s: Store, rs: seq<Request>)
    decreases |rs|
  {
    rs != [] ==> KeepsPrice(s, rs[0]) && AlwaysKeepsPrice(Next(s, rs[0]), rs[1..])
  }

  lemma {:induction false} MatchExactly(s: Store, rs: seq<Request>)
    requires AmountsMatch(s) && Runs(s, rs)
    ensures AlwaysMatch(s, rs) <==> AlwaysKeepsPrice(s, rs)
    decreases |rs|
  {
    hide AmountsMatch, KeepsPrice, Next, FreshIds;
    if rs != [] {
      PricedStep(s, rs[0]);
      if KeepsPrice(s, rs[0]) {
        MatchExactly(Next(s, rs[0]), rs[1..]);
      } else {
        assert !AlwaysMatch(Next(s, rs[0]), rs[1..]);
      }
    }
  }

  /**
   * Exactly which runs keep the totals of every quote and invoice those of its own lines,
   * rate and discount, in every state: those in which each edit without lines leaves the
   * rounded tax and the total as they are.
   */
  lemma RunsKeepAmounts(rs: seq<Request>)
    requires Runs(Empty, rs)
    ensures AlwaysMatch(Empty, rs) <==> AlwaysKeepsPrice(Empty, rs)
  {
    MatchExactly(Empty, rs);
  }

  // ----- settled invoices -----

  /**
   * A recorded payment reconciles: what counts towards the total and what is due add up
   * to it, and the status says paid exactly when nothing is due, partly paid exactly
   * when something is paid and something due, and else what was asked for.
   */
  lemma PaymentReconciles(i: Invoice, edit: InvoiceEdit)
    requires InvoiceOk(i) && edit.amountPaid.Some?
    ensures var i' := EditInvoice(i, edit);
            var counted := if i'.amountPaid < i.totals.total then i'.amountPaid else i.totals.total;
            counted + i'.balanceDue == i.totals.total
            && i'.totals == i.totals && i'.lines == i.lines
            && (edit.amountPaid.value >= i.totals.total ==> i'.status == IPaid && i'.balanceDue == 0)
            && (0 < edit.amountPaid.value < i.totals.total
                ==> i'.status == IPartial && i'.balanceDue == i.totals.total - edit.amountPaid.value)
            && (edit.amountPaid.value <= 0 < i.totals.total ==>
                  i'.balanceDue == i.totals.total
                      && i'.status == if edit.status.Some? then edit.status.value else i.status)
  {
  }

  ghost predicate Settled(i: Invoice) {
    i.status == IPaid || i.status == IVoid ==> i.balanceDue == 0
  }

  /**
   * An edit leaves a paid or void invoice without a balance exactly when it does not
   * record a zero payment on a positive total while the status is paid or void.
   */
  lemma SettledExactly(i: Invoice, edit: InvoiceEdit)
    requires InvoiceOk(i) && Settled(i)
    ensures var status := if edit.status.Some? then edit.status.value else i.status;
            Settled(EditInvoice(i, edit)) <==>
            !(edit.amountPaid.Some? && edit.amountPaid.value <= 0 && i.totals.total > 0
                && (status == IPaid || status == IVoid))
  {
  }

  predicate PositivePayments(rs: seq<Request>) {
    forall r | r in rs :: r.UpdateInvoice? && r.payment.amountPaid.Some? ==> r.payment.amountPaid.value > 0
  }

  lemma {:induction false} SettledRun(s: Store, rs: seq<Request>)
    requires Inv(s) && Runs(s, rs) && PositivePayments(rs) && forall i | i in s.invoices :: Settled(s.invoices[i])
    ensures forall i | i in Run(s, rs).invoices :: Settled(Run(s, rs).invoices[i])
    decreases |rs|
  {
    hide CalculateTotals, KeptLines, Acceptable;
    if rs != [] {
      StepKeeps(s, rs[0]);
      assert rs[0] in rs;
      assert forall r | r in rs[1..] :: r in rs;
      SettledStep(s, rs[0]);
      SettledRun(Next(s, rs[0]), rs[1..]);
    }
  }

  lemma SettledStep(s: Store, r: Request)
    requires Inv(s) && (r.UpdateInvoice? && r.payment.amountPaid.Some? ==> r.payment.amountPaid.value > 0)
    requires forall i | i in s.invoices :: Settled(s.invoices[i])
    ensures forall i | i in Next(s, r).invoices :: Settled(Next(s, r).invoices[i])
  {
    hide CalculateTotals, KeptLines, Acceptable, EditInvoice;
    if r.UpdateInvoice? && r.id in s.invoices {
      SettledExactly(s.invoices[r.id], r.payment);
    }
  }

  /** Where every recorded payment is positive, a paid or void invoice has nothing due. */
  lemma PaidMeansNothingDue(rs: seq<Request>)
    requires Runs(Empty, rs) && PositivePayments(rs)
    ensures forall i | i in Run(Empty, rs).invoices :: Settled(Run(Empty, rs).invoices[i])
  {
    SettledRun(Empty, rs);
  }

  // ----- after conversion -----

  ghost predicate SameAmounts(s: Store, q: nat, i: nat) {
    q in s.quotes && i in s.invoices && s.quotes[q].lines == s.invoices[i].lines
        && s.quotes[q].totals == s.invoices[i].totals
  }

  /** While no edit sets the status of the converted quote, its lines and totals stay those of its invoice. */
  lemma {:induction false} ConvertedQuoteStays(s: Store, rs: seq<Request>, q: nat, i: nat)
    requires Runs(s, rs) && SameAmounts(s, q, i)
    requires s.quotes[q].status == QConverted && s.quotes[q].convertedInvoiceId == Some(i)
    requires forall r | r in rs :: r.UpdateQuote? && r.id == q ==> r.edit.status.None?
    ensures SameAmounts(Run(s, rs), q, i)
    decreases |rs|
  {
    hide CalculateTotals, KeptLines, Acceptable;
    if rs != [] {
      assert rs[0] in rs;
      assert forall r | r in rs[1..] :: r in rs;
      ConvertedQuoteStays(Next(s, rs[0]), rs[1..], q, i);
    }
  }

  /** The request changes the lines or the totals of the quote. */
  predicate ChangesAmounts(s: Store, r: Request, q: nat) {
    r.UpdateQuote? && r.id == q && !Fails(s, r) && r.edit.lines.Some?
    && (KeptLines(r.edit.lines.value) != s.quotes[q].lines
        || EditQuote(s.quotes[q], r.edit).totals != s.quotes[q].totals)
  }

  lemma SameAmountsStep(s: Store, r: Request, q: nat, i: nat)
    requires SameAmounts(s, q, i) && FreshIds(s, r)
    ensures SameAmounts(Next(s, r), q, i) <==> !ChangesAmounts(s, r, q)
  {
    hide CalculateTotals, KeptLines, Acceptable;
  }

  ghost predicate AlwaysSame(s: Store, rs: seq<Request>, q: nat, i: nat)
    decreases |rs|
  {
    SameAmounts(s, q, i) && (rs != [] ==> AlwaysSame(Next(s, rs[0]), rs[1..], q, i))
  }

  predicate NeverChanges(s: Store, rs: seq<Request>, q: nat)
    decreases |rs|
  {
    rs != [] ==> !ChangesAmounts(s, rs[0], q) && NeverChanges(Next(s, rs[0]), rs[1..], q)
  }

  /**
   * Exactly which runs keep a converted quote equal to its invoice, in lines and totals and
   * in every state: those in which no accepted edit changes the quote's lines or totals.
   */
  lemma {:induction false} QuoteStaysExactly(s: Store, rs: seq<Request>, q: nat, i: nat)
    requires Runs(s, rs) && SameAmounts(s, q, i)
    ensures AlwaysSame(s, rs, q, i) <==> NeverChanges(s, rs, q)
    decreases |rs|
  {
    hide SameAmounts, ChangesAmounts, Next, FreshIds;
    if rs != [] {
      SameAmountsStep(s, rs[0], q, i);
      if !ChangesAmounts(s, rs[0], q) {
        QuoteStaysExactly(Next(s, rs[0]), rs[1..], q, i);
      } else {
        assert !AlwaysSame(Next(s, rs[0]), rs[1..], q, i);
      }
    }
  }

  /** An edit of the status reopens the lines: afterwards the quote can differ from its invoice. */
  lemma ReopenedQuoteDiverges(s: Store, q: nat, i: nat, payload: seq<LinePayload>)
    requires SameAmounts(s, q, i) && s.quotes[q].status == QConverted && s.quotes[q].convertedInvoiceId == Some(i)
    requires Acceptable(payload) && KeptLines(payload) != s.quotes[q].lines
    ensures var reopen := UpdateQuote(q, QuoteEdit(Some(QDraft), None, None, None));
            var change := UpdateQuote(q, QuoteEdit(None, None, None, Some(payload)));
            Fails(s, change)
            && Next(s, change) == s
            && !SameAmounts(Next(Next(s, reopen), change), q, i)
            && Next(Next(s, reopen), change).quotes[q].convertedInvoiceId == Some(i)
  {
    hide CalculateTotals, KeptLines, Acceptable;
  }

  // ----- overlapping conversions -----

  /** A conversion after its checks: the quote as it was read, and whether its invoice is stored yet. */
  datatype Conversion = Conversion(quoteId: nat, invoiceId: nat, seen: Quote, inserted: bool)

  datatype Desk = Desk(store: Store, flights: map<nat, Conversion>)

  /** The statements of conversions; any other request is one step. */
  datatype Step =
    | Whole(request: Request)
    | ReadQuote(flight: nat, quoteId: nat, invoiceId: nat)
    | StoreInvoice(flight: nat)
    | LinkInvoice(flight: nat)

  predicate Enabled(d: Desk, step: Step) {
    match step
    case Whole(r) => !r.ConvertQuote? && FreshIds(d.store, r)
    case ReadQuote(f, q, i) =>
      && f !in d.flights && q in d.store.quotes
      && d.store.quotes[q].convertedInvoiceId.None? && d.store.quotes[q].lines != []
      && i !in d.store.invoices && forall g | g in d.flights :: d.flights[g].invoiceId != i
    case StoreInvoice(f) => f in d.flights && !d.flights[f].inserted
    case LinkInvoice(f) => f in d.flights && d.flights[f].inserted && d.flights[f].quoteId in d.store.quotes
  }

  function After(d: Desk, step: Step): Desk
    requires Enabled(d, step)
  {
    match step
    case Whole(r) => d.(store := Next(d.store, r))
    case ReadQuote(f, q, i) => d.(flights := d.flights[f := Conversion(q, i, d.store.quotes[q], false)])
    case StoreInvoice(f) =>
      var c := d.flights[f];
      Desk(InsertInvoice(d.store, c.quoteId, c.seen, c.invoiceId), d.flights[f := c.(inserted := true)])
    case LinkInvoice(f) =>
      var c := d.flights[f];
      Desk(LinkQuote(d.store, c.quoteId, c.invoiceId), d.flights - {f})
  }

  predicate Interleaves(d: Desk, steps: seq<Step>)
    decreases |steps|
  {
    steps != [] ==> Enabled(d, steps[0]) && Interleaves(After(d, steps[0]), steps[1..])
  }

  function AfterAll(d: Desk, steps: seq<Step>): Desk
    requires Interleaves(d, steps)
    decreases |steps|
  {
    if steps == [] then d else AfterAll(After(d, steps[0]), steps[1..])
  }

  ghost predicate OneInvoiceEach(s: Store) {
    forall i, j | i in s.invoices && j in s.invoices && s.invoices[i].quoteId == s.invoices[j].quoteId :: i == j
  }

  /** The conversion whose invoice is stored and whose link is still to come. */
  predicate Unlinked(d: Desk, f: nat, i: nat) {
    f in d.flights && d.flights[f].inserted && d.flights[f].invoiceId == i
  }

  /** Conversions have identifiers of their own; an identifier is in use exactly after its insert. */
  ghost predicate FlightsTracked(d: Desk) {
    && (forall f | f in d.flights :: d.flights[f].quoteId in d.store.quotes)
    && (forall f, g | f in d.flights && g in d.flights && f != g :: d.flights[f].invoiceId != d.flights[g].invoiceId)
    && (forall f | f in d.flights :: d.flights[f].inserted <==> d.flights[f].invoiceId in d.store.invoices)
    && (forall f | f in d.flights && d.flights[f].inserted ::
          d.store.invoices[d.flights[f].invoiceId].quoteId == d.flights[f].quoteId)
  }

  /** Every stored invoice is linked or about to be. */
  ghost predicate InvoiceTracked(d: Desk, i: nat)
    requires i in d.store.invoices
  {
    var q := d.store.invoices[i].quoteId;
    q in d.store.quotes && (d.store.quotes[q].convertedInvoiceId.Some? || exists f :: Unlinked(d, f, i))
  }

  ghost predicate LinkTracked(d: Desk, q: nat)
    requires q in d.store.quotes
  {
    var link := d.store.quotes[q].convertedInvoiceId;
    link.Some? ==> link.value in d.store.invoices && d.store.invoices[link.value].quoteId == q
  }

  ghost predicate Tracked(d: Desk) {
    && FlightsTracked(d)
    && (forall i | i in d.store.invoices :: InvoiceTracked(d, i))
    && (forall q | q in d.store.quotes :: LinkTracked(d, q))
  }

  /** What any other request leaves alone. */
  lemma WholeKeeps(s: Store, r: Request)
    requires !r.ConvertQuote? && FreshIds(s, r)
    ensures var s' := Next(s, r);
            && s'.invoices.Keys == s.invoices.Keys
            && (forall i | i in s.invoices :: s'.invoices[i].quoteId == s.invoices[i].quoteId)
            && (forall q | q in s.quotes ::
                  q in s'.quotes && s'.quotes[q].convertedInvoiceId == s.quotes[q].convertedInvoiceId)
            && (forall q | q in s'.quotes && q !in s.quotes :: s'.quotes[q].convertedInvoiceId.None?)
  {
    hide CalculateTotals, KeptLines, Acceptable;
  }

  lemma FlightsStayTracked(d: Desk, step: Step)
    requires Tracked(d) && Enabled(d, step)
    ensures FlightsTracked(After(d, step))
  {
    hide Next, Fails, FreshIds, InvoiceTracked, LinkTracked;
    if step.Whole? { WholeKeeps(d.store, step.request); }
  }

  lemma InvoiceStaysTracked(d: Desk, step: Step, i: nat)
    requires Tracked(d) && Enabled(d, step) && i in After(d, step).store.invoices
    ensures InvoiceTracked(After(d, step), i)
  {
    hide Next, Fails, FreshIds, LinkTracked;
    if step.Whole? { WholeKeeps(d.store, step.request); }
    var d' := After(d, step);
    if step.StoreInvoice? && i == d.flights[step.flight].invoiceId {
      assert Unlinked(d', step.flight, i);
    } else {
      assert InvoiceTracked(d, i);
      var q := d.store.invoices[i].quoteId;
      if d.store.quotes[q].convertedInvoiceId.None? {
        var f :| Unlinked(d, f, i);
        if !(step.LinkInvoice? && step.flight == f) { assert Unlinked(d', f, i); }
      }
    }
  }

  lemma LinkStaysTracked(d: Desk, step: Step, q: nat)
    requires Tracked(d) && Enabled(d, step) && q in After(d, step).store.quotes
    ensures LinkTracked(After(d, step), q)
  {
    hide Next, Fails, FreshIds, InvoiceTracked;
    if step.Whole? { WholeKeeps(d.store, step.request); }
    if q in d.store.quotes { assert LinkTracked(d, q); }
  }

  lemma TrackedKept(d: Desk, step: Step)
    requires Tracked(d) && Enabled(d, step)
    ensures Tracked(After(d, step))
  {
    hide After, Enabled, InvoiceTracked, LinkTracked, FlightsTracked;
    FlightsStayTracked(d, step);
    forall i | i in After(d, step).store.invoices ensures InvoiceTracked(After(d, step), i) {
      InvoiceStaysTracked(d, step, i);
    }
    forall q | q in After(d, step).store.quotes ensures LinkTracked(After(d, step), q) { LinkStaysTracked(d, step, q); }
  }

  /** The insert meets a quote that is still unlinked, with no other conversion of it between insert and link. */
  ghost predicate MeetsUnconverted(d: Desk, step: Step) {
    step.StoreInvoice? && step.flight in d.flights ==>
      var q := d.flights[step.flight].quoteId;
      && q in d.store.quotes && d.store.quotes[q].convertedInvoiceId.None?
      && forall f | f in d.flights && d.flights[f].inserted :: d.flights[f].quoteId != q
  }

  /** On tracked desks that is the same as: no invoice of the quote is stored yet. */
  lemma UnconvertedMeansNone(d: Desk, step: Step)
    requires Tracked(d) && Enabled(d, step) && step.StoreInvoice?
    ensures MeetsUnconverted(d, step)
            <==> forall i | i in d.store.invoices :: d.store.invoices[i].quoteId != d.flights[step.flight].quoteId
  {
    var q := d.flights[step.flight].quoteId;
    assert LinkTracked(d, q);
    if MeetsUnconverted(d, step) {
      forall i | i in d.store.invoices
        ensures d.store.invoices[i].quoteId != q
      {
        assert InvoiceTracked(d, i);
      }
    }
  }

  lemma OneInvoiceStep(d: Desk, step: Step)
    requires Tracked(d) && OneInvoiceEach(d.store) && Enabled(d, step)
    ensures OneInvoiceEach(After(d, step).store) <==> MeetsUnconverted(d, step)
  {
    hide Next, Fails, FreshIds, InvoiceTracked, LinkTracked;
    if step.Whole? {
      WholeKeeps(d.store, step.request);
    } else if step.StoreInvoice? {
      UnconvertedMeansNone(d, step);
      hide MeetsUnconverted;
      var c := d.flights[step.flight];
      var s' := After(d, step).store;
      assert c.invoiceId !in d.store.invoices && s'.invoices[c.invoiceId].quoteId == c.quoteId;
      assert forall i | i in d.store.invoices :: s'.invoices[i] == d.store.invoices[i];
    }
  }

  ghost predicate AlwaysOneInvoice(d: Desk, steps: seq<Step>)
    requires Interleaves(d, steps)
    decreases |steps|
  {
    OneInvoiceEach(d.store) && (steps != [] ==> AlwaysOneInvoice(After(d, steps[0]), steps[1..]))
  }

  ghost predicate AlwaysUnconverted(d: Desk, steps: seq<Step>)
    requires Interleaves(d, steps)
    decreases |steps|
  {
    steps != [] ==> MeetsUnconverted(d, steps[0]) && AlwaysUnconverted(After(d, steps[0]), steps[1..])
  }

  lemma {:induction false} OneInvoiceExactly(d: Desk, steps: seq<Step>)
    requires Tracked(d) && OneInvoiceEach(d.store) && Interleaves(d, steps)
    ensures AlwaysOneInvoice(d, steps) <==> AlwaysUnconverted(d, steps)
    decreases |steps|
  {
    hide Tracked, OneInvoiceEach, MeetsUnconverted, After, Enabled;
    if steps != [] {
      OneInvoiceStep(d, steps[0]);
      TrackedKept(d, steps[0]);
      var d' := After(d, steps[0]);
      if MeetsUnconverted(d, steps[0]) {
        OneInvoiceExactly(d', steps[1..]);
      } else {
        assert !AlwaysOneInvoice(d', steps[1..]);
      }
    }
  }

  const EmptyDesk := Desk(Empty, map[])

  /**
   * Exactly which interleavings of conversions, with any other requests in between, never
   * store two invoices for one quote: those in which every insert meets a quote that is
   * still unlinked and has no other conversion between its insert and its link.
   */
  lemma InterleavingsConvertOnce(steps: seq<Step>)
    requires Interleaves(EmptyDesk, steps)
    ensures AlwaysOneInvoice(EmptyDesk, steps) <==> AlwaysUnconverted(EmptyDesk, steps)
  {
    OneInvoiceExactly(EmptyDesk, steps);
  }

  /** Two conversions of a quote in flight, neither stored yet: when both go on, both invoices are stored. */
  lemma BothStore(d: Desk, q: nat, f: nat, g: nat)
    requires f != g && f in d.flights && g in d.flights && !d.flights[f].inserted && !d.flights[g].inserted
    requires d.flights[f].quoteId == q && d.flights[g].quoteId == q && q in d.store.quotes
    requires d.flights[f].invoiceId != d.flights[g].invoiceId
    ensures var steps := [StoreInvoice(f), LinkInvoice(f), StoreInvoice(g), LinkInvoice(g)];
            Interleaves(d, steps)
            && var s := AfterAll(d, steps).store;
               var i, j := d.flights[f].invoiceId, d.flights[g].invoiceId;
               i in s.invoices && j in s.invoices && s.invoices[i].quoteId == q && s.invoices[j].quoteId == q
  {
    hide Interleaves, AfterAll, Next, FreshIds, InsertInvoice, LinkQuote;
    var steps := [StoreInvoice(f), LinkInvoice(f), StoreInvoice(g), LinkInvoice(g)];
    var d1 := After(d, steps[0]);
    StoreFacts(d, f);
    var d2 := After(d1, steps[1]);
    LinkFacts(d1, f);
    var d3 := After(d2, steps[2]);
    StoreFacts(d2, g);
    var d4 := After(d3, steps[3]);
    LinkFacts(d3, g);
    NoStepOn(d4, steps[4..]);
    OneStepOn(d3, steps, 3);
    OneStepOn(d2, steps, 2);
    OneStepOn(d1, steps, 1);
    OneStepOn(d, steps, 0);
    assert steps[0..] == steps;
  }

  /** Two conversions that both read the quote before either links it leave two invoices for one quote. */
  lemma RacingConversions(d: Desk, q: nat, i: nat, j: nat, f: nat, g: nat)
    requires Enabled(d, ReadQuote(f, q, i)) && Enabled(d, ReadQuote(g, q, j)) && i != j && f != g
    ensures var steps := [ReadQuote(f, q, i), ReadQuote(g, q, j)]
                         + [StoreInvoice(f), LinkInvoice(f), StoreInvoice(g), LinkInvoice(g)];
            Interleaves(d, steps)
            && var s := AfterAll(d, steps).store;
               i in s.invoices && j in s.invoices && s.invoices[i].quoteId == q && s.invoices[j].quoteId == q
               && !OneInvoiceEach(s) && !Linked(s)
  {
    hide Interleaves, AfterAll, Next, FreshIds, Linked, OneInvoiceEach;
    var tail := [StoreInvoice(f), LinkInvoice(f), StoreInvoice(g), LinkInvoice(g)];
    var steps := [ReadQuote(f, q, i), ReadQuote(g, q, j)] + tail;
    var d1 := After(d, steps[0]);
    var d2 := After(d1, steps[1]);
    BothStore(d2, q, f, g);
    assert steps[2..] == tail;
    OneStepOn(d1, steps, 1);
    OneStepOn(d, steps, 0);
    assert steps[0..] == steps;
    TwoInvoices(AfterAll(d, steps).store, q, i, j);
  }

  lemma StoreFacts(d: Desk, f: nat)
    requires Enabled(d, StoreInvoice(f))
    ensures var d', c := After(d, StoreInvoice(f)), d.flights[f];
            d'.store.quotes == d.store.quotes
            && d'.store.invoices == d.store.invoices[c.invoiceId := InvoiceFrom(c.quoteId, c.seen)]
  {
  }

  lemma LinkFacts(d: Desk, f: nat)
    requires Enabled(d, LinkInvoice(f))
    ensures After(d, LinkInvoice(f)).store.invoices == d.store.invoices
    ensures After(d, LinkInvoice(f)).store.quotes.Keys == d.store.quotes.Keys
  {
  }

  lemma TwoInvoices(s: Store, q: nat, i: nat, j: nat)
    requires i != j && i in s.invoices && j in s.invoices && s.invoices[i].quoteId == q && s.invoices[j].quoteId == q
    ensures !OneInvoiceEach(s) && !Linked(s)
  {
  }

  lemma NoStepOn(d: Desk, steps: seq<Step>)
    requires steps == []
    ensures Interleaves(d, steps) && AfterAll(d, steps) == d
  {
  }

  lemma OneStepOn(d: Desk, steps: seq<Step>, k: nat)
    requires k < |steps| && Enabled(d, steps[k]) && Interleaves(After(d, steps[k]), steps[k + 1..])
    ensures Interleaves(d, steps[k..]) && AfterAll(d, steps[k..]) == AfterAll(After(d, steps[k]), steps[k + 1..])
  {
    assert steps[k..][1..] == steps[k + 1..];
  }
}
