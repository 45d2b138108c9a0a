/**
 * Line items and totals of quotes and invoices. Entered quantities, prices, rates and
 * discounts are exact reals; rounded amounts are whole cents.
 */
module Money {
  import opened Prelude

  /** Number(text) of an entered field: absent or not a number, or a value. */
  datatype Entered = NotANumber | Value(v: real)

  /** One line as sent; the description is the trimmed text, empty when missing. */
  datatype LinePayload = LinePayload(description: string, quantity: Entered, unitPrice: Entered, taxable: bool)

  datatype Line = Line(position: nat, description: string, quantity: real, unitPrice: real, taxable: bool, total: int)

  datatype Totals = Totals(subtotal: int, taxTotal: int, total: int)

  /** Math.max(0, Number(x) || 0). */
  function NonNegative(e: Entered): (r: real)
    ensures r >= 0.0
  {
    match e
    case NotANumber => 0.0
    case Value(v) => if v >= 0.0 then v else 0.0
  }

  /** Math.round(amount * 100), halves upwards, for an amount given in cents. */
  function RoundCents(cents: real): int {
    (cents + 0.5).Floor
  }

  predicate Rejected(p: LinePayload) {
    p.description == "" || NonNegative(p.quantity) <= 0.0
  }

  function LineOf(p: LinePayload, position: nat): Line {
    var quantity, unitPrice := NonNegative(p.quantity), NonNegative(p.unitPrice);
    Line(position, p.description, quantity, unitPrice, p.taxable, RoundCents(quantity * unitPrice * 100.0))
  }

  /** At least one line, and none rejected. */
  predicate Acceptable(payload: seq<LinePayload>) {
    payload != [] && forall p | p in payload :: !Rejected(p)
  }

  /** The first hundred lines, numbered from 1. */
  function KeptLines(payload: seq<LinePayload>): seq<Line> {
    seq(if |payload| <= 100 then |payload| else 100, (i: nat) requires i < |payload| => LineOf(payload[i], i + 1))
  }

  /** The line says what was sent, at its place, and its total is the product to the nearest cent, halves upwards. */
  predicate Carries(line: Line, sent: LinePayload, position: nat) {
    && line.position == position && line.description == sent.description && line.taxable == sent.taxable
    && sent.quantity == Value(line.quantity)
    && line.unitPrice == (if sent.unitPrice.Value? && sent.unitPrice.v > 0.0 then sent.unitPrice.v else 0.0)
    && line.total as real - 0.5 <= line.quantity * line.unitPrice * 100.0 < line.total as real + 0.5
    && line.total >= 0
  }

  lemma LineCarries(p: LinePayload, position: nat)
    requires !Rejected(p)
    ensures Carries(LineOf(p, position), p, position)
  {
    var line := LineOf(p, position);
    ProductNonNegative(line.quantity, line.unitPrice);
    RoundNonNegative(line.quantity * line.unitPrice * 100.0);
    RoundHalfUp(line.quantity * line.unitPrice * 100.0);
  }

  /**
   * Every line is checked, also beyond the hundred that are kept: there must be a line, and
   * each needs a description and a positive quantity. A kept line carries what was sent,
   * with a missing or negative price as zero, its place, and its product in whole cents.
   */
  method NormalizeLines(payload: seq<LinePayload>) returns (r: Result<seq<Line>>)
    ensures r.Ok? <==>
              payload != []
              && forall i | 0 <= i < |payload| ::
                   payload[i].description != "" && payload[i].quantity.Value? && payload[i].quantity.v > 0.0
    ensures r.Ok? <==> Acceptable(payload)
    ensures r.Ok? ==> r.value == KeptLines(payload)
    ensures r.Ok? ==> |r.value| == (if |payload| < 100 then |payload| else 100)
    ensures r.Ok? ==>
              forall i | 0 <= i < |r.value| ::
                r.value[i].position == i + 1 && Carries(r.value[i], payload[i], i + 1)
  {
    if payload == [] {
      return Err("At least one line item is required");
    }
    var lines: seq<Line> := [];
    var i := 0;
    while i < |payload|
      invariant 0 <= i <= |payload| && |lines| == i
      invariant forall j | 0 <= j < i :: !Rejected(payload[j]) && lines[j] == LineOf(payload[j], j + 1)
    {
      assert payload[i] in payload;
      if payload[i].description == "" {
        return Err("Line item description is required");
      }
      if NonNegative(payload[i].quantity) <= 0.0 {
        return Err("Line item quantity must be greater than zero");
      }
      lines := lines + [LineOf(payload[i], i + 1)];
      i := i + 1;
    }
    hide LineOf, RoundCents;
    forall j | 0 <= j < |lines|
      ensures Carries(lines[j], payload[j], j + 1)
    {
      LineCarries(payload[j], j + 1);
    }
    r := Ok(if |lines| <= 100 then lines else lines[..100]);
  }

  lemma ProductNonNegative(a: real, b: real)
    requires a >= 0.0 && b >= 0.0
    ensures a * b >= 0.0
  {
  }

  lemma RoundNonNegative(x: real)
    requires x >= 0.0
    ensures RoundCents(x) >= 0
  {
    RoundMonotone(0.0, x);
    assert RoundCents(0.0) == 0;
  }

  function Sum(lines: seq<Line>): int {
    if lines == [] then 0 else lines[0].total + Sum(lines[1..])
  }

  function Taxable(lines: seq<Line>): seq<Line> {
    if lines == [] then [] else (if lines[0].taxable then [lines[0]] else []) + Taxable(lines[1..])
  }

  function Clamp(x: real): real {
    if x >= 0.0 then x else 0.0
  }

  function Percent(amount: real, rate: real): real {
    amount * (rate / 100.0)
  }

  /** calculateTotals, with the discount in cents and the tax rate in percent. */
  function CalculateTotals(lines: seq<Line>, taxRate: real, discount: real): Totals {
    var subtotal := RoundCents(Sum(lines) as real);
    var taxableSubtotal := RoundCents(Sum(Taxable(lines)) as real);
    var taxTotal := RoundCents(Percent(Clamp(taxableSubtotal as real - discount), taxRate));
    Totals(subtotal, taxTotal, RoundCents(Clamp(subtotal as real - discount + taxTotal as real)))
  }

  // ----- rounding -----

  lemma RoundWithinHalf(x: real)
    ensures -0.5 <= RoundCents(x) as real - x <= 0.5
  {
  }

  /** To the nearest cent, halves upwards, and nothing else. */
  lemma RoundHalfUp(x: real)
    ensures RoundCents(x) as real - 0.5 <= x < RoundCents(x) as real + 0.5
  {
  }

  lemma RoundWhole(n: int)
    ensures RoundCents(n as real) == n
  {
  }

  lemma RoundMonotone(x: real, y: real)
    requires x <= y
    ensures RoundCents(x) <= RoundCents(y)
  {
  }

  // ----- subtotal -----

  /** Each total is the rounded product of its quantity and price. */
  predicate Priced(lines: seq<Line>) {
    forall l | l in lines :: l.total == RoundCents(l.quantity * l.unitPrice * 100.0)
  }

  function ExactSum(lines: seq<Line>): real {
    if lines == [] then 0.0 else lines[0].quantity * lines[0].unitPrice * 100.0 + ExactSum(lines[1..])
  }

  lemma {:induction false} SumWithinHalf(lines: seq<Line>)
    requires Priced(lines)
    ensures -0.5 * |lines| as real <= Sum(lines) as real - ExactSum(lines) <= 0.5 * |lines| as real
  {
    if lines != [] {
      assert lines[0] in lines;
      RoundWithinHalf(lines[0].quantity * lines[0].unitPrice * 100.0);
      SumWithinHalf(lines[1..]);
    }
  }

  lemma PricedLines(payload: seq<LinePayload>)
    ensures Priced(KeptLines(payload)) && |KeptLines(payload)| <= 100
  {
  }

  /** The totals of the taxable lines. */
  function TaxableSum(lines: seq<Line>): int {
    if lines == [] then 0 else (if lines[0].taxable then lines[0].total else 0) + TaxableSum(lines[1..])
  }

  lemma {:induction false} TaxableSumIs(lines: seq<Line>)
    ensures Sum(Taxable(lines)) == TaxableSum(lines)
  {
    if lines != [] {
      TaxableSumIs(lines[1..]);
      TaxableStep(lines);
    }
  }

  lemma TaxRounded(amount: real, rate: real)
    ensures var tax := RoundCents(Percent(amount, rate)) as real;
            100.0 * tax - 50.0 <= amount * rate < 100.0 * tax + 50.0
  {
    RoundHalfUp(Percent(amount, rate));
    assert amount * rate == 100.0 * Percent(amount, rate) by { HundredthPart(amount, rate); }
  }

  lemma HundredthPart(amount: real, rate: real)
    ensures 100.0 * Percent(amount, rate) == amount * rate
  {
    var part := rate / 100.0;
    assert part * 100.0 == rate;
    assert 100.0 * (amount * part) == amount * (part * 100.0);
  }

  /**
   * The subtotal is within half a cent per line of the exact sum of quantity times price,
   * so within 50 cents for the hundred lines that are kept. The tax is the rate in percent
   * of what the taxable lines leave after the discount, rounded to the nearest cent with
   * halves upwards.
   */
  lemma TotalsAreClose(lines: seq<Line>, taxRate: real, discount: real)
    requires Priced(lines)
    ensures var t := CalculateTotals(lines, taxRate, discount);
            && -0.5 * |lines| as real <= t.subtotal as real - ExactSum(lines) <= 0.5 * |lines| as real
            && (|lines| <= 100 ==> -50.0 <= t.subtotal as real - ExactSum(lines) <= 50.0)
    ensures var tax := CalculateTotals(lines, taxRate, discount).taxTotal as real;
            var left := TaxableSum(lines) as real - discount;
            var amount := if left > 0.0 then left else 0.0;
            100.0 * tax - 50.0 <= amount * taxRate < 100.0 * tax + 50.0
  {
    TaxIsRate(lines, taxRate, discount);
    hide Percent, RoundCents, Sum, ExactSum, Taxable, Clamp, TaxableSum;
    SumWithinHalf(lines);
    RoundWhole(Sum(lines));
  }

  lemma TaxIsRate(lines: seq<Line>, taxRate: real, discount: real)
    ensures var tax := CalculateTotals(lines, taxRate, discount).taxTotal as real;
            var left := TaxableSum(lines) as real - discount;
            var amount := if left > 0.0 then left else 0.0;
            100.0 * tax - 50.0 <= amount * taxRate < 100.0 * tax + 50.0
  {
    hide Percent, RoundCents, Sum, Taxable, TaxableSum;
    RoundWhole(Sum(Taxable(lines)));
    TaxableSumIs(lines);
    TaxRounded(Clamp(TaxableSum(lines) as real - discount), taxRate);
  }

  // ----- total -----

  lemma TaxNonNegative(amount: real, rate: real)
    requires amount >= 0.0 && rate >= 0.0
    ensures RoundCents(Percent(amount, rate)) >= 0
  {
    ProductNonNegative(amount, rate / 100.0);
    RoundNonNegative(amount * (rate / 100.0));
  }

  /**
   * For every discount, fractions of a cent included: tax and total are never negative;
   * the total is within half a cent of subtotal - discount + tax while that is not
   * negative and 0 otherwise; it is exactly that if and only if the discount is in whole
   * cents and at most subtotal + tax, in particular for whole cents up to the subtotal.
   */
  lemma TotalIsBalance(lines: seq<Line>, taxRate: real, discount: real)
    requires taxRate >= 0.0
    ensures var t := CalculateTotals(lines, taxRate, discount);
            var exact := t.subtotal as real - discount + t.taxTotal as real;
            t.taxTotal >= 0 && t.total >= 0
            && (exact >= 0.0 ==> -0.5 <= t.total as real - exact <= 0.5)
            && (exact < 0.0 ==> t.total == 0)
            && (t.total as real == exact <==> WholeCents(discount) && exact >= 0.0)
            && (WholeCents(discount) && discount <= t.subtotal as real ==> t.total as real == exact)
  {
    hide Percent, Sum, Taxable, RoundCents;
    var t := CalculateTotals(lines, taxRate, discount);
    TaxNonNegative(Clamp(RoundCents(Sum(Taxable(lines)) as real) as real - discount), taxRate);
    var n := t.subtotal + t.taxTotal;
    assert t.subtotal as real - discount + t.taxTotal as real == n as real - discount;
    RoundedBalance(n, discount);
  }

  predicate WholeCents(x: real) {
    x == x.Floor as real
  }

  lemma IsWhole(x: real, k: int)
    requires x == k as real
    ensures WholeCents(x)
  {
  }

  lemma DifferenceWhole(n: int, x: real)
    requires WholeCents(x)
    ensures WholeCents(n as real - x)
  {
    var k := x.Floor;
    assert x == k as real;
    IsWhole(n as real - x, n - k);
  }

  lemma WholeDifference(n: int, d: real)
    ensures WholeCents(d) <==> WholeCents(n as real - d)
  {
    hide WholeCents;
    assert n as real - (n as real - d) == d;
    if WholeCents(d) { DifferenceWhole(n, d); }
    if WholeCents(n as real - d) { DifferenceWhole(n, n as real - d); }
  }

  lemma RoundedBalance(n: int, d: real)
    ensures var exact := n as real - d;
            var r := RoundCents(Clamp(exact));
            r >= 0
            && (exact >= 0.0 ==> -0.5 <= r as real - exact <= 0.5)
            && (exact < 0.0 ==> r == 0)
            && (r as real == exact <==> WholeCents(d) && exact >= 0.0)
  {
    var exact := n as real - d;
    WholeDifference(n, d);
    RoundNonNegative(Clamp(exact));
    RoundWithinHalf(Clamp(exact));
    RoundWhole(0);
    RoundExactly(exact);
  }

  lemma RoundExactly(x: real)
    ensures RoundCents(x) as real == x <==> WholeCents(x)
  {
    if WholeCents(x) {
      RoundWhole(x.Floor);
    }
  }

  lemma ScaleMonotone(a: real, b: real, r: real)
    requires a <= b && r >= 0.0
    ensures Percent(a, r) <= Percent(b, r)
  {
  }

  /** A larger discount never gives a larger tax or a larger total. */
  lemma AntitoneInDiscount(lines: seq<Line>, taxRate: real, d: real, d': real)
    requires taxRate >= 0.0 && d <= d'
    ensures CalculateTotals(lines, taxRate, d').subtotal == CalculateTotals(lines, taxRate, d).subtotal
    ensures CalculateTotals(lines, taxRate, d').taxTotal <= CalculateTotals(lines, taxRate, d).taxTotal
    ensures CalculateTotals(lines, taxRate, d').total <= CalculateTotals(lines, taxRate, d).total
  {
    hide RoundCents, Percent;
    var s := RoundCents(Sum(lines) as real) as real;
    var x := RoundCents(Sum(Taxable(lines)) as real) as real;
    ScaleMonotone(Clamp(x - d'), Clamp(x - d), taxRate);
    RoundMonotone(Percent(Clamp(x - d'), taxRate), Percent(Clamp(x - d), taxRate));
    var t := RoundCents(Percent(Clamp(x - d), taxRate)) as real;
    var t' := RoundCents(Percent(Clamp(x - d'), taxRate)) as real;
    RoundMonotone(Clamp(s - d' + t'), Clamp(s - d + t));
  }

  // ----- which discounts and rates give the same totals -----

  lemma ClampedSame(n: int, d: int, d': int)
    ensures RoundCents(Clamp(n as real - d as real)) == RoundCents(Clamp(n as real - d' as real))
            <==> d == d' || (d >= n && d' >= n)
  {
    RoundWhole(n - d);
    RoundWhole(n - d');
    RoundWhole(0);
    assert (n - d) as real == n as real - d as real && (n - d') as real == n as real - d' as real;
  }

  /** Exactly when two rates and two whole-cent discounts give the same totals of the same lines. */
  lemma SameTotalsExactly(lines: seq<Line>, rate: real, d: int, rate': real, d': int)
    ensures var t, t' := CalculateTotals(lines, rate, d as real), CalculateTotals(lines, rate', d' as real);
            var n := t.subtotal + t.taxTotal;
            t == t' <==> t.taxTotal == t'.taxTotal && (d == d' || (d >= n && d' >= n))
  {
    hide RoundCents, Percent, Sum, Taxable, Clamp;
    var t, t' := CalculateTotals(lines, rate, d as real), CalculateTotals(lines, rate', d' as real);
    if t.taxTotal == t'.taxTotal {
      var n := t.subtotal + t.taxTotal;
      assert t.subtotal as real - d as real + t.taxTotal as real == n as real - d as real;
      assert t.subtotal as real - d' as real + t.taxTotal as real == n as real - d' as real;
      ClampedSame(n, d, d');
    }
  }

  lemma {:induction false} TaxableAtMost(lines: seq<Line>)
    requires forall l | l in lines :: l.total >= 0
    ensures 0 <= Sum(Taxable(lines)) <= Sum(lines)
  {
    if lines != [] {
      TaxableAtMost(lines[1..]);
      TaxableStep(lines);
      assert lines[0] in lines;
    }
  }

  lemma NoTaxBelow(x: int, d: int, rate: real)
    requires d >= x
    ensures RoundCents(Percent(Clamp(x as real - d as real), rate)) == 0
  {
    assert Percent(0.0, rate) == 0.0;
    RoundWhole(0);
  }

  /** A changed discount at the same rate leaves the totals exactly when it was and stays at least the subtotal. */
  lemma SameTotalsByDiscount(lines: seq<Line>, rate: real, d: int, d': int)
    requires (forall l | l in lines :: l.total >= 0) && rate >= 0.0
    ensures CalculateTotals(lines, rate, d as real) == CalculateTotals(lines, rate, d' as real)
            <==> d == d' || (d >= Sum(lines) && d' >= Sum(lines))
  {
    hide RoundCents, Percent, Sum, Taxable;
    TaxableAtMost(lines);
    SameTotalsExactly(lines, rate, d, rate, d');
    RoundWhole(Sum(lines));
    RoundWhole(Sum(Taxable(lines)));
    var x := Sum(Taxable(lines));
    TaxNonNegative(Clamp(x as real - d as real), rate);
    TaxNonNegative(Clamp(x as real - d' as real), rate);
    if d >= Sum(lines) { NoTaxBelow(x, d, rate); }
    if d' >= Sum(lines) { NoTaxBelow(x, d', rate); }
  }

  /** What is kept of accepted lines has no negative total. */
  lemma KeptNonNegative(payload: seq<LinePayload>)
    ensures forall l | l in KeptLines(payload) :: l.total >= 0
  {
    forall l | l in KeptLines(payload)
      ensures l.total >= 0
    {
      ProductNonNegative(l.quantity, l.unitPrice);
      RoundNonNegative(l.quantity * l.unitPrice * 100.0);
    }
  }

  // ----- order of the lines -----

  lemma TaxableStep(lines: seq<Line>)
    requires lines != []
    ensures Sum(Taxable(lines)) == (if lines[0].taxable then lines[0].total else 0) + Sum(Taxable(lines[1..]))
  {
    var rest := Taxable(lines[1..]);
    assert lines[0].taxable ==> ([lines[0]] + rest)[1..] == rest;
    assert [] + rest == rest;
  }

  lemma {:induction false} SumRemove(lines: seq<Line>, k: nat)
    requires k < |lines|
    ensures Sum(lines) == lines[k].total + Sum(lines[..k] + lines[k + 1..])
    ensures Sum(Taxable(lines))
            == (if lines[k].taxable then lines[k].total else 0) + Sum(Taxable(lines[..k] + lines[k + 1..]))
  {
    hide Taxable;
    TaxableStep(lines);
    if k == 0 {
      assert lines[..0] + lines[1..] == lines[1..];
    } else {
      SumRemove(lines[1..], k - 1);
      var rest := lines[..k] + lines[k + 1..];
      assert rest[1..] == lines[1..][..k - 1] + lines[1..][k..];
      assert rest[0] == lines[0];
      TaxableStep(rest);
    }
  }

  lemma RemoveCommon(a: seq<Line>, b: seq<Line>) returns (k: nat)
    requires multiset(a) == multiset(b) && a != []
    ensures k < |b| && b[k] == a[0]
    ensures multiset(a[1..]) == multiset(b[..k] + b[k + 1..])
  {
    assert a[0] in multiset(b);
    k :| 0 <= k < |b| && b[k] == a[0];
    assert a == [a[0]] + a[1..];
    assert b == b[..k] + [b[k]] + b[k + 1..];
    assert multiset(a[1..]) == multiset(a) - multiset{a[0]};
    assert multiset(b[..k] + b[k + 1..]) == multiset(b) - multiset{b[k]};
  }

  lemma {:induction false} SameLinesSameSums(a: seq<Line>, b: seq<Line>)
    requires multiset(a) == multiset(b)
    ensures Sum(a) == Sum(b) && Sum(Taxable(a)) == Sum(Taxable(b))
  {
    hide Sum, Taxable;
    if a == [] {
      assert |multiset(b)| == 0;
    } else {
      var k := RemoveCommon(a, b);
      SameLinesSameSums(a[1..], b[..k] + b[k + 1..]);
      SumRemove(b, k);
      SumRemove(a, 0);
      assert a[..0] + a[1..] == a[1..];
    }
  }

  /** The totals do not depend on the order of the lines. */
  lemma TotalsIgnoreOrder(a: seq<Line>, b: seq<Line>, taxRate: real, discount: real)
    requires multiset(a) == multiset(b)
    ensures CalculateTotals(a, taxRate, discount) == CalculateTotals(b, taxRate, discount)
  {
    hide Sum, Taxable, RoundCents, Percent;
    SameLinesSameSums(a, b);
  }
}
