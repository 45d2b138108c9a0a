/**
 * Inventory: stock and reserved counters against an append-only log of movements.
 * Quantities are hundredths, as in the DECIMAL(12,2) columns.
 */
module Inventory {
  import opened Prelude

  datatype MovementType = Receive | Adjust | TransferIn | TransferOut | Reserve | Consume | Return

  datatype Part = Part(onHand: int, reserved: int)

  datatype LogRow = LogRow(partId: nat, movement: MovementType, quantity: int)

  datatype Stock = Stock(parts: map<nat, Part>, log: seq<LogRow>)

  /** signedQuantity. */
  function Signed(m: MovementType, quantity: int): int {
    match m
    case Consume => -quantity
    case TransferOut => -quantity
    case Return => 0
    case Reserve => 0
    case _ => quantity
  }

  function ReservedDelta(m: MovementType, quantity: int): int {
    match m
    case Reserve => quantity
    case Consume => -quantity
    case Return => -quantity
    case _ => 0
  }

  /** The checks on the part as it was read. */
  predicate Allowed(seen: Part, m: MovementType, quantity: int) {
    && quantity > 0
    && (m in {Consume, TransferOut, Reserve} ==> quantity <= seen.onHand - seen.reserved)
    && (m == Return ==> quantity <= seen.reserved)
  }

  /** The relative UPDATE. */
  function Moved(p: Part, m: MovementType, quantity: int): Part {
    Part(p.onHand + Signed(m, quantity), Max(0, p.reserved + ReservedDelta(m, quantity)))
  }

  // ----- the log as the account of a part -----

  function SignedSum(log: seq<LogRow>, partId: nat): int {
    if log == [] then 0
    else
      var r := log[|log| - 1];
      SignedSum(log[..|log| - 1], partId) + if r.partId == partId then Signed(r.movement, r.quantity) else 0
  }

  /** Reservations replayed from the log, never below zero. */
  function ReservedFold(log: seq<LogRow>, partId: nat): int {
    if log == [] then 0
    else
      var r := log[|log| - 1];
      var before := ReservedFold(log[..|log| - 1], partId);
      if r.partId == partId then Max(0, before + ReservedDelta(r.movement, r.quantity)) else before
  }

  lemma LogOneMore(log: seq<LogRow>, r: LogRow, partId: nat)
    ensures SignedSum(log + [r], partId)
            == SignedSum(log, partId) + if r.partId == partId then Signed(r.movement, r.quantity) else 0
    ensures ReservedFold(log + [r], partId)
            == if r.partId == partId then Max(0, ReservedFold(log, partId) + ReservedDelta(r.movement, r.quantity))
                else ReservedFold(log, partId)
  {
    assert (log + [r])[..|log|] == log;
  }

  /** The part's counters are what its log says, and 0 <= reserved <= onHand. */
  ghost predicate Accounted(s: Stock, id: nat)
    requires id in s.parts
  {
    && 0 <= s.parts[id].reserved <= s.parts[id].onHand
    && s.parts[id].onHand == SignedSum(s.log, id)
    && s.parts[id].reserved == ReservedFold(s.log, id)
  }

  /** Parts that do not exist have no movements. */
  ghost predicate Inv(s: Stock) {
    && (forall id | id in s.parts :: Accounted(s, id))
    && (forall i | 0 <= i < |s.log| :: s.log[i].partId in s.parts)
  }

  lemma {:induction false} NoMovements(log: seq<LogRow>, id: nat)
    requires forall i | 0 <= i < |log| :: log[i].partId != id
    ensures SignedSum(log, id) == 0 && ReservedFold(log, id) == 0
  {
    if log != [] {
      NoMovements(log[..|log| - 1], id);
    }
  }

  lemma MovementKeeps(s: Stock, id: nat, m: MovementType, quantity: int)
    requires Inv(s) && id in s.parts && Allowed(s.parts[id], m, quantity)
    ensures Inv(Stock(s.parts[id := Moved(s.parts[id], m, quantity)], s.log + [LogRow(id, m, quantity)]))
  {
    hide SignedSum, ReservedFold;
    var r := LogRow(id, m, quantity);
    var s' := Stock(s.parts[id := Moved(s.parts[id], m, quantity)], s.log + [r]);
    forall k | k in s'.parts
      ensures Accounted(s', k)
    {
      LogOneMore(s.log, r, k);
      assert Accounted(s, k);
    }
  }

  /** A return undoes a reservation, and a transfer out undoes whatever brought the stock in. */
  lemma MovementsUndo(p: Part, q: int)
    requires 0 <= p.reserved <= p.onHand && q > 0
    ensures Allowed(p, Reserve, q) ==>
              var p' := Moved(p, Reserve, q);
              p'.onHand - p'.reserved == p.onHand - p.reserved - q && Allowed(p', Return, q)
                  && Moved(p', Return, q) == p
    ensures forall m | m in {Receive, Adjust, TransferIn} ::
              var p' := Moved(p, m, q);
              Allowed(p, m, q) && p'.onHand - p'.reserved == p.onHand - p.reserved + q
              && Allowed(p', TransferOut, q) && Moved(p', TransferOut, q) == p
  {
  }

  /**
   * Using what was just reserved takes it from both counters, but the check asks for free
   * stock: it passes exactly when as much again was available.
   */
  lemma UseAfterReserve(p: Part, q: int)
    requires 0 <= p.reserved <= p.onHand && Allowed(p, Reserve, q)
    ensures Allowed(Moved(p, Reserve, q), Consume, q) <==> 2 * q <= p.onHand - p.reserved
    ensures Moved(Moved(p, Reserve, q), Consume, q) == Part(p.onHand - q, p.reserved)
  {
  }

  /** The service, one request at a time. */
  class InventoryService {
    var stock: Stock

    ghost predicate Valid()
      reads this
    {
      Inv(stock)
    }

    constructor ()
      ensures Valid() && stock == Stock(map[], [])
    {
      stock := Stock(map[], []);
    }

    /** A new part; initial stock is logged as received. */
    method CreatePart(id: nat, entered: int)
      requires Valid() && id !in stock.parts
      modifies this
      ensures Valid()
      ensures stock.parts == old(stock).parts[id := Part(Max(0, entered), 0)]
      ensures stock.log == old(stock).log + if entered > 0 then [LogRow(id, Receive, entered)] else []
    {
      hide SignedSum, ReservedFold;
      var quantityOnHand := Max(0, entered);
      ghost var before := stock;
      NewPartKeeps(stock, id, entered);
      stock := stock.(parts := stock.parts[id := Part(quantityOnHand, 0)]);
      if quantityOnHand > 0 {
        stock := stock.(log := stock.log + [LogRow(id, Receive, quantityOnHand)]);
      }
      assert before.log + [] == before.log;
      assert stock == Handle(before, NewPart(id, entered));
    }

    /** Refused movements change nothing; the others move the counters and are logged. */
    method CreateMovement(id: nat, m: MovementType, entered: int) returns (ok: bool)
      requires Valid()
      modifies this
      ensures Valid()
      ensures ok <==>
                && id in old(stock).parts && entered > 0
                && var part := old(stock).parts[id];
                && (m in {Consume, TransferOut, Reserve} ==> entered <= part.onHand - part.reserved)
                && (m == Return ==> entered <= part.reserved)
      ensures !ok ==> stock == old(stock)
      ensures ok ==>
                var part := old(stock).parts[id];
                stock.parts == old(stock).parts[id :=
                  match m
                  case Receive => Part(part.onHand + entered, part.reserved)
                  case Adjust => Part(part.onHand + entered, part.reserved)
                  case TransferIn => Part(part.onHand + entered, part.reserved)
                  case TransferOut => Part(part.onHand - entered, part.reserved)
                  case Reserve => Part(part.onHand, part.reserved + entered)
                  case Consume =>
                    Part(part.onHand - entered, if entered < part.reserved then part.reserved - entered else 0)
                  case Return => Part(part.onHand, part.reserved - entered)]
      ensures ok ==> stock.log == old(stock).log + [LogRow(id, m, entered)]
    {
      if id !in stock.parts {
        return false;
      }
      var part := stock.parts[id];
      var quantity := Max(0, entered);
      if quantity <= 0 {
        return false;
      }
      var available := part.onHand - part.reserved;
      if (m == Consume || m == TransferOut) && quantity > available {
        return false;
      }
      if m == Reserve && quantity > available {
        return false;
      }
      if m == Return && quantity > part.reserved {
        return false;
      }
      MovementKeeps(stock, id, m, quantity);
      stock := stock.(parts := stock.parts[id := Moved(part, m, quantity)]);
      stock := stock.(log := stock.log + [LogRow(id, m, quantity)]);
      ok := true;
    }
  }

  // ----- runs of atomic requests -----

  datatype Request = NewPart(id: nat, entered: int) | Movement(id: nat, m: MovementType, entered: int)

  function Handle(s: Stock, r: Request): Stock {
    match r
    case NewPart(id, entered) =>
      if id in s.parts then s
      else
        var received := if entered > 0 then [LogRow(id, Receive, entered)] else [];
        Stock(s.parts[id := Part(Max(0, entered), 0)], s.log + received)
    case Movement(id, m, entered) =>
      if id in s.parts && Allowed(s.parts[id], m, Max(0, entered))
      then Stock(s.parts[id := Moved(s.parts[id], m, entered)], s.log + [LogRow(id, m, entered)])
      else s
  }

  function HandleAll(s: Stock, rs: seq<Request>): Stock {
    if rs == [] then s else Handle(HandleAll(s, rs[..|rs| - 1]), rs[|rs| - 1])
  }

  lemma NewPartKeeps(s: Stock, id: nat, entered: int)
    requires Inv(s) && id !in s.parts
    ensures Inv(Handle(s, NewPart(id, entered)))
  {
    hide SignedSum, ReservedFold;
    NoMovements(s.log, id);
    var s' := Handle(s, NewPart(id, entered));
    forall k | k in s'.parts
      ensures Accounted(s', k)
    {
      if k != id { assert Accounted(s, k); }
      if entered > 0 { LogOneMore(s.log, LogRow(id, Receive, entered), k); } else { assert s.log + [] == s.log; }
    }
  }

  /**
   * Inventory as an event log: after every run of part creations and movements, every
   * part has 0 <= reserved <= onHand, onHand is the signed sum of its log and reserved
   * its truncated replay, initial stock included.
   */
  lemma {:induction false} LogExplainsStock(rs: seq<Request>)
    ensures Inv(HandleAll(Stock(map[], []), rs))
  {
    hide Inv, SignedSum, ReservedFold;
    if rs == [] {
      assert Inv(Stock(map[], [])) by { EmptyStock(); }
    } else {
      LogExplainsStock(rs[..|rs| - 1]);
      var s := HandleAll(Stock(map[], []), rs[..|rs| - 1]);
      match rs[|rs| - 1]
      case NewPart(id, entered) => if id !in s.parts { NewPartKeeps(s, id, entered); }
      case Movement(id, m, entered) =>
        if id in s.parts && Allowed(s.parts[id], m, Max(0, entered)) { MovementKeeps(s, id, m, entered); }
    }
  }

  lemma EmptyStock()
    ensures Inv(Stock(map[], []))
  {
  }

  // ----- interleaved statements -----

  /** A request after its checks: about to update, or updated and about to write its log row. */
  datatype Phase = ToUpdate | ToLog

  datatype Flight = Flight(partId: nat, movement: MovementType, quantity: int, phase: Phase)

  datatype Shared = Shared(stock: Stock, flights: map<nat, Flight>)

  datatype Step =
    | InsertPart(request: nat, id: nat, entered: int)
    | ReadAndCheck(request: nat, id: nat, m: MovementType, quantity: int)
    | Update(request: nat)
    | WriteLog(request: nat)

  predicate Enabled(s: Shared, step: Step) {
    match step
    case InsertPart(request, id, _) => request !in s.flights && id !in s.stock.parts
    case ReadAndCheck(request, id, m, quantity) =>
      request !in s.flights && id in s.stock.parts && Allowed(s.stock.parts[id], m, quantity)
    case Update(request) =>
      request in s.flights && s.flights[request].phase == ToUpdate && s.flights[request].partId in s.stock.parts
    case WriteLog(request) => request in s.flights && s.flights[request].phase == ToLog
  }

  function Next(s: Shared, step: Step): Shared
    requires Enabled(s, step)
  {
    match step
    case InsertPart(request, id, entered) =>
      var stock := s.stock.(parts := s.stock.parts[id := Part(Max(0, entered), 0)]);
      if entered > 0 then Shared(stock, s.flights[request := Flight(id, Receive, entered, ToLog)])
      else s.(stock := stock)
    case ReadAndCheck(request, id, m, quantity) =>
      s.(flights := s.flights[request := Flight(id, m, quantity, ToUpdate)])
    case Update(request) =>
      var f := s.flights[request];
      Shared(s.stock.(parts := s.stock.parts[f.partId := Moved(s.stock.parts[f.partId], f.movement, f.quantity)]),
             s.flights[request := f.(phase := ToLog)])
    case WriteLog(request) =>
      var f := s.flights[request];
      Shared(s.stock.(log := s.stock.log + [LogRow(f.partId, f.movement, f.quantity)]), s.flights - {request})
  }

  predicate Runs(s: Shared, steps: seq<Step>)
    decreases |steps|
  {
    steps != [] ==> Enabled(s, steps[0]) && Runs(Next(s, steps[0]), steps[1..])
  }

  function Run(s: Shared, steps: seq<Step>): Shared
    requires Runs(s, steps)
    decreases |steps|
  {
    if steps == [] then s else Run(Next(s, steps[0]), steps[1..])
  }

  function Unlogged(f: Flight, id: nat): int {
    if f.partId == id && f.phase == ToLog then Signed(f.movement, f.quantity) else 0
  }

  /** The sum over all requests that have updated the part and not yet logged the movement. */
  ghost function UnloggedSum(flights: map<nat, Flight>, id: nat): int
    decreases |flights.Keys|
  {
    if flights.Keys == {} then 0
    else
      var q :| q in flights.Keys;
      assert (flights - {q}).Keys == flights.Keys - {q};
      Unlogged(flights[q], id) + UnloggedSum(flights - {q}, id)
  }

  /** The sum does not depend on the order in which the requests are taken. */
  lemma {:induction false} UnloggedPick(flights: map<nat, Flight>, id: nat, q: nat)
    requires q in flights
    ensures UnloggedSum(flights, id) == Unlogged(flights[q], id) + UnloggedSum(flights - {q}, id)
    decreases |flights.Keys|
  {
    var p :| p in flights.Keys && UnloggedSum(flights, id) == Unlogged(flights[p], id) + UnloggedSum(flights - {p}, id);
    assert (flights - {p}).Keys == flights.Keys - {p};
    if p != q {
      UnloggedPick(flights - {p}, id, q);
      assert (flights - {q}).Keys == flights.Keys - {q};
      UnloggedPick(flights - {q}, id, p);
      assert flights - {p} - {q} == flights - {q} - {p};
    }
  }

  lemma UnloggedReplace(flights: map<nat, Flight>, id: nat, q: nat, f: Flight)
    ensures UnloggedSum(flights[q := f], id)
            == UnloggedSum(flights, id) + Unlogged(f, id) - if q in flights then Unlogged(flights[q], id) else 0
  {
    UnloggedPick(flights[q := f], id, q);
    assert flights[q := f] - {q} == flights - {q};
    if q in flights {
      UnloggedPick(flights, id, q);
    } else {
      assert flights - {q} == flights;
    }
  }

  /** No update is lost: the counter is the logged sum plus what is updated and not yet logged. */
  ghost predicate Balanced(s: Shared, id: nat)
    requires id in s.stock.parts
  {
    && s.stock.parts[id].onHand == SignedSum(s.stock.log, id) + UnloggedSum(s.flights, id)
    && s.stock.parts[id].reserved >= 0
  }

  ghost predicate SharedInv(s: Shared) {
    && (forall id | id in s.stock.parts :: Balanced(s, id))
    && (forall i | 0 <= i < |s.stock.log| :: s.stock.log[i].partId in s.stock.parts)
    && (forall q | q in s.flights :: s.flights[q].partId in s.stock.parts)
  }

  lemma {:induction false} NoFlights(flights: map<nat, Flight>, id: nat)
    requires forall q | q in flights :: flights[q].partId != id
    ensures UnloggedSum(flights, id) == 0
    decreases |flights.Keys|
  {
    if flights.Keys != {} {
      var p :| p in flights.Keys;
      UnloggedPick(flights, id, p);
      assert (flights - {p}).Keys == flights.Keys - {p};
      NoFlights(flights - {p}, id);
    }
  }

  lemma LogBalances(s: Shared, step: Step, id: nat)
    requires SharedInv(s) && Enabled(s, step) && step.WriteLog? && id in s.stock.parts
    ensures Balanced(Next(s, step), id)
  {
    hide SignedSum, UnloggedSum;
    var f := s.flights[step.request];
    LogOneMore(s.stock.log, LogRow(f.partId, f.movement, f.quantity), id);
    UnloggedPick(s.flights, id, step.request);
  }

  lemma StepBalances(s: Shared, step: Step, id: nat)
    requires SharedInv(s) && Enabled(s, step) && id in Next(s, step).stock.parts
    ensures Balanced(Next(s, step), id)
  {
    hide SignedSum, UnloggedSum;
    assert id in s.stock.parts ==> Balanced(s, id);
    match step
    case InsertPart(request, newId, entered) =>
      UnloggedReplace(s.flights, id, request, Flight(newId, Receive, entered, ToLog));
      if id == newId {
        NoMovements(s.stock.log, id);
        NoFlights(s.flights, id);
      }
    case ReadAndCheck(request, partId, m, quantity) =>
      UnloggedReplace(s.flights, id, request, Flight(partId, m, quantity, ToUpdate));
    case Update(request) => UnloggedReplace(s.flights, id, request, s.flights[request].(phase := ToLog));
    case WriteLog(request) => LogBalances(s, step, id);
  }

  lemma StepKeeps(s: Shared, step: Step)
    requires SharedInv(s) && Enabled(s, step)
    ensures SharedInv(Next(s, step))
  {
    hide Balanced;
    forall id | id in Next(s, step).stock.parts
      ensures Balanced(Next(s, step), id)
    {
      StepBalances(s, step, id);
    }
  }

  lemma {:induction false} RunKeeps(s: Shared, steps: seq<Step>)
    requires SharedInv(s) && Runs(s, steps)
    ensures SharedInv(Run(s, steps))
    decreases |steps|
  {
    hide SharedInv, Next, Enabled;
    if steps != [] {
      StepKeeps(s, steps[0]);
      RunKeeps(Next(s, steps[0]), steps[1..]);
    }
  }

  /** However the statements of the requests interleave, no update is lost and reserved is never negative. */
  lemma NoLostUpdates(steps: seq<Step>, id: nat)
    requires Runs(Shared(Stock(map[], []), map[]), steps)
    requires id in Run(Shared(Stock(map[], []), map[]), steps).stock.parts
    ensures Balanced(Run(Shared(Stock(map[], []), map[]), steps), id)
  {
    RunKeeps(Shared(Stock(map[], []), map[]), steps);
  }

  // ----- which interleavings keep the stock in range -----

  ghost predicate InRange(s: Shared) {
    forall id | id in s.stock.parts :: 0 <= s.stock.parts[id].reserved <= s.stock.parts[id].onHand
  }

  /** Only checked quantities are on their way to an update. */
  ghost predicate Positive(s: Shared) {
    forall q | q in s.flights :: s.flights[q].quantity > 0
  }

  /** The movement fits the row that the UPDATE meets, whatever row was read. */
  predicate Fits(p: Part, m: MovementType, quantity: int) {
    && (m in {TransferOut, Reserve} ==> quantity <= p.onHand - p.reserved)
    && (m == Consume ==> quantity <= p.onHand)
  }

  predicate FitsNow(s: Shared, step: Step)
    requires Enabled(s, step)
  {
    step.Update? ==>
      var f := s.flights[step.request];
      Fits(s.stock.parts[f.partId], f.movement, f.quantity)
  }

  predicate AlwaysFits(s: Shared, steps: seq<Step>)
    requires Runs(s, steps)
    decreases |steps|
  {
    steps != [] ==> FitsNow(s, steps[0]) && AlwaysFits(Next(s, steps[0]), steps[1..])
  }

  ghost predicate AlwaysInRange(s: Shared, steps: seq<Step>)
    requires Runs(s, steps)
    decreases |steps|
  {
    InRange(s) && (steps != [] ==> AlwaysInRange(Next(s, steps[0]), steps[1..]))
  }

  /** The row that passed the checks fits, so what breaks the range is another update in between. */
  lemma CheckedFits(p: Part, m: MovementType, quantity: int)
    requires 0 <= p.reserved && Allowed(p, m, quantity)
    ensures Fits(p, m, quantity)
  {
  }

  lemma MovedInRange(p: Part, m: MovementType, quantity: int)
    requires 0 <= p.reserved <= p.onHand && quantity > 0
    ensures 0 <= Moved(p, m, quantity).reserved <= Moved(p, m, quantity).onHand <==> Fits(p, m, quantity)
  {
  }

  lemma StepInRange(s: Shared, step: Step)
    requires InRange(s) && Positive(s) && Enabled(s, step)
    ensures Positive(Next(s, step))
    ensures InRange(Next(s, step)) <==> FitsNow(s, step)
  {
    hide Moved, Fits;
    if step.Update? {
      var f := s.flights[step.request];
      MovedInRange(s.stock.parts[f.partId], f.movement, f.quantity);
      assert f.partId in Next(s, step).stock.parts;
    }
  }

  lemma {:induction false} RangeExactly(s: Shared, steps: seq<Step>)
    requires InRange(s) && Positive(s) && Runs(s, steps)
    ensures AlwaysInRange(s, steps) <==> AlwaysFits(s, steps)
    decreases |steps|
  {
    hide InRange, Positive, Next, Enabled, FitsNow;
    if steps != [] {
      StepInRange(s, steps[0]);
      if FitsNow(s, steps[0]) {
        RangeExactly(Next(s, steps[0]), steps[1..]);
      } else {
        OutOfRange(Next(s, steps[0]), steps[1..]);
      }
    }
  }

  lemma OutOfRange(s: Shared, steps: seq<Step>)
    requires Runs(s, steps) && !InRange(s)
    ensures !AlwaysInRange(s, steps)
  {
  }

  /**
   * Exactly which interleavings keep 0 <= reserved <= onHand for every part in every
   * state: those in which each update meets a row that its movement fits.
   */
  lemma InterleavingsInRange(steps: seq<Step>)
    requires Runs(Shared(Stock(map[], []), map[]), steps)
    ensures AlwaysInRange(Shared(Stock(map[], []), map[]), steps)
            <==> AlwaysFits(Shared(Stock(map[], []), map[]), steps)
  {
    RangeExactly(Shared(Stock(map[], []), map[]), steps);
  }

  /**
   * The checks do not survive interleaving: two requests that both read the whole
   * available stock overdraw it.
   */
  lemma OverdrawnByTwo(s: Shared, id: nat, q: nat, q': nat, n: int)
    requires id in s.stock.parts && s.stock.parts[id] == Part(n, 0) && n > 0
    requires q !in s.flights && q' !in s.flights && q != q'
    ensures var steps := [ReadAndCheck(q, id, Consume, n), ReadAndCheck(q', id, Consume, n), Update(q), Update(q')];
            Runs(s, steps) && id in Run(s, steps).stock.parts && Run(s, steps).stock.parts[id].onHand == -n
  {
    var steps := [ReadAndCheck(q, id, Consume, n), ReadAndCheck(q', id, Consume, n), Update(q), Update(q')];
    var s1 := Next(s, steps[0]);
    var s2 := Next(s1, steps[1]);
    var s3 := Next(s2, steps[2]);
    var s4 := Next(s3, steps[3]);
    assert steps[1..][0] == steps[1] && steps[1..][1..][0] == steps[2] && steps[1..][1..][1..][0] == steps[3];
    assert steps[1..][1..][1..][1..] == [];
    assert Runs(s4, []) && Run(s4, []) == s4;
    assert Runs(s3, steps[1..][1..][1..]) && Run(s3, steps[1..][1..][1..]) == s4;
    assert Runs(s2, steps[1..][1..]) && Run(s2, steps[1..][1..]) == s4;
    assert Runs(s1, steps[1..]) && Run(s1, steps[1..]) == s4;
  }
}
