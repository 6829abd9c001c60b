// Reserving and releasing an order's stock: lines are added up per product, and each product is then
// moved in two stores, with a compensating release when the second store refuses.
module StockReservation {
  import opened Options
  import opened OrderStock
  import opened StockServices
  import opened StockCheck

  datatype Action = Reserve | Release

  datatype Aggregate = Aggregate(productId: string, productCode: string, productName: string, quantity: real)

  datatype ReservationLine = ReservationLine(
    aggregate: Aggregate, reservedQty: real, availableQty: real, status: ReservationStatus)

  /** Both stores together. */
  datatype Ledgers = Ledgers(stock: Stock, ledger: Ledger)

  /** Which calls for one product fail for reasons outside the program. */
  datatype Fault = Fault(readDown: bool, moveDown: bool, write: WriteFault, rollbackDown: bool)

  type Faults = map<string, Fault>

  const HEALTHY := Fault(false, false, NoFault, false)

  function FaultOf(faults: Faults, p: string): Fault {
    if p in faults then faults[p] else HEALTHY
  }

  // ----- Adding lines up per product -----

  predicate Counted(line: CheckLine) {
    line.productId != "" && (line.status == Available || line.status == Shortage)
  }

  /** What the counted lines of p add up to, named after the first of them. */
  function AggregateFor(checks: seq<CheckLine>, p: string): (a: Option<Aggregate>)
    ensures a.Some? ==> a.value.productId == p
  {
    if checks == [] then None
    else
      var last, before := checks[|checks| - 1], AggregateFor(checks[..|checks| - 1], p);
      if !Counted(last) || last.productId != p then before
      else match before
           case None => Some(Aggregate(p, last.productCode, last.productName, last.requiredQty))
           case Some(a) => Some(a.(quantity := a.quantity + last.requiredQty))
  }

  /** The products of the counted lines, each once, in the order in which they first appear. */
  function FirstSeen(checks: seq<CheckLine>): (products: seq<string>)
    ensures forall p :: p in products <==> AggregateFor(checks, p).Some?
  {
    if checks == [] then []
    else
      var last, before := checks[|checks| - 1], FirstSeen(checks[..|checks| - 1]);
      if Counted(last) && last.productId !in before then before + [last.productId] else before
  }

  function AggregatesOf(checks: seq<CheckLine>, products: seq<string>): (lines: seq<Aggregate>)
    requires forall p :: p in products ==> AggregateFor(checks, p).Some?
    ensures |lines| == |products|
    ensures forall i :: 0 <= i < |lines| ==> lines[i] == AggregateFor(checks, products[i]).value
  {
    if products == [] then []
    else [AggregateFor(checks, products[0]).value] + AggregatesOf(checks, products[1..])
  }

  function Aggregates(checks: seq<CheckLine>): seq<Aggregate> {
    AggregatesOf(checks, FirstSeen(checks))
  }

  method AggregateLines(checks: seq<CheckLine>)
    returns (aggregates: map<string, Aggregate>, productOrder: seq<string>)
    ensures productOrder == FirstSeen(checks)
    ensures forall p :: p in aggregates <==> p in productOrder
    ensures forall p :: p in aggregates ==> AggregateFor(checks, p) == Some(aggregates[p])
  {
    aggregates, productOrder := map[], [];
    for i := 0 to |checks|
      invariant productOrder == FirstSeen(checks[..i])
      invariant forall p :: p in aggregates <==> p in productOrder
      invariant forall p :: p in aggregates ==> AggregateFor(checks[..i], p) == Some(aggregates[p])
    {
      var line := checks[i];
      assert checks[..i + 1][..i] == checks[..i];
      if line.productId == "" {
        continue;
      }
      if line.status != Available && line.status != Shortage {
        continue;
      }
      if line.productId !in aggregates {
        aggregates := aggregates[line.productId := Aggregate(line.productId, line.productCode, line.productName, 0.0)];
        productOrder := productOrder + [line.productId];
      }
      var aggregate := aggregates[line.productId];
      aggregates := aggregates[line.productId := aggregate.(quantity := aggregate.quantity + line.requiredQty)];
    }
    assert checks[..|checks|] == checks;
  }

  // ----- One product in both stores -----

  /** What handling one product leaves in the stores, and the error it reports, if any. */
  function ApplyOne(catalog: Catalog, l: Ledgers, action: Action, orderId: string, w: string, line: Aggregate, f: Fault)
    : (Ledgers, Option<ServiceError>)
  {
    var p, q, key := line.productId, line.quantity, ReservationKey(orderId, line.productId, w);
    match action
    case Reserve =>
      (match ReserveOutcome(catalog, l.stock, p, w, q, f.moveDown)
       case Failure(e) => (l, Some(e))
       case Success(moved) =>
         if f.write == NoFault then (Ledgers(moved, Upserted(l.ledger, key, q)), None)
         else match ReleaseOutcome(catalog, moved, p, w, q, f.rollbackDown)
              case Success(back) => (l.(stock := back), Some(Unavailable))
              case Failure(_) => (l.(stock := moved), Some(RollbackFailed(Unavailable))))
    case Release =>
      if f.readDown then (l, Some(Unavailable))
      else if key !in l.ledger then (l, Some(ReservationNotFound))
      else if l.ledger[key].quantity < q then (l, Some(MoreThanOrderReserved(p)))
      else match ReleaseOutcome(catalog, l.stock, p, w, q, f.moveDown)
           case Failure(e) => (l, Some(e))
           case Success(moved) =>
             if f.write == NotApplied then (l.(stock := moved), Some(Unavailable))
             else (Ledgers(moved, Lowered(l.ledger, key, q)),
                   if f.write == NoFault then None else Some(Unavailable))
  }

  function Reported(l: Ledgers, action: Action, w: string, line: Aggregate): ReservationLine {
    var level := LevelAt(l.stock, line.productId, w);
    ReservationLine(line, level.reservedQty, level.availableQty, if action == Reserve then Reserved else Released)
  }

  /** The products one after the other, stopping at the first error. */
  function ApplyAll(catalog: Catalog, l: Ledgers, action: Action, orderId: string, w: string,
                    lines: seq<Aggregate>, faults: Faults): (Ledgers, Result<seq<ReservationLine>, ServiceError>)
    decreases |lines|
  {
    if lines == [] then (l, Success([]))
    else
      var (after, error) := ApplyOne(catalog, l, action, orderId, w, lines[0], FaultOf(faults, lines[0].productId));
      if error.Some? then (after, Failure(error.value))
      else
        var (end, rest) := ApplyAll(catalog, after, action, orderId, w, lines[1..], faults);
        (end, if rest.Success? then Success([Reported(after, action, w, lines[0])] + rest.value) else rest)
  }

  method ApplyOrderStockReservation(inventory: InventoryService, orders: OrdersService, action: Action, check: Check,
                                    faults: Faults)
    returns (r: Result<seq<ReservationLine>, ServiceError>)
    modifies inventory`stock, orders`ledger
    ensures (Ledgers(inventory.stock, orders.ledger), r)
         == ApplyAll(inventory.catalog, Ledgers(old(inventory.stock), old(orders.ledger)), action, check.orderId,
                     check.warehouseId, Aggregates(check.lines), faults)
  {
    var aggregates, productOrder := AggregateLines(check.lines);
    ghost var all := Aggregates(check.lines);
    ghost var start := Ledgers(inventory.stock, orders.ledger);
    var done: seq<ReservationLine> := [];
    ContinuesAtStart(inventory.catalog, start, action, check.orderId, check.warehouseId, all, faults);
    for i := 0 to |productOrder|
      invariant |done| == i
      invariant Continues(inventory.catalog, start, Ledgers(inventory.stock, orders.ledger), action, check.orderId,
                          check.warehouseId, all, i, done, faults)
    {
      var p := productOrder[i];
      var line := aggregates[p];
      assert all[i] == line;
      ghost var before := Ledgers(inventory.stock, orders.ledger);
      var error := ApplyToProduct(inventory, orders, action, check.orderId, check.warehouseId, line,
                                  FaultOf(faults, p));
      ContinuesStep(inventory.catalog, start, before, action, check.orderId, check.warehouseId, all, i, done, faults);
      if error.Some? {
        return Failure(error.value);
      }
      var level := LevelAt(inventory.stock, p, check.warehouseId);
      done := done + [ReservationLine(line, level.reservedQty, level.availableQty,
                                      if action == Release then Released else Reserved)];
    }
    ContinuesAtEnd(inventory.catalog, start, Ledgers(inventory.stock, orders.ledger), action, check.orderId,
                   check.warehouseId, all, done, faults);
    return Success(done);
  }

  /** The whole run from `start` is what was reported so far followed by the run of the remaining lines. */
  ghost predicate Continues(catalog: Catalog, start: Ledgers, now: Ledgers, action: Action, orderId: string, w: string,
                            all: seq<Aggregate>, i: nat, done: seq<ReservationLine>, faults: Faults)
  {
    && i <= |all|
    && var (end, rest) := ApplyAll(catalog, now, action, orderId, w, all[i..], faults);
       ApplyAll(catalog, start, action, orderId, w, all, faults) == (end, Prefixed(done, rest))
  }

  /** The lines reported before, and then the rest's. */
  function Prefixed(done: seq<ReservationLine>, rest: Result<seq<ReservationLine>, ServiceError>)
    : Result<seq<ReservationLine>, ServiceError>
  {
    if rest.Success? then Success(done + rest.value) else rest
  }

  lemma PrefixedTwice(done: seq<ReservationLine>, more: seq<ReservationLine>,
                      rest: Result<seq<ReservationLine>, ServiceError>)
    ensures Prefixed(done, Prefixed(more, rest)) == Prefixed(done + more, rest)
  {
    if rest.Success? {
      assert done + (more + rest.value) == done + more + rest.value;
    }
  }

  /** What remains to be done from the i-th line on, by its first line. */
  lemma ApplyAllFrom(catalog: Catalog, now: Ledgers, action: Action, orderId: string, w: string,
                     all: seq<Aggregate>, i: nat, faults: Faults)
    requires i < |all|
    ensures var (after, error) :=
              ApplyOne(catalog, now, action, orderId, w, all[i], FaultOf(faults, all[i].productId));
            var (end, rest) := ApplyAll(catalog, after, action, orderId, w, all[i + 1..], faults);
            ApplyAll(catalog, now, action, orderId, w, all[i..], faults)
            == if error.Some? then (after, Failure(error.value))
               else (end, Prefixed([Reported(after, action, w, all[i])], rest))
  {
    assert all[i..][0] == all[i] && all[i..][1..] == all[i + 1..];
  }

  lemma ContinuesAtStart(catalog: Catalog, start: Ledgers, action: Action, orderId: string, w: string,
                         all: seq<Aggregate>, faults: Faults)
    ensures Continues(catalog, start, start, action, orderId, w, all, 0, [], faults)
  {
    assert all[0..] == all;
    var (end, rest) := ApplyAll(catalog, start, action, orderId, w, all, faults);
    if rest.Success? {
      assert [] + rest.value == rest.value;
    }
  }

  lemma ContinuesAtEnd(catalog: Catalog, start: Ledgers, now: Ledgers, action: Action, orderId: string, w: string,
                       all: seq<Aggregate>, done: seq<ReservationLine>, faults: Faults)
    requires Continues(catalog, start, now, action, orderId, w, all, |all|, done, faults)
    ensures ApplyAll(catalog, start, action, orderId, w, all, faults) == (now, Success(done))
  {
    assert all[|all|..] == [];
    assert done + [] == done;
  }

  lemma ContinuesStep(catalog: Catalog, start: Ledgers, now: Ledgers, action: Action, orderId: string, w: string,
                      all: seq<Aggregate>, i: nat, done: seq<ReservationLine>, faults: Faults)
    requires i < |all| && Continues(catalog, start, now, action, orderId, w, all, i, done, faults)
    ensures var (after, error) :=
              ApplyOne(catalog, now, action, orderId, w, all[i], FaultOf(faults, all[i].productId));
            if error.Some?
            then ApplyAll(catalog, start, action, orderId, w, all, faults) == (after, Failure(error.value))
            else Continues(catalog, start, after, action, orderId, w, all, i + 1,
                           done + [Reported(after, action, w, all[i])], faults)
  {
    ApplyAllFrom(catalog, now, action, orderId, w, all, i, faults);
    var after := ApplyOne(catalog, now, action, orderId, w, all[i], FaultOf(faults, all[i].productId)).0;
    PrefixedTwice(done, [Reported(after, action, w, all[i])],
                  ApplyAll(catalog, after, action, orderId, w, all[i + 1..], faults).1);
  }

  method ApplyToProduct(inventory: InventoryService, orders: OrdersService, action: Action, orderId: string, w: string,
                        line: Aggregate, f: Fault)
    returns (error: Option<ServiceError>)
    modifies inventory`stock, orders`ledger
    ensures (Ledgers(inventory.stock, orders.ledger), error)
         == ApplyOne(inventory.catalog, Ledgers(old(inventory.stock), old(orders.ledger)), action, orderId, w, line, f)
  {
    var p, q, key := line.productId, line.quantity, ReservationKey(orderId, line.productId, w);
    if action == Release {
      var reservation := orders.GetStockReservation(key, f.readDown);
      if reservation.Failure? {
        return Some(reservation.error);
      }
      if reservation.value.quantity < q {
        return Some(MoreThanOrderReserved(p));
      }
    }
    var moved;
    if action == Release {
      moved := inventory.ReleaseStock(p, w, q, f.moveDown);
    } else {
      moved := inventory.ReserveStock(p, w, q, f.moveDown);
    }
    if moved.Failure? {
      return Some(moved.error);
    }
    if action == Release {
      error := orders.ReleaseStockReservation(key, q, f.write);
    } else {
      error := orders.UpsertStockReservation(key, q, f.write);
      if error.Some? {
        var rollback := inventory.ReleaseStock(p, w, q, f.rollbackDown);
        if rollback.Failure? {
          return Some(RollbackFailed(error.value));
        }
      }
    }
  }

  // ----- The request -----

  datatype Response =
    | CheckFailed(error: ServiceError)
    | NotReady(check: Check)
    | MissingProducts(check: Check)
    | ApplyFailed(error: ServiceError)
    | Done(lines: seq<ReservationLine>)

  datatype Request = Request(action: Action, orderId: string, warehouseId: string, levelsDown: set<string>,
                             faults: Faults)

  predicate HasStatus(checks: seq<CheckLine>, status: LineStatus) {
    exists i :: 0 <= i < |checks| && checks[i].status == status
  }

  function Handle(catalog: Catalog, orders: map<string, Order>, l: Ledgers, request: Request): (Ledgers, Response) {
    match CheckOutcome(catalog, l.stock, orders, request.orderId, request.warehouseId, request.levelsDown)
    case Failure(e) => (l, CheckFailed(e))
    case Success(check) =>
      if request.action == Reserve && !check.ready then (l, NotReady(check))
      else if request.action == Release && HasStatus(check.lines, ProductNotFound) then (l, MissingProducts(check))
      else
        var (after, r) := ApplyAll(catalog, l, request.action, check.orderId, check.warehouseId,
                                   Aggregates(check.lines), request.faults);
        (after, match r case Success(lines) => Done(lines) case Failure(e) => ApplyFailed(e))
  }

  method HandleOrderStockReservation(inventory: InventoryService, orders: OrdersService, request: Request)
    returns (response: Response)
    modifies inventory`stock, orders`ledger
    ensures (Ledgers(inventory.stock, orders.ledger), response)
         == Handle(inventory.catalog, orders.orders, Ledgers(old(inventory.stock), old(orders.ledger)), request)
  {
    var checked := BuildOrderStockCheck(inventory, orders, request.orderId, request.warehouseId, request.levelsDown);
    if checked.Failure? {
      return CheckFailed(checked.error);
    }
    var check := checked.value;
    if request.action == Reserve && !check.ready {
      return NotReady(check);
    }
    if request.action == Release {
      var missing := CheckHasStatus(check, ProductNotFound);
      if missing {
        return MissingProducts(check);
      }
    }
    var r := ApplyOrderStockReservation(inventory, orders, request.action, check, request.faults);
    match r {
      case Success(lines) => return Done(lines);
      case Failure(e) => return ApplyFailed(e);
    }
  }

  method CheckHasStatus(check: Check, status: LineStatus) returns (found: bool)
    ensures found == HasStatus(check.lines, status)
  {
    for i := 0 to |check.lines|
      invariant forall j :: 0 <= j < i ==> check.lines[j].status != status
    {
      if check.lines[i].status == status {
        return true;
      }
    }
    return false;
  }
}
