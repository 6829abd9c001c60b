// What the order handlers answer: the lines of a check and of a pick list, and the response to a request.
module OrderStockAnswers {
  import opened Options
  import opened OrderStock
  import opened StockServices
  import opened StockCheck
  import opened StockCheckLaws
  import opened StockReservation
  import opened StockReservationLaws
  import opened AggregateLaws
  import opened OrderStockRuns
  import opened OrderStockFlow
  import opened PickList

  // ----- A check over all warehouses -----

  /** The rows, all in one warehouse. */
  function RowsIn(levels: seq<StockLevel>, w: string): (moved: seq<StockLevel>)
    ensures |moved| == |levels|
  {
    if levels == [] then []
    else RowsIn(levels[..|levels| - 1], w) + [levels[|levels| - 1].(warehouseId := w)]
  }

  /** All stock, moved to one warehouse. */
  function StockIn(stock: Stock, w: string): Stock {
    map p | p in stock :: RowsIn(stock[p], w)
  }

  lemma {:induction false} AllRowsCount(levels: seq<StockLevel>, w: string)
    ensures SumAvailable(levels, "") == SumAvailable(RowsIn(levels, w), w)
  {
    if levels != [] {
      AllRowsCount(levels[..|levels| - 1], w);
      assert RowsIn(levels, w)[..|levels| - 1] == RowsIn(levels[..|levels| - 1], w);
    }
  }

  lemma AllAvailabilityCounts(stock: Stock, p: string, w: string)
    ensures Availability(stock, "", p) == Availability(StockIn(stock, w), w, p)
  {
    AllRowsCount(LevelsOf(stock, p), w);
  }

  /** Checking an order against all warehouses gives the very lines it would give if all stock were in one. */
  lemma {:induction false} AllWarehousesLikeOne(catalog: Catalog, stock: Stock, w: string, lines: seq<OrderLine>)
    ensures LineChecks(catalog, stock, "", lines) == LineChecks(catalog, StockIn(stock, w), w, lines)
  {
    if lines != [] {
      var n := |lines| - 1;
      AllWarehousesLikeOne(catalog, stock, w, lines[..n]);
      LineLikeOne(catalog, stock, w, lines[..n], lines[n]);
    }
  }

  lemma LineLikeOne(catalog: Catalog, stock: Stock, w: string, served: seq<OrderLine>, line: OrderLine)
    ensures LineCheck(catalog, stock, "", served, line) == LineCheck(catalog, StockIn(stock, w), w, served, line)
  {
    AllAvailabilityCounts(stock, ProductRef(line), w);
  }

  /** What the warehouses of these rows have, each by its own level among all rows. */
  function SumOfLevels(rows: seq<StockLevel>, all: seq<StockLevel>): real {
    if rows == [] then 0.0
    else SumOfLevels(rows[..|rows| - 1], all) + LevelIn(all, rows[|rows| - 1].warehouseId).availableQty
  }

  lemma {:induction false} LevelOfRow(levels: seq<StockLevel>, i: nat)
    requires i < |levels| && forall j, k :: 0 <= j < k < |levels| ==> levels[j].warehouseId != levels[k].warehouseId
    ensures LevelIn(levels, levels[i].warehouseId) == levels[i]
  {
    if i > 0 {
      LevelOfRow(levels[1..], i - 1);
    }
  }

  lemma {:induction false} RowsAreSummed(levels: seq<StockLevel>, n: nat)
    requires n <= |levels|
    requires forall j, k :: 0 <= j < k < |levels| ==> levels[j].warehouseId != levels[k].warehouseId
    ensures SumAvailable(levels[..n], "") == SumOfLevels(levels[..n], levels)
  {
    if n > 0 {
      RowsAreSummed(levels, n - 1);
      LevelOfRow(levels, n - 1);
      assert levels[..n][..n - 1] == levels[..n - 1];
    }
  }

  /** With one row per warehouse, what is available over all warehouses is the sum of what each of them has. */
  lemma WarehousesAreSummed(stock: Stock, p: string)
    requires OneRowPerWarehouse(stock)
    ensures Availability(stock, "", p) == SumOfLevels(LevelsOf(stock, p), LevelsOf(stock, p))
  {
    var levels := LevelsOf(stock, p);
    RowsAreSummed(levels, |levels|);
    assert levels[..|levels|] == levels;
  }

  // ----- The lines of a check -----

  predicate InCatalog(catalog: Catalog, line: OrderLine) {
    ProductRef(line) != "" && ProductRef(line) in catalog
  }

  /** Goods whose inventory is tracked. */
  predicate Kept(product: Product) {
    product.productType == Goods && product.trackInventory
  }

  /** What is left for a line after the lines before it took their demand. */
  function LeftBefore(catalog: Catalog, before: seq<OrderLine>, p: string, initial: real): real {
    if AnyTracks(catalog, before, p) then Max(0.0, initial - Demand(catalog, before, p)) else initial
  }

  /** A line names its product if there is one, shows what the demand before it leaves of it, and is short by what is
      missing from that. */
  predicate CheckTells(catalog: Catalog, stock: Stock, w: string, before: seq<OrderLine>, line: OrderLine,
                       check: CheckLine)
  {
    var p := ProductRef(line);
    && check.lineId == line.id && check.lineNumber == line.lineNumber && check.description == line.description
    && check.productId == p && check.requiredQty == line.quantity
    && (InCatalog(catalog, line) ==> check.productCode == catalog[p].code && check.productName == catalog[p].name)
    && (InCatalog(catalog, line) && Kept(catalog[p]) ==>
          var left := LeftBefore(catalog, before, p, Availability(stock, w, p));
          && check.availableQty == left
          && check.shortageQty == Max(0.0, line.quantity - left)
          && (check.status == Shortage <==> left < line.quantity)
          && (check.status == Available <==> line.quantity <= left))
    && (!(InCatalog(catalog, line) && Kept(catalog[p])) ==>
          && check.availableQty == 0.0
          && (check.status == ProductNotFound <==> p != "" && p !in catalog)
          && (check.status == NotTracked <==> p == "" || p in catalog)
          && check.shortageQty == if p != "" && p !in catalog then line.quantity else 0.0)
  }

  lemma CheckOfLineTells(catalog: Catalog, stock: Stock, w: string, before: seq<OrderLine>, line: OrderLine)
    requires NonNegative(before)
    ensures CheckTells(catalog, stock, w, before, line, LineCheck(catalog, stock, w, before, line))
  {
    RemainingInClosedForm(catalog, before, ProductRef(line), Availability(stock, w, ProductRef(line)));
  }

  lemma CheckNext(catalog: Catalog, stock: Stock, w: string, lines: seq<OrderLine>, i: nat)
    requires i < |lines|
    ensures LineChecks(catalog, stock, w, lines)[i]
         == if i == |lines| - 1 then LineCheck(catalog, stock, w, lines[..i], lines[i])
            else LineChecks(catalog, stock, w, lines[..|lines| - 1])[i]
  {}

  lemma {:induction false} CheckAt(catalog: Catalog, stock: Stock, w: string, lines: seq<OrderLine>, i: nat,
                                   before: seq<OrderLine>)
    requires i < |lines| && before == lines[..i]
    ensures LineChecks(catalog, stock, w, lines)[i] == LineCheck(catalog, stock, w, before, lines[i])
  {
    CheckNext(catalog, stock, w, lines, i);
    var n := |lines| - 1;
    if i < n {
      assert lines[..n][..i] == lines[..i];
      CheckAt(catalog, stock, w, lines[..n], i, before);
    }
  }

  /** Every line of a check, in closed form. */
  lemma ChecksInClosedForm(catalog: Catalog, stock: Stock, w: string, lines: seq<OrderLine>, i: nat)
    requires NonNegative(lines) && i < |lines|
    ensures CheckTells(catalog, stock, w, lines[..i], lines[i], LineChecks(catalog, stock, w, lines)[i])
  {
    CheckAt(catalog, stock, w, lines, i, lines[..i]);
    CheckOfLineTells(catalog, stock, w, lines[..i], lines[i]);
  }

  // ----- The lines of a pick list -----

  /** A pick shows what the demand before it leaves of the reservation and what the warehouse has, picks no more than
      reserved, and is unreserved when nothing is left. */
  predicate PickTells(catalog: Catalog, stock: Stock, rows: seq<Row>, w: string, before: seq<OrderLine>,
                      line: OrderLine, pick: PickLine)
  {
    var p := ProductRef(line);
    && pick.lineId == line.id && pick.lineNumber == line.lineNumber && pick.description == line.description
    && pick.productId == p && pick.requiredQty == line.quantity
    && (InCatalog(catalog, line) ==> pick.productCode == catalog[p].code && pick.productName == catalog[p].name)
    && (InCatalog(catalog, line) && Kept(catalog[p]) ==>
          var left := LeftBefore(catalog, before, p, RowsReserved(rows, p, w));
          && pick.reservedQty == left
          && pick.availableQty == WarehouseAvailable(LevelsOf(stock, p), w)
          && pick.pickQty == Min(left, line.quantity)
          && pick.shortageQty == Max(0.0, line.quantity - left)
          && (pick.status == Ready <==> line.quantity <= left)
          && (pick.status == Unreserved <==> left < line.quantity && left == 0.0)
          && (pick.status == Short <==> left < line.quantity && left != 0.0))
    && (!(InCatalog(catalog, line) && Kept(catalog[p])) ==>
          && pick.reservedQty == pick.availableQty == pick.pickQty == 0.0
          && (pick.status == Unknown <==> p != "" && p !in catalog)
          && (pick.status == Untracked <==> p == "" || p in catalog)
          && pick.shortageQty == if p != "" && p !in catalog then line.quantity else 0.0)
  }

  lemma PickOfLineTells(catalog: Catalog, stock: Stock, rows: seq<Row>, w: string, before: seq<OrderLine>,
                        line: OrderLine)
    requires NonNegative(before)
    ensures PickTells(catalog, stock, rows, w, before, line, PickFor(catalog, stock, rows, w, before, line))
  {
    RemainingInClosedForm(catalog, before, ProductRef(line), RowsReserved(rows, ProductRef(line), w));
  }

  lemma PickNext(catalog: Catalog, stock: Stock, rows: seq<Row>, w: string, lines: seq<OrderLine>, i: nat)
    requires i < |lines|
    ensures PicksFor(catalog, stock, rows, w, lines)[i]
         == if i == |lines| - 1 then PickFor(catalog, stock, rows, w, lines[..i], lines[i])
            else PicksFor(catalog, stock, rows, w, lines[..|lines| - 1])[i]
  {}

  lemma {:induction false} PickAt(catalog: Catalog, stock: Stock, rows: seq<Row>, w: string, lines: seq<OrderLine>,
                                  i: nat, before: seq<OrderLine>)
    requires i < |lines| && before == lines[..i]
    ensures PicksFor(catalog, stock, rows, w, lines)[i] == PickFor(catalog, stock, rows, w, before, lines[i])
  {
    PickNext(catalog, stock, rows, w, lines, i);
    var n := |lines| - 1;
    if i < n {
      assert lines[..n][..i] == lines[..i];
      PickAt(catalog, stock, rows, w, lines[..n], i, before);
    }
  }

  /** Every line of a pick list, in closed form. */
  lemma PicksInClosedForm(catalog: Catalog, stock: Stock, rows: seq<Row>, w: string, lines: seq<OrderLine>, i: nat)
    requires NonNegative(lines) && i < |lines|
    ensures PickTells(catalog, stock, rows, w, lines[..i], lines[i], PicksFor(catalog, stock, rows, w, lines)[i])
  {
    PickAt(catalog, stock, rows, w, lines, i, lines[..i]);
    PickOfLineTells(catalog, stock, rows, w, lines[..i], lines[i]);
  }

  lemma {:induction false} OneWarehouseIsSummed(levels: seq<StockLevel>, w: string)
    requires w != ""
    ensures WarehouseAvailable(levels, w) == SumAvailable(levels, w)
  {
    if levels != [] {
      OneWarehouseIsSummed(levels[..|levels| - 1], w);
    }
  }

  /** With one row per warehouse, a pick shows what its warehouse's own level has available. */
  lemma PicksShowOwnLevel(stock: Stock, p: string, w: string)
    requires OneRowPerWarehouse(stock) && w != ""
    ensures WarehouseAvailable(LevelsOf(stock, p), w) == LevelAt(stock, p, w).availableQty
  {
    OneWarehouseIsSummed(LevelsOf(stock, p), w);
    SoleRow(LevelsOf(stock, p), w);
  }

  // ----- What a successful request reports -----

  /** The report on one product: its own aggregate, its level in the stores, and the status of the action. */
  predicate Reports(report: ReservationLine, aggregate: Aggregate, level: StockLevel, action: Action) {
    && report.aggregate == aggregate
    && report.reservedQty == level.reservedQty
    && report.availableQty == level.availableQty
    && (report.status == Reserved <==> action == Reserve)
    && (report.status == Released <==> action == Release)
  }

  lemma {:induction false} OtherProductsStay(catalog: Catalog, l: Ledgers, action: Action, orderId: string, w: string,
                                             lines: seq<Aggregate>, faults: Faults, p: string)
    requires forall i :: 0 <= i < |lines| ==> lines[i].productId != p
    ensures LevelAt(ApplyAll(catalog, l, action, orderId, w, lines, faults).0.stock, p, w) == LevelAt(l.stock, p, w)
    decreases |lines|
  {
    if lines != [] {
      var f := FaultOf(faults, lines[0].productId);
      var (after, error) := ApplyOne(catalog, l, action, orderId, w, lines[0], f);
      OneProductInStock(catalog, l, action, orderId, w, lines[0], f, p, w);
      ShiftTwice(LevelAt(l.stock, p, w), 0.0, 0.0);
      if error.None? {
        OtherProductsStay(catalog, after, action, orderId, w, lines[1..], faults, p);
      }
    }
  }

  /** The first product is moved, and its line comes before those of the others. */
  lemma FirstIsReported(catalog: Catalog, l: Ledgers, action: Action, orderId: string, w: string,
                        lines: seq<Aggregate>, faults: Faults)
    returns (after: Ledgers, end: Ledgers, others: seq<ReservationLine>)
    requires lines != [] && ApplyAll(catalog, l, action, orderId, w, lines, faults).1.Success?
    ensures ApplyAll(catalog, after, action, orderId, w, lines[1..], faults) == (end, Success(others))
    ensures ApplyAll(catalog, l, action, orderId, w, lines, faults)
         == (end, Success([Reported(after, action, w, lines[0])] + others))
  {
    after := ApplyOne(catalog, l, action, orderId, w, lines[0], FaultOf(faults, lines[0].productId)).0;
    var (stores, rest) := ApplyAll(catalog, after, action, orderId, w, lines[1..], faults);
    end, others := stores, rest.value;
  }

  lemma {:induction false} ReportsFinalLevels(catalog: Catalog, l: Ledgers, action: Action, orderId: string, w: string,
                                              lines: seq<Aggregate>, faults: Faults, i: nat, end: Ledgers,
                                              reports: seq<ReservationLine>)
    requires ApplyAll(catalog, l, action, orderId, w, lines, faults) == (end, Success(reports))
    requires Distinct(lines) && i < |lines|
    ensures |reports| == |lines| && Reports(reports[i], lines[i], LevelAt(end.stock, lines[i].productId, w), action)
    decreases |lines|
  {
    var after, _, others := FirstIsReported(catalog, l, action, orderId, w, lines, faults);
    TailOf(catalog, lines);
    ReportCount(catalog, after, action, orderId, w, lines[1..], faults);
    if i > 0 {
      ReportsFinalLevels(catalog, after, action, orderId, w, lines[1..], faults, i - 1, end, others);
    } else {
      FirstShowsFinalLevel(catalog, after, action, orderId, w, lines, faults);
    }
  }

  lemma FirstShowsFinalLevel(catalog: Catalog, after: Ledgers, action: Action, orderId: string, w: string,
                             lines: seq<Aggregate>, faults: Faults)
    requires Distinct(lines) && lines != []
    ensures var end := ApplyAll(catalog, after, action, orderId, w, lines[1..], faults).0;
      Reports(Reported(after, action, w, lines[0]), lines[0], LevelAt(end.stock, lines[0].productId, w), action)
  {
    FirstIsNotRepeated(lines);
    OtherProductsStay(catalog, after, action, orderId, w, lines[1..], faults, lines[0].productId);
  }

  lemma {:induction false} ReportCount(catalog: Catalog, l: Ledgers, action: Action, orderId: string, w: string,
                                       lines: seq<Aggregate>, faults: Faults)
    requires ApplyAll(catalog, l, action, orderId, w, lines, faults).1.Success?
    ensures |ApplyAll(catalog, l, action, orderId, w, lines, faults).1.value| == |lines|
    decreases |lines|
  {
    if lines != [] {
      var after := ApplyOne(catalog, l, action, orderId, w, lines[0], FaultOf(faults, lines[0].productId)).0;
      ReportCount(catalog, after, action, orderId, w, lines[1..], faults);
    }
  }

  /** The i-th aggregate is the i-th tracked product's, as the catalogue names it, with the product's whole demand. */
  lemma AggregateAt(catalog: Catalog, orders: Orders, orderId: string, w: string, i: nat)
    requires orderId in orders
    ensures var products := TrackedProducts(catalog, orders[orderId].lines);
      && |OrderAggregates(catalog, orders, orderId, w)| == |products|
      && (i < |products| ==>
            && products[i] in catalog
            && OrderAggregates(catalog, orders, orderId, w)[i]
               == Aggregate(products[i], catalog[products[i]].code, catalog[products[i]].name,
                            Demand(catalog, orders[orderId].lines, products[i])))
  {
    var lines := orders[orderId].lines;
    FirstSeenIsTracked(catalog, map[], w, lines);
    if i < |TrackedProducts(catalog, lines)| {
      var p := TrackedProducts(catalog, lines)[i];
      assert p in TrackedProducts(catalog, lines);
      AggregateIsDemand(catalog, map[], w, lines, p);
    }
  }

  /** A request that succeeds reports every tracked product once, in the order in which the order's lines first name
      them, each with its whole demand, what its level holds when the request is done, and what has been done. */
  lemma DoneReportsEveryProduct(catalog: Catalog, orders: Orders, l: Ledgers, request: Request, i: nat)
    requires KeyedById(orders) && Handle(catalog, orders, l, request).1.Done?
    ensures request.orderId in orders
    ensures var (after, response) := Handle(catalog, orders, l, request);
      var products := TrackedProducts(catalog, orders[request.orderId].lines);
      && |response.lines| == |products|
      && (i < |products| ==>
            && products[i] in catalog
            && Reports(response.lines[i],
                       Aggregate(products[i], catalog[products[i]].code, catalog[products[i]].name,
                                 Demand(catalog, orders[request.orderId].lines, products[i])),
                       LevelAt(after.stock, products[i], request.warehouseId), request.action))
  {
    var aggregates := OrderAggregates(catalog, orders, request.orderId, request.warehouseId);
    AggregateAt(catalog, orders, request.orderId, request.warehouseId, i);
    SameAggregates(catalog, orders, l, request);
    DoneMeansApplied(catalog, orders, l, request);
    DoneIsApplyAll(catalog, orders, l, request, aggregates);
    ReportCount(catalog, l, request.action, request.orderId, request.warehouseId, aggregates, request.faults);
    var (after, reports) := ApplyAll(catalog, l, request.action, request.orderId, request.warehouseId, aggregates,
                                     request.faults);
    if i < |aggregates| {
      ReportsFinalLevels(catalog, l, request.action, request.orderId, request.warehouseId, aggregates,
                         request.faults, i, after, reports.value);
    }
  }

  lemma DoneIsApplyAll(catalog: Catalog, orders: Orders, l: Ledgers, request: Request, lines: seq<Aggregate>)
    requires KeyedById(orders) && request.orderId in orders && Handle(catalog, orders, l, request).1.Done?
    requires lines == Aggregates(ChecksOf(catalog, orders, l, request))
    ensures var (after, r) := ApplyAll(catalog, l, request.action, request.orderId, request.warehouseId, lines,
                                       request.faults);
      Handle(catalog, orders, l, request) == (after, if r.Success? then Done(r.value) else ApplyFailed(r.error))
  {}

  // ----- Which error a product stops with -----

  /** Why a product could not be reserved or released; no error means that both stores took the move. */
  predicate ErrorTells(catalog: Catalog, l: Ledgers, action: Action, orderId: string, w: string, line: Aggregate,
                       f: Fault, error: Option<ServiceError>)
  {
    var key, level := ReservationKey(orderId, line.productId, w), LevelAt(l.stock, line.productId, w);
    var q, down := line.quantity, f.moveDown || f.write != NoFault || (action == Release && f.readDown);
    match error
    case None =>
      && q > 0.0 && line.productId in catalog && !down
      && (if action == Reserve then level.availableQty >= q
          else level.reservedQty >= q && key in l.ledger && l.ledger[key].quantity >= q)
    case Some(Unavailable) => down
    case Some(QuantityNotPositive) => q <= 0.0
    case Some(ProductUnknown) => q > 0.0 && line.productId !in catalog
    case Some(InsufficientAvailable) => action == Reserve && level.availableQty < q
    case Some(MoreThanReserved) => action == Release && level.reservedQty < q
    case Some(ReservationNotFound) => action == Release && key !in l.ledger
    case Some(MoreThanOrderReserved(p)) =>
      action == Release && p == line.productId && key in l.ledger && l.ledger[key].quantity < q
    case Some(RollbackFailed(cause)) =>
      action == Reserve && cause == Unavailable && f.write != NoFault && level.availableQty >= q
    case Some(OrderNotFound) => false
  }

  /** Each error has its own reason, and a product is moved exactly when there is none. */
  lemma OneProductTells(catalog: Catalog, l: Ledgers, action: Action, orderId: string, w: string, line: Aggregate,
                        f: Fault)
    ensures ErrorTells(catalog, l, action, orderId, w, line, f,
                       ApplyOne(catalog, l, action, orderId, w, line, f).1)
  {}

  /** A request that fails in the stores reports the error of the product it stopped at, as the products before it
      left the stores. */
  lemma {:induction false} FailureTells(catalog: Catalog, l: Ledgers, action: Action, orderId: string, w: string,
                                        lines: seq<Aggregate>, faults: Faults)
    returns (n: nat, now: Ledgers)
    requires ApplyAll(catalog, l, action, orderId, w, lines, faults).1.Failure?
    ensures n < |lines|
    ensures ApplyAll(catalog, l, action, orderId, w, lines[..n], faults).0 == now
    ensures ApplyAll(catalog, l, action, orderId, w, lines[..n], faults).1.Success?
    ensures ErrorTells(catalog, now, action, orderId, w, lines[n], FaultOf(faults, lines[n].productId),
                       Some(ApplyAll(catalog, l, action, orderId, w, lines, faults).1.error))
    decreases |lines|
  {
    var f := FaultOf(faults, lines[0].productId);
    var (after, error) := ApplyOne(catalog, l, action, orderId, w, lines[0], f);
    if error.Some? {
      n, now := 0, l;
      OneProductTells(catalog, l, action, orderId, w, lines[0], f);
    } else {
      n, now := FailureTells(catalog, after, action, orderId, w, lines[1..], faults);
      n := n + 1;
      assert lines[..n][1..] == lines[1..][..n - 1];
    }
  }

  // ----- Which response a request gets -----

  /** Some tracked product's levels cannot be read. */
  predicate LevelsUnreadable(catalog: Catalog, lines: seq<OrderLine>, down: set<string>) {
    exists i :: 0 <= i < |lines| && Tracked(catalog, lines[i]) && ProductRef(lines[i]) in down
  }

  lemma UnreadableIffDown(catalog: Catalog, lines: seq<OrderLine>, down: set<string>)
    ensures LevelsUnreadable(catalog, lines, down) <==> LevelsDown(catalog, lines, down)
  {
    if i :| 0 <= i < |lines| && Tracked(catalog, lines[i]) && ProductRef(lines[i]) in down {
      LineTracks(catalog, lines, ProductRef(lines[i]), i);
    }
    if p :| p in down && AnyTracks(catalog, lines, p) {
      var i := TrackingLine(catalog, lines, p);
    }
  }

  /** The gate a request ends at, before the stores: first the order, then the reading of levels, then, for a reserve,
      readiness, and for a release, missing products. In all these cases the stores stay as they are. */
  lemma RefusedExactlyWhen(catalog: Catalog, orders: Orders, l: Ledgers, request: Request)
    ensures var (after, response) := Handle(catalog, orders, l, request);
      var known := request.orderId in orders;
      var lines := if known then orders[request.orderId].lines else [];
      var readable := known && !LevelsUnreadable(catalog, lines, request.levelsDown);
      var checks := LineChecks(catalog, l.stock, request.warehouseId, lines);
      && (response == CheckFailed(OrderNotFound) <==> !known)
      && (response == CheckFailed(Unavailable) <==> known && !readable)
      && (response.NotReady? <==> readable && request.action == Reserve && !AllServed(checks))
      && (response.MissingProducts? <==> readable && request.action == Release && AnyMissing(catalog, lines))
      && (response.NotReady? ==> response.check.lines == checks && !response.check.ready)
      && (response.MissingProducts? ==> response.check.lines == checks)
      && (!response.Done? && !response.ApplyFailed? ==> after == l)
  {
    if request.orderId in orders {
      var lines := orders[request.orderId].lines;
      UnreadableIffDown(catalog, lines, request.levelsDown);
      MissingIsReported(catalog, l.stock, request.warehouseId, lines);
    }
  }
}
