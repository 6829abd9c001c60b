// How the order stock operations fit together: check, reserve, pick, release.
module OrderStockFlow {
  import opened OrderStock
  import opened StockServices
  import opened StockCheck
  import opened StockCheckLaws
  import opened StockReservation
  import opened AggregateLaws
  import opened StockReservationLaws
  import opened OrderStockRuns
  import opened PickList
  import opened PickListLaws

  /** None of these products meets an outage. */
  predicate Healthy(lines: seq<Aggregate>, faults: Faults) {
    forall i :: 0 <= i < |lines| ==> FaultOf(faults, lines[i].productId) == HEALTHY
  }

  /** Every line asks for a positive quantity of a known product. */
  predicate Wellformed(catalog: Catalog, lines: seq<Aggregate>) {
    forall i :: 0 <= i < |lines| ==> lines[i].quantity > 0.0 && lines[i].productId in catalog
  }

  lemma TailOf(catalog: Catalog, lines: seq<Aggregate>)
    requires lines != []
    ensures Wellformed(catalog, lines) ==> Wellformed(catalog, lines[1..])
    ensures Distinct(lines) ==> Distinct(lines[1..])
    ensures Distinct(lines) ==> forall i :: 0 <= i < |lines[1..]| ==> lines[1..][i].productId != lines[0].productId
    ensures forall faults :: Healthy(lines, faults) ==> Healthy(lines[1..], faults)
  {
    assert forall i :: 0 <= i < |lines| - 1 ==> lines[1..][i] == lines[i + 1];
  }

  // ----- When every product succeeds -----

  lemma {:induction false} ReserveSucceeds(catalog: Catalog, l: Ledgers, orderId: string, w: string,
                                           lines: seq<Aggregate>, faults: Faults)
    requires Wellformed(catalog, lines) && Distinct(lines) && Healthy(lines, faults)
    requires forall i :: 0 <= i < |lines| ==> lines[i].quantity <= LevelAt(l.stock, lines[i].productId, w).availableQty
    ensures ApplyAll(catalog, l, Reserve, orderId, w, lines, faults).1.Success?
    decreases |lines|
  {
    if lines != [] {
      TailOf(catalog, lines);
      var (after, error) := ApplyOne(catalog, l, Reserve, orderId, w, lines[0], HEALTHY);
      assert error.None?;
      forall i | 0 <= i < |lines[1..]|
        ensures lines[1..][i].quantity <= LevelAt(after.stock, lines[1..][i].productId, w).availableQty
      {
        OneProductInStock(catalog, l, Reserve, orderId, w, lines[0], HEALTHY, lines[1..][i].productId, w);
        assert lines[1..][i] == lines[i + 1];
      }
      ReserveSucceeds(catalog, after, orderId, w, lines[1..], faults);
    }
  }

  lemma {:induction false} ReleaseSucceeds(catalog: Catalog, l: Ledgers, orderId: string, w: string,
                                           lines: seq<Aggregate>, faults: Faults)
    requires Wellformed(catalog, lines) && Distinct(lines) && Healthy(lines, faults)
    requires forall i :: 0 <= i < |lines| ==>
      && lines[i].quantity <= LevelAt(l.stock, lines[i].productId, w).reservedQty
      && lines[i].quantity <= OrderReserved(l.ledger, orderId, lines[i].productId, w)
    ensures ApplyAll(catalog, l, Release, orderId, w, lines, faults).1.Success?
    decreases |lines|
  {
    if lines != [] {
      TailOf(catalog, lines);
      var (after, error) := ApplyOne(catalog, l, Release, orderId, w, lines[0], HEALTHY);
      assert error.None?;
      forall i | 0 <= i < |lines[1..]|
        ensures lines[1..][i].quantity <= LevelAt(after.stock, lines[1..][i].productId, w).reservedQty
        ensures lines[1..][i].quantity <= OrderReserved(after.ledger, orderId, lines[1..][i].productId, w)
      {
        var p := lines[1..][i].productId;
        OneProductInStock(catalog, l, Release, orderId, w, lines[0], HEALTHY, p, w);
        OneProductInLedger(catalog, l, Release, orderId, w, lines[0], HEALTHY, orderId, p, w);
        assert lines[1..][i] == lines[i + 1];
      }
      ReleaseSucceeds(catalog, after, orderId, w, lines[1..], faults);
    }
  }

  function QuantityOf(lines: seq<Aggregate>, p: string): real {
    if lines == [] then 0.0
    else (if lines[0].productId == p then lines[0].quantity else 0.0) + QuantityOf(lines[1..], p)
  }

  function Signed(action: Action, q: real): real {
    match action
    case Reserve => q
    case Release => -q
  }

  /** A request that succeeds moves every line's quantity, leaks nothing, and only ever had positive quantities. */
  lemma {:induction false} SuccessMoves(catalog: Catalog, l: Ledgers, action: Action, orderId: string, w: string,
                                        lines: seq<Aggregate>, faults: Faults, p: string)
    requires ApplyAll(catalog, l, action, orderId, w, lines, faults).1.Success?
    ensures UnitsOf(catalog, l, action, orderId, w, lines, faults, p) == Signed(action, QuantityOf(lines, p))
    ensures LeakOf(catalog, l, action, orderId, w, lines, faults, p) == 0.0
    ensures Wellformed(catalog, lines)
    decreases |lines|
  {
    if lines != [] {
      var f := FaultOf(faults, lines[0].productId);
      var (after, error) := ApplyOne(catalog, l, action, orderId, w, lines[0], f);
      NoErrorNoLeak(catalog, l, action, orderId, w, lines[0], f);
      SuccessMoves(catalog, after, action, orderId, w, lines[1..], faults, p);
      assert forall i :: 1 <= i < |lines| ==> lines[i] == lines[1..][i - 1];
    }
  }

  lemma {:induction false} QuantityOfDistinct(lines: seq<Aggregate>, p: string)
    requires Distinct(lines)
    ensures forall i :: 0 <= i < |lines| && lines[i].productId == p ==> QuantityOf(lines, p) == lines[i].quantity
    ensures (forall i :: 0 <= i < |lines| ==> lines[i].productId != p) ==> QuantityOf(lines, p) == 0.0
  {
    if lines != [] {
      TailOf(map[], lines);
      QuantityOfDistinct(lines[1..], p);
      assert forall i :: 1 <= i < |lines| ==> lines[i] == lines[1..][i - 1];
    }
  }

  lemma QuantityIsDemand(catalog: Catalog, lines: seq<OrderLine>, aggregates: seq<Aggregate>, p: string)
    requires AreAggregates(catalog, lines, aggregates)
    ensures QuantityOf(aggregates, p) == Demand(catalog, lines, p)
  {
    QuantityOfDistinct(aggregates, p);
    if AnyTracks(catalog, lines, p) {
      var i :| 0 <= i < |aggregates| && aggregates[i].productId == p;
    } else {
      UntrackedHasNoDemand(catalog, lines, p);
    }
  }

  // ----- Whole requests -----

  /** The order's aggregates, whatever the stock. */
  function OrderAggregates(catalog: Catalog, orders: Orders, orderId: string, w: string): seq<Aggregate>
    requires orderId in orders
  {
    Aggregates(LineChecks(catalog, map[], w, orders[orderId].lines))
  }

  lemma SameAggregates(catalog: Catalog, orders: Orders, l: Ledgers, request: Request)
    requires request.orderId in orders
    ensures ChecksOf(catalog, orders, l, request)
         == LineChecks(catalog, l.stock, request.warehouseId, orders[request.orderId].lines)
    ensures Aggregates(ChecksOf(catalog, orders, l, request))
         == OrderAggregates(catalog, orders, request.orderId, request.warehouseId)
    ensures AreAggregates(catalog, orders[request.orderId].lines,
                          OrderAggregates(catalog, orders, request.orderId, request.warehouseId))
  {
    AggregatesIgnoreStock(catalog, l.stock, map[], request.warehouseId, orders[request.orderId].lines);
    AggregatesOfCheck(catalog, map[], request.warehouseId, orders[request.orderId].lines);
  }

  function DemandOf(catalog: Catalog, orders: Orders, orderId: string, p: string): real {
    if orderId in orders then Demand(catalog, orders[orderId].lines, p) else 0.0
  }

  /** A request that succeeds moves exactly the order's demand, in both stores. */
  lemma {:induction false} DoneMovesDemand(catalog: Catalog, orders: Orders, l: Ledgers, request: Request, o: string,
                                           p: string, w: string)
    requires KeyedById(orders) && Handle(catalog, orders, l, request).1.Done?
    ensures var after := Handle(catalog, orders, l, request).0;
      var units := if request.warehouseId == w
                   then Signed(request.action, DemandOf(catalog, orders, request.orderId, p)) else 0.0;
      && RequestUnits(catalog, orders, l, request, p, w) == units
      && RequestLeak(catalog, orders, l, request, p, w) == 0.0
      && LevelAt(after.stock, p, w) == Shift(LevelAt(l.stock, p, w), units)
      && OrderReserved(after.ledger, o, p, w)
         == OrderReserved(l.ledger, o, p, w) + if o == request.orderId then units else 0.0
  {
    HandleMoves(catalog, orders, l, request, o, p, w);
    HandleIsApplyAll(catalog, orders, l, request);
    SameAggregates(catalog, orders, l, request);
    var aggregates := OrderAggregates(catalog, orders, request.orderId, request.warehouseId);
    DoneMeansApplied(catalog, orders, l, request);
    SuccessMoves(catalog, l, request.action, request.orderId, request.warehouseId, aggregates, request.faults, p);
    QuantityIsDemand(catalog, orders[request.orderId].lines, aggregates, p);
  }

  lemma DoneMeansApplied(catalog: Catalog, orders: Orders, l: Ledgers, request: Request)
    requires KeyedById(orders) && request.orderId in orders
    ensures Handle(catalog, orders, l, request).1.Done? <==>
      && Applies(catalog, orders, l, request)
      && ApplyAll(catalog, l, request.action, request.orderId, request.warehouseId,
                  OrderAggregates(catalog, orders, request.orderId, request.warehouseId), request.faults).1.Success?
  {
    DoneIsSuccess(catalog, orders, l, request, Aggregates(ChecksOf(catalog, orders, l, request)));
    SameAggregates(catalog, orders, l, request);
  }

  lemma DoneIsSuccess(catalog: Catalog, orders: Orders, l: Ledgers, request: Request, lines: seq<Aggregate>)
    requires KeyedById(orders) && request.orderId in orders
    requires lines == Aggregates(ChecksOf(catalog, orders, l, request))
    ensures Handle(catalog, orders, l, request).1.Done? <==>
      && Applies(catalog, orders, l, request)
      && ApplyAll(catalog, l, request.action, request.orderId, request.warehouseId, lines, request.faults).1.Success?
  {}

  /** When a request reaches the products at all. */
  lemma WhenItApplies(catalog: Catalog, orders: Orders, l: Ledgers, request: Request)
    ensures Applies(catalog, orders, l, request) <==>
      && request.orderId in orders
      && var lines := orders[request.orderId].lines;
         && !LevelsDown(catalog, lines, request.levelsDown)
         && (request.action == Reserve ==> AllServed(LineChecks(catalog, l.stock, request.warehouseId, lines)))
         && (request.action == Release ==> !AnyMissing(catalog, lines))
  {
    if request.orderId in orders {
      MissingIsReported(catalog, l.stock, request.warehouseId, orders[request.orderId].lines);
    }
  }

  lemma {:induction false} MissingIsReported(catalog: Catalog, stock: Stock, w: string, lines: seq<OrderLine>)
    ensures HasStatus(LineChecks(catalog, stock, w, lines), ProductNotFound) <==> AnyMissing(catalog, lines)
  {
    if lines != [] {
      var n := |lines| - 1;
      MissingIsReported(catalog, stock, w, lines[..n]);
      AnyMissingLast(catalog, lines);
      HasStatusAppend(LineChecks(catalog, stock, w, lines[..n]), LineCheck(catalog, stock, w, lines[..n], lines[n]),
                      ProductNotFound);
    }
  }

  lemma HasStatusAppend(checks: seq<CheckLine>, check: CheckLine, status: LineStatus)
    ensures HasStatus(checks + [check], status) <==> HasStatus(checks, status) || check.status == status
  {
    if HasStatus(checks, status) {
      var i :| 0 <= i < |checks| && checks[i].status == status;
      assert (checks + [check])[i].status == status;
    }
    if check.status == status {
      assert (checks + [check])[|checks|].status == status;
    }
  }

  predicate NoOutage(request: Request) {
    request.levelsDown == {} && request.faults == map[]
  }

  /** The table of stock levels holds at most one row per product and warehouse. */
  predicate OneRowPerWarehouse(stock: Stock) {
    forall p, i, j :: p in stock && 0 <= i < j < |stock[p]| ==> stock[p][i].warehouseId != stock[p][j].warehouseId
  }

  lemma {:induction false} SoleRow(levels: seq<StockLevel>, w: string)
    requires forall i, j :: 0 <= i < j < |levels| ==> levels[i].warehouseId != levels[j].warehouseId
    requires w != ""
    ensures SumAvailable(levels, w) == LevelIn(levels, w).availableQty
  {
    if levels != [] {
      var n := |levels| - 1;
      SoleRow(levels[..n], w);
      LevelInLonger(levels[..n], levels[n], w);
      assert levels == levels[..n] + [levels[n]];
      if !exists i :: 0 <= i < n && levels[..n][i].warehouseId == w {
        NoRow(levels[..n], w);
      }
    }
  }

  lemma {:induction false} LevelInLonger(levels: seq<StockLevel>, level: StockLevel, w: string)
    ensures LevelIn(levels + [level], w)
         == if exists i :: 0 <= i < |levels| && levels[i].warehouseId == w then LevelIn(levels, w)
            else if level.warehouseId == w then level
            else StockLevel(w, 0.0, 0.0, 0.0)
  {
    if levels != [] {
      assert (levels + [level])[1..] == levels[1..] + [level];
      LevelInLonger(levels[1..], level, w);
      assert forall i :: 1 <= i < |levels| ==> levels[i] == levels[1..][i - 1];
    }
  }

  lemma {:induction false} NoRow(levels: seq<StockLevel>, w: string)
    requires forall i :: 0 <= i < |levels| ==> levels[i].warehouseId != w
    ensures LevelIn(levels, w).availableQty == 0.0
  {
    if levels != [] {
      NoRow(levels[1..], w);
    }
  }

  /** A ready check keeps its promise: with no outage, reserving an order found ready succeeds for every product. */
  lemma ReadyOrdersAreReserved(catalog: Catalog, orders: Orders, l: Ledgers, request: Request)
    requires KeyedById(orders) && request.orderId in orders && Positive(orders[request.orderId].lines)
    requires request.action == Reserve && request.warehouseId != "" && NoOutage(request)
    requires OneRowPerWarehouse(l.stock)
    ensures Handle(catalog, orders, l, request).1.Done?
       <==> AllServed(LineChecks(catalog, l.stock, request.warehouseId, orders[request.orderId].lines))
  {
    WhenItApplies(catalog, orders, l, request);
    DoneMeansApplied(catalog, orders, l, request);
    SameAggregates(catalog, orders, l, request);
    var lines, w := orders[request.orderId].lines, request.warehouseId;
    var aggregates := OrderAggregates(catalog, orders, request.orderId, w);
    if AllServed(LineChecks(catalog, l.stock, w, lines)) {
      ReadyIffDemandFits(catalog, l.stock, w, lines);
      FittingDemandIsReserved(catalog, l, request.orderId, w, lines, aggregates, request.faults);
    }
  }

  lemma FittingDemandIsReserved(catalog: Catalog, l: Ledgers, orderId: string, w: string, lines: seq<OrderLine>,
                                aggregates: seq<Aggregate>, faults: Faults)
    requires Positive(lines) && AreAggregates(catalog, lines, aggregates) && DemandFits(catalog, l.stock, w, lines)
    requires w != "" && faults == map[] && OneRowPerWarehouse(l.stock)
    ensures ApplyAll(catalog, l, Reserve, orderId, w, aggregates, faults).1.Success?
  {
    forall i | 0 <= i < |aggregates|
      ensures aggregates[i].quantity > 0.0 && aggregates[i].productId in catalog
      ensures aggregates[i].quantity <= LevelAt(l.stock, aggregates[i].productId, w).availableQty
    {
      TrackedDemandIsPositive(catalog, lines, aggregates[i].productId);
      SoleRow(LevelsOf(l.stock, aggregates[i].productId), w);
    }
    ReserveSucceeds(catalog, l, orderId, w, aggregates, faults);
  }

  // ----- Reserve, then release -----

  /** Both stores read the same: the level of p in w, and what o has reserved there. */
  predicate SameAt(a: Ledgers, b: Ledgers, o: string, p: string, w: string) {
    && LevelAt(b.stock, p, w) == LevelAt(a.stock, p, w)
    && OrderReserved(b.ledger, o, p, w) == OrderReserved(a.ledger, o, p, w)
  }

  ghost predicate Restored(a: Ledgers, b: Ledgers) {
    forall o, p, w :: SameAt(a, b, o, p, w)
  }

  /** A release with no outage goes through when the order and inventory both still hold the demand. */
  lemma HeldOrdersAreReleased(catalog: Catalog, orders: Orders, l: Ledgers, request: Request)
    requires KeyedById(orders) && request.orderId in orders
    requires request.action == Release && NoOutage(request)
    requires !AnyMissing(catalog, orders[request.orderId].lines)
    requires Wellformed(catalog, OrderAggregates(catalog, orders, request.orderId, request.warehouseId))
    requires forall p :: AnyTracks(catalog, orders[request.orderId].lines, p) ==>
      && DemandOf(catalog, orders, request.orderId, p) <= LevelAt(l.stock, p, request.warehouseId).reservedQty
      && DemandOf(catalog, orders, request.orderId, p)
         <= OrderReserved(l.ledger, request.orderId, p, request.warehouseId)
    ensures Handle(catalog, orders, l, request).1.Done?
  {
    WhenItApplies(catalog, orders, l, request);
    DoneMeansApplied(catalog, orders, l, request);
    SameAggregates(catalog, orders, l, request);
    ReleaseSucceeds(catalog, l, request.orderId, request.warehouseId,
                    OrderAggregates(catalog, orders, request.orderId, request.warehouseId), request.faults);
  }

  /** What a successful reserve tells about the order itself. */
  lemma ReservedOrdersAreWellformed(catalog: Catalog, orders: Orders, l: Ledgers, request: Request)
    requires KeyedById(orders) && request.action == Reserve && Handle(catalog, orders, l, request).1.Done?
    ensures request.orderId in orders
    ensures !AnyMissing(catalog, orders[request.orderId].lines)
    ensures Wellformed(catalog, OrderAggregates(catalog, orders, request.orderId, request.warehouseId))
  {
    HandleIsApplyAll(catalog, orders, l, request);
    DoneMeansApplied(catalog, orders, l, request);
    WhenItApplies(catalog, orders, l, request);
    ReadyIffPrefixesFit(catalog, l.stock, request.warehouseId, orders[request.orderId].lines);
    SuccessMoves(catalog, l, Reserve, request.orderId, request.warehouseId,
                 OrderAggregates(catalog, orders, request.orderId, request.warehouseId), request.faults, "");
  }

  /** A reserve directly followed by a successful release, as seen at any level and any row. */
  lemma ThereAndBack(catalog: Catalog, orders: Orders, l: Ledgers, reserve: Request, between: Ledgers, release: Request,
                     end: Ledgers, o: string, p: string, w: string)
    requires KeyedById(orders) && reserve.action == Reserve && release.action == Release
    requires release.orderId == reserve.orderId && release.warehouseId == reserve.warehouseId
    requires Handle(catalog, orders, l, reserve).1.Done? && between == Handle(catalog, orders, l, reserve).0
    requires Handle(catalog, orders, between, release).1.Done? && end == Handle(catalog, orders, between, release).0
    ensures SameAt(l, end, o, p, w)
  {
    var units := if reserve.warehouseId == w then DemandOf(catalog, orders, reserve.orderId, p) else 0.0;
    DoneMovesStores(catalog, orders, l, reserve, between, o, p, w, units);
    DoneMovesStores(catalog, orders, between, release, end, o, p, w, -units);
    ShiftTwice(LevelAt(l.stock, p, w), units, -units);
  }

  /** What a request that succeeds does to one level and one row. */
  lemma DoneMovesStores(catalog: Catalog, orders: Orders, l: Ledgers, request: Request, after: Ledgers,
                        o: string, p: string, w: string, units: real)
    requires KeyedById(orders) && Handle(catalog, orders, l, request).1.Done?
    requires after == Handle(catalog, orders, l, request).0
    requires units == if request.warehouseId == w
                      then Signed(request.action, DemandOf(catalog, orders, request.orderId, p)) else 0.0
    ensures LevelAt(after.stock, p, w) == Shift(LevelAt(l.stock, p, w), units)
    ensures OrderReserved(after.ledger, o, p, w)
         == OrderReserved(l.ledger, o, p, w) + if o == request.orderId then units else 0.0
  {
    DoneMovesDemand(catalog, orders, l, request, o, p, w);
  }

  /** Right after a reserve both stores hold at least the order's demand. */
  lemma ReservedOrdersAreHeld(catalog: Catalog, orders: Orders, l: Ledgers, reserve: Request, p: string)
    requires KeyedById(orders) && Sound(l) && reserve.action == Reserve
    requires Handle(catalog, orders, l, reserve).1.Done?
    ensures var between, demand := Handle(catalog, orders, l, reserve).0, DemandOf(catalog, orders, reserve.orderId, p);
      && demand <= LevelAt(between.stock, p, reserve.warehouseId).reservedQty
      && demand <= OrderReserved(between.ledger, reserve.orderId, p, reserve.warehouseId)
  {
    DoneMovesDemand(catalog, orders, l, reserve, reserve.orderId, p, reserve.warehouseId);
  }

  /** Releasing an order right after reserving it succeeds and puts both stores back. */
  lemma {:induction false} ReleaseUndoesReserve(catalog: Catalog, orders: Orders, l: Ledgers, reserve: Request,
                                                release: Request)
    requires KeyedById(orders) && Sound(l)
    requires reserve.action == Reserve && release.action == Release && NoOutage(release)
    requires release.orderId == reserve.orderId && release.warehouseId == reserve.warehouseId
    requires Handle(catalog, orders, l, reserve).1.Done?
    ensures var between := Handle(catalog, orders, l, reserve).0;
      && Handle(catalog, orders, between, release).1.Done?
      && Restored(l, Handle(catalog, orders, between, release).0)
  {
    var between := Handle(catalog, orders, l, reserve).0;
    assert Handle(catalog, orders, between, release).1.Done? by {
      ReservedOrdersAreWellformed(catalog, orders, l, reserve);
      forall p { ReservedOrdersAreHeld(catalog, orders, l, reserve, p); }
      HeldOrdersAreReleased(catalog, orders, between, release);
    }
    var end := Handle(catalog, orders, between, release).0;
    forall o, p, w ensures SameAt(l, end, o, p, w) {
      ThereAndBack(catalog, orders, l, reserve, between, release, end, o, p, w);
    }
  }

  // ----- Reserve, other orders, then release -----

  predicate NotAbout(requests: seq<Request>, orderId: string) {
    forall i :: 0 <= i < |requests| ==> requests[i].orderId != orderId
  }

  lemma {:induction false} OthersLeaveOrderAlone(catalog: Catalog, orders: Orders, l: Ledgers, requests: seq<Request>,
                                                 o: string, p: string, w: string)
    requires KeyedById(orders) && NotAbout(requests, o)
    ensures OrderReserved(RunAll(catalog, orders, l, requests).ledger, o, p, w) == OrderReserved(l.ledger, o, p, w)
    decreases |requests|
  {
    if requests != [] {
      HandleMoves(catalog, orders, l, requests[0], o, p, w);
      assert forall i :: 0 <= i < |requests| - 1 ==> requests[1..][i] == requests[i + 1];
      OthersLeaveOrderAlone(catalog, orders, Handle(catalog, orders, l, requests[0]).0, requests[1..], o, p, w);
    }
  }

  lemma {:induction false} OwnPartOfTotal(l: Ledgers, ids: seq<string>, o: string, p: string, w: string)
    requires Sound(l) && Unique(ids)
    ensures TotalReserved(l.ledger, ids, p, w) >= 0.0
    ensures o in ids ==> OrderReserved(l.ledger, o, p, w) <= TotalReserved(l.ledger, ids, p, w)
  {
    if ids != [] {
      assert forall i :: 0 <= i < |ids| - 1 ==> ids[1..][i] == ids[i + 1];
      OwnPartOfTotal(l, ids[1..], o, p, w);
    }
  }

  /** What an order has reserved stays releasable, however many other orders reserve and release in between and
      whatever fails for them, as long as no ledger write or rollback is lost. */
  lemma {:induction false} ReservationsStayReleasable(catalog: Catalog, orders: Orders, l: Ledgers, ids: seq<string>,
                                                      reserve: Request, others: seq<Request>, release: Request)
    requires KeyedById(orders) && Unique(ids) && forall id :: id in orders ==> id in ids
    requires Sound(l) && forall p, w :: Gap(l, ids, p, w) == 0.0
    requires reserve.action == Reserve && release.action == Release && NoOutage(release)
    requires release.orderId == reserve.orderId && release.warehouseId == reserve.warehouseId
    requires Handle(catalog, orders, l, reserve).1.Done?
    requires NotAbout(others, reserve.orderId) && NoLostWrites(others)
    ensures Handle(catalog, orders, RunAll(catalog, orders, Handle(catalog, orders, l, reserve).0, others),
                   release).1.Done?
  {
    var id, w := reserve.orderId, reserve.warehouseId;
    var between := Handle(catalog, orders, l, reserve).0;
    var later := RunAll(catalog, orders, between, others);
    ReservedOrdersAreWellformed(catalog, orders, l, reserve);
    HandleKeepsSound(catalog, orders, l, reserve);
    RunsKeepSound(catalog, orders, between, others);
    forall p | AnyTracks(catalog, orders[id].lines, p)
      ensures DemandOf(catalog, orders, id, p) <= OrderReserved(later.ledger, id, p, w)
                                               <= LevelAt(later.stock, p, w).reservedQty
    {
      DoneMovesDemand(catalog, orders, l, reserve, id, p, w);
      OthersLeaveOrderAlone(catalog, orders, between, others, id, p, w);
      ReservingKeepsGap(catalog, orders, l, ids, reserve, p, w);
      RunsWithoutLostWritesDoNotDrift(catalog, orders, between, others, ids, p, w);
      OwnPartOfTotal(later, ids, id, p, w);
    }
    HeldOrdersAreReleased(catalog, orders, later, release);
  }

  lemma ReservingKeepsGap(catalog: Catalog, orders: Orders, l: Ledgers, ids: seq<string>, request: Request,
                          p: string, w: string)
    requires KeyedById(orders) && Unique(ids) && forall id :: id in orders ==> id in ids
    requires Handle(catalog, orders, l, request).1.Done?
    ensures Gap(Handle(catalog, orders, l, request).0, ids, p, w) == Gap(l, ids, p, w)
  {
    DoneMovesDemand(catalog, orders, l, request, "", p, w);
    RunsDriftOnlyByLeaks(catalog, orders, l, [request], ids, p, w);
    assert RunAll(catalog, orders, l, [request]) == Handle(catalog, orders, l, request).0;
    assert RunLeak(catalog, orders, l, [request], p, w) == 0.0;
  }

  // ----- Reserve, then pick -----

  /** The rows that the ledger lists for an order, each once, in whatever order. */
  ghost predicate Lists(rows: seq<Row>, ledger: Ledger, orderId: string) {
    && (forall i :: 0 <= i < |rows| ==>
          rows[i].key.orderId == orderId && rows[i].key in ledger && rows[i].reservation == ledger[rows[i].key])
    && (forall k :: k in ledger && k.orderId == orderId ==> exists i :: 0 <= i < |rows| && rows[i].key == k)
    && (forall i, j :: 0 <= i < j < |rows| ==> rows[i].key != rows[j].key)
  }

  /** Among rows with distinct keys, what is reserved of p in w is what the one row of (p, w) says. */
  lemma {:induction false} RowsReservedIsOwnRow(rows: seq<Row>, orderId: string, p: string, w: string)
    requires forall i :: 0 <= i < |rows| ==> rows[i].key.orderId == orderId
    requires forall i, j :: 0 <= i < j < |rows| ==> rows[i].key != rows[j].key
    ensures (forall i :: 0 <= i < |rows| ==> rows[i].key != ReservationKey(orderId, p, w)) ==>
      RowsReserved(rows, p, w) == 0.0
    ensures forall i :: 0 <= i < |rows| && rows[i].key == ReservationKey(orderId, p, w) ==>
      RowsReserved(rows, p, w)
      == if rows[i].reservation.status == Reserved then rows[i].reservation.quantity else 0.0
  {
    if rows != [] {
      RowsReservedIsOwnRow(rows[..|rows| - 1], orderId, p, w);
    }
  }

  /** After a successful reserve every aggregated product has a row, and the row counts. */
  lemma {:induction false} ReservedRowsCount(catalog: Catalog, l: Ledgers, orderId: string, w: string,
                                             lines: seq<Aggregate>, faults: Faults, i: nat)
    requires ApplyAll(catalog, l, Reserve, orderId, w, lines, faults).1.Success? && i < |lines| && Distinct(lines)
    ensures var ledger, key := ApplyAll(catalog, l, Reserve, orderId, w, lines, faults).0.ledger,
                               ReservationKey(orderId, lines[i].productId, w);
      key in ledger && ledger[key].status == Reserved
    decreases |lines|
  {
    var f := FaultOf(faults, lines[0].productId);
    var after := ApplyOne(catalog, l, Reserve, orderId, w, lines[0], f).0;
    TailOf(catalog, lines);
    if i > 0 {
      ReservedRowsCount(catalog, after, orderId, w, lines[1..], faults, i - 1);
    } else {
      OwnRowCounts(catalog, l, orderId, w, lines[0], f);
      FirstIsNotRepeated(lines);
      RowKept(catalog, after, orderId, w, lines[1..], faults, lines[0].productId);
    }
  }

  lemma OwnRowCounts(catalog: Catalog, l: Ledgers, orderId: string, w: string, line: Aggregate, f: Fault)
    requires ApplyOne(catalog, l, Reserve, orderId, w, line, f).1.None?
    ensures var ledger, key := ApplyOne(catalog, l, Reserve, orderId, w, line, f).0.ledger,
                               ReservationKey(orderId, line.productId, w);
      key in ledger && ledger[key].status == Reserved
  {}

  lemma FirstIsNotRepeated(lines: seq<Aggregate>)
    requires lines != [] && Distinct(lines)
    ensures forall i :: 0 <= i < |lines[1..]| ==> lines[1..][i].productId != lines[0].productId
  {
    assert forall i :: 0 <= i < |lines[1..]| ==> lines[1..][i] == lines[i + 1];
  }

  lemma {:induction false} RowKept(catalog: Catalog, l: Ledgers, orderId: string, w: string, lines: seq<Aggregate>,
                                   faults: Faults, p: string)
    requires forall i :: 0 <= i < |lines| ==> lines[i].productId != p
    ensures Same(l.ledger, ApplyAll(catalog, l, Reserve, orderId, w, lines, faults).0.ledger,
                 ReservationKey(orderId, p, w))
    decreases |lines|
  {
    if lines != [] {
      var (after, error) := ApplyOne(catalog, l, Reserve, orderId, w, lines[0], FaultOf(faults, lines[0].productId));
      if error.None? {
        RowKept(catalog, after, orderId, w, lines[1..], faults, p);
      }
    }
  }

  /** Once an order is reserved in a warehouse, its pick list there is ready and every tracked line is picked in
      full, whatever was reserved before and whatever stock the pick list finds. */
  lemma ReservedOrdersCanBePicked(catalog: Catalog, orders: Orders, l: Ledgers, reserve: Request, rows: seq<Row>,
                                  stock: Stock)
    requires KeyedById(orders) && Sound(l) && reserve.action == Reserve
    requires Handle(catalog, orders, l, reserve).1.Done? && NonNegative(orders[reserve.orderId].lines)
    requires Lists(rows, Handle(catalog, orders, l, reserve).0.ledger, reserve.orderId)
    ensures var lines := orders[reserve.orderId].lines;
      var picks := PicksFor(catalog, stock, rows, reserve.warehouseId, lines);
      && AllPicked(picks)
      && forall i :: 0 <= i < |lines| && Tracked(catalog, lines[i]) ==>
           picks[i].pickQty == lines[i].quantity && picks[i].shortageQty == 0.0
  {
    var id, w, lines := reserve.orderId, reserve.warehouseId, orders[reserve.orderId].lines;
    ReservedOrdersAreWellformed(catalog, orders, l, reserve);
    forall p | AnyTracks(catalog, lines, p) ensures Demand(catalog, lines, p) <= RowsReserved(rows, p, w) {
      ReservedRowCovers(catalog, orders, l, reserve, rows, p);
    }
    PicksReadyIffCovered(catalog, stock, rows, w, lines);
    forall i | 0 <= i < |lines| && Tracked(catalog, lines[i])
      ensures PicksFor(catalog, stock, rows, w, lines)[i].pickQty == lines[i].quantity
      ensures PicksFor(catalog, stock, rows, w, lines)[i].shortageQty == 0.0
    {
      ReadyPicksInFull(catalog, stock, rows, w, lines, i);
    }
  }

  lemma ReservedRowCovers(catalog: Catalog, orders: Orders, l: Ledgers, reserve: Request, rows: seq<Row>, p: string)
    requires KeyedById(orders) && Sound(l) && reserve.action == Reserve
    requires Handle(catalog, orders, l, reserve).1.Done?
    requires Lists(rows, Handle(catalog, orders, l, reserve).0.ledger, reserve.orderId)
    requires AnyTracks(catalog, orders[reserve.orderId].lines, p)
    ensures Demand(catalog, orders[reserve.orderId].lines, p) <= RowsReserved(rows, p, reserve.warehouseId)
  {
    var id, w := reserve.orderId, reserve.warehouseId;
    var ledger, key := Handle(catalog, orders, l, reserve).0.ledger, ReservationKey(id, p, w);
    DoneMovesDemand(catalog, orders, l, reserve, id, p, w);
    DoneMeansApplied(catalog, orders, l, reserve);
    HandleIsApplyAll(catalog, orders, l, reserve);
    SameAggregates(catalog, orders, l, reserve);
    var aggregates := OrderAggregates(catalog, orders, id, w);
    var i :| 0 <= i < |aggregates| && aggregates[i].productId == p;
    ReservedRowsCount(catalog, l, id, w, aggregates, reserve.faults, i);
    var j :| 0 <= j < |rows| && rows[j].key == key;
    RowsReservedIsOwnRow(rows, id, p, w);
  }
}
