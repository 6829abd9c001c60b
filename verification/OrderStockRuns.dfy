// Any sequence of reserve and release requests, with any failures: how the two stores stay together.
module OrderStockRuns {
  import opened OrderStock
  import opened StockServices
  import opened StockCheck
  import opened StockReservation
  import opened StockReservationLaws

  type Orders = map<string, Order>

  predicate KeyedById(orders: Orders) {
    forall id :: id in orders ==> orders[id].id == id
  }

  function RunAll(catalog: Catalog, orders: Orders, l: Ledgers, requests: seq<Request>): Ledgers
    decreases |requests|
  {
    if requests == [] then l
    else RunAll(catalog, orders, Handle(catalog, orders, l, requests[0]).0, requests[1..])
  }

  /** The check passes the gate of the request's action, so that the products are handled at all. */
  predicate Applies(catalog: Catalog, orders: Orders, l: Ledgers, request: Request) {
    var response := Handle(catalog, orders, l, request).1;
    response.ApplyFailed? || response.Done?
  }

  function ChecksOf(catalog: Catalog, orders: Orders, l: Ledgers, request: Request): seq<CheckLine> {
    if request.orderId !in orders then []
    else LineChecks(catalog, l.stock, request.warehouseId, orders[request.orderId].lines)
  }

  function RequestLeak(catalog: Catalog, orders: Orders, l: Ledgers, request: Request, p: string, w: string): real {
    if !Applies(catalog, orders, l, request) || request.warehouseId != w then 0.0
    else LeakOf(catalog, l, request.action, request.orderId, w, Aggregates(ChecksOf(catalog, orders, l, request)),
                request.faults, p)
  }

  function RunLeak(catalog: Catalog, orders: Orders, l: Ledgers, requests: seq<Request>, p: string, w: string): real
    decreases |requests|
  {
    if requests == [] then 0.0
    else
      RequestLeak(catalog, orders, l, requests[0], p, w)
      + RunLeak(catalog, orders, Handle(catalog, orders, l, requests[0]).0, requests[1..], p, w)
  }

  /** What the listed orders together have reserved of (p, w), as their own ledger has it. */
  function TotalReserved(ledger: Ledger, ids: seq<string>, p: string, w: string): real {
    if ids == [] then 0.0 else OrderReserved(ledger, ids[0], p, w) + TotalReserved(ledger, ids[1..], p, w)
  }

  predicate Unique(ids: seq<string>) {
    forall i, j :: 0 <= i < j < |ids| ==> ids[i] != ids[j]
  }

  /** How far inventory's reserved quantity is from what all orders together have on their ledger. */
  function Gap(l: Ledgers, ids: seq<string>, p: string, w: string): real {
    LevelAt(l.stock, p, w).reservedQty - TotalReserved(l.ledger, ids, p, w)
  }

  function OnHand(level: StockLevel): real {
    level.reservedQty + level.availableQty
  }

  lemma HandleIsApplyAll(catalog: Catalog, orders: Orders, l: Ledgers, request: Request)
    requires KeyedById(orders)
    ensures !Applies(catalog, orders, l, request) ==> Handle(catalog, orders, l, request).0 == l
    ensures Applies(catalog, orders, l, request) ==>
      && request.orderId in orders
      && Handle(catalog, orders, l, request).0
         == ApplyAll(catalog, l, request.action, request.orderId, request.warehouseId,
                     Aggregates(ChecksOf(catalog, orders, l, request)), request.faults).0
  {}

  /** The units one request moves in its order's row for (p, w). */
  function RequestUnits(catalog: Catalog, orders: Orders, l: Ledgers, request: Request, p: string, w: string): real {
    if !Applies(catalog, orders, l, request) || request.warehouseId != w then 0.0
    else UnitsOf(catalog, l, request.action, request.orderId, w, Aggregates(ChecksOf(catalog, orders, l, request)),
                 request.faults, p)
  }

  lemma AppliedMovesStock(catalog: Catalog, l: Ledgers, request: Request, lines: seq<Aggregate>, p: string, w: string,
                          units: real, leak: real)
    requires request.warehouseId == w
    requires units == UnitsOf(catalog, l, request.action, request.orderId, w, lines, request.faults, p)
    requires leak == LeakOf(catalog, l, request.action, request.orderId, w, lines, request.faults, p)
    ensures LevelAt(ApplyAll(catalog, l, request.action, request.orderId, w, lines, request.faults).0.stock, p, w)
         == Shift(LevelAt(l.stock, p, w), units + leak)
  {
    RequestMovesStock(catalog, l, request.action, request.orderId, w, lines, request.faults, p);
  }

  lemma HandleMovesStock(catalog: Catalog, orders: Orders, l: Ledgers, request: Request, p: string, w: string)
    requires KeyedById(orders)
    ensures LevelAt(Handle(catalog, orders, l, request).0.stock, p, w)
         == Shift(LevelAt(l.stock, p, w),
                  RequestUnits(catalog, orders, l, request, p, w) + RequestLeak(catalog, orders, l, request, p, w))
  {
    HandleIsApplyAll(catalog, orders, l, request);
    var units, leak := RequestUnits(catalog, orders, l, request, p, w), RequestLeak(catalog, orders, l, request, p, w);
    if !Applies(catalog, orders, l, request) {
      ShiftTwice(LevelAt(l.stock, p, w), 0.0, 0.0);
    } else {
      var lines := Aggregates(ChecksOf(catalog, orders, l, request));
      if request.warehouseId == w {
        AppliedMovesStock(catalog, l, request, lines, p, w, units, leak);
      } else {
        OtherWarehousesStay(catalog, l, request.action, request.orderId, request.warehouseId, lines,
                            request.faults, p, w);
        ShiftTwice(LevelAt(l.stock, p, w), 0.0, 0.0);
      }
    }
  }

  lemma HandleMovesLedger(catalog: Catalog, orders: Orders, l: Ledgers, request: Request, o: string, p: string,
                          w: string)
    requires KeyedById(orders)
    ensures OrderReserved(Handle(catalog, orders, l, request).0.ledger, o, p, w)
         == OrderReserved(l.ledger, o, p, w)
            + if o == request.orderId then RequestUnits(catalog, orders, l, request, p, w) else 0.0
  {
    HandleIsApplyAll(catalog, orders, l, request);
    if Applies(catalog, orders, l, request) {
      RequestMovesLedger(catalog, l, request.action, request.orderId, request.warehouseId,
                         Aggregates(ChecksOf(catalog, orders, l, request)), request.faults, o, p, w);
    }
  }

  /** One request: inventory and the order's row move by the same units, plus the request's leak. */
  lemma {:induction false} HandleMoves(catalog: Catalog, orders: Orders, l: Ledgers, request: Request, o: string,
                                       p: string, w: string)
    requires KeyedById(orders)
    ensures var after := Handle(catalog, orders, l, request).0;
      var units := RequestUnits(catalog, orders, l, request, p, w);
      && LevelAt(after.stock, p, w)
         == Shift(LevelAt(l.stock, p, w), units + RequestLeak(catalog, orders, l, request, p, w))
      && OrderReserved(after.ledger, o, p, w)
         == OrderReserved(l.ledger, o, p, w) + if o == request.orderId then units else 0.0
  {
    HandleMovesStock(catalog, orders, l, request, p, w);
    HandleMovesLedger(catalog, orders, l, request, o, p, w);
  }

  lemma {:induction false} TotalAfter(a: Ledger, b: Ledger, ids: seq<string>, id: string, p: string, w: string,
                                      units: real)
    requires Unique(ids)
    requires forall o :: OrderReserved(b, o, p, w) == OrderReserved(a, o, p, w) + if o == id then units else 0.0
    ensures TotalReserved(b, ids, p, w) == TotalReserved(a, ids, p, w) + if id in ids then units else 0.0
  {
    if ids != [] {
      assert Unique(ids[1..]) by {
        forall i, j | 0 <= i < j < |ids[1..]| ensures ids[1..][i] != ids[1..][j] {
          assert ids[i + 1] != ids[j + 1];
        }
      }
      TotalAfter(a, b, ids[1..], id, p, w, units);
      assert id in ids <==> id == ids[0] || id in ids[1..];
      if id == ids[0] {
        assert forall j :: 0 <= j < |ids[1..]| ==> ids[1..][j] == ids[j + 1] != id;
      }
    }
  }

  /** Over any run, whatever fails, inventory and the orders' ledgers drift apart by exactly the leaks, and stock
      on hand never changes. `ids` lists the orders, each once. */
  lemma {:induction false} RunsDriftOnlyByLeaks(catalog: Catalog, orders: Orders, l: Ledgers, requests: seq<Request>,
                                                ids: seq<string>, p: string, w: string)
    requires KeyedById(orders) && Unique(ids) && forall id :: id in orders ==> id in ids
    ensures var end := RunAll(catalog, orders, l, requests);
      && Gap(end, ids, p, w) == Gap(l, ids, p, w) + RunLeak(catalog, orders, l, requests, p, w)
      && OnHand(LevelAt(end.stock, p, w)) == OnHand(LevelAt(l.stock, p, w))
    decreases |requests|
  {
    if requests != [] {
      var after := Handle(catalog, orders, l, requests[0]).0;
      var units := RequestUnits(catalog, orders, l, requests[0], p, w);
      HandleMovesStock(catalog, orders, l, requests[0], p, w);
      forall o ensures OrderReserved(after.ledger, o, p, w)
                    == OrderReserved(l.ledger, o, p, w) + if o == requests[0].orderId then units else 0.0
      {
        HandleMovesLedger(catalog, orders, l, requests[0], o, p, w);
      }
      TotalAfter(l.ledger, after.ledger, ids, requests[0].orderId, p, w, units);
      RunsDriftOnlyByLeaks(catalog, orders, after, requests[1..], ids, p, w);
    }
  }

  /** No request of the run meets a failing rollback or a ledger write that is lost. */
  predicate NoLostWrites(requests: seq<Request>) {
    forall i, p :: 0 <= i < |requests| && p in requests[i].faults ==>
      if requests[i].action == Reserve then !requests[i].faults[p].rollbackDown
      else requests[i].faults[p].write != NotApplied
  }

  // ----- No quantity ever becomes negative -----

  /** Nothing recorded is negative: no order holds less than nothing, so nothing was ever released beyond it. */
  ghost predicate Sound(l: Ledgers) {
    && (forall k :: k in l.ledger ==> l.ledger[k].quantity >= 0.0)
    && (forall p, w :: LevelAt(l.stock, p, w).reservedQty >= 0.0 && LevelAt(l.stock, p, w).availableQty >= 0.0)
  }

  lemma OneProductKeepsSound(catalog: Catalog, l: Ledgers, action: Action, orderId: string, w: string, line: Aggregate,
                             f: Fault)
    requires Sound(l)
    ensures Sound(ApplyOne(catalog, l, action, orderId, w, line, f).0)
  {
    var after := ApplyOne(catalog, l, action, orderId, w, line, f).0;
    forall p', w'
      ensures LevelAt(after.stock, p', w').reservedQty >= 0.0 && LevelAt(after.stock, p', w').availableQty >= 0.0
    {
      OneProductInStock(catalog, l, action, orderId, w, line, f, p', w');
    }
  }

  lemma {:induction false} RequestKeepsSound(catalog: Catalog, l: Ledgers, action: Action, orderId: string, w: string,
                                             lines: seq<Aggregate>, faults: Faults)
    requires Sound(l)
    ensures Sound(ApplyAll(catalog, l, action, orderId, w, lines, faults).0)
    decreases |lines|
  {
    if lines != [] {
      var f := FaultOf(faults, lines[0].productId);
      OneProductKeepsSound(catalog, l, action, orderId, w, lines[0], f);
      var (after, error) := ApplyOne(catalog, l, action, orderId, w, lines[0], f);
      if error.None? {
        RequestKeepsSound(catalog, after, action, orderId, w, lines[1..], faults);
      }
    }
  }

  lemma HandleKeepsSound(catalog: Catalog, orders: Orders, l: Ledgers, request: Request)
    requires Sound(l)
    ensures Sound(Handle(catalog, orders, l, request).0)
  {
    if Applies(catalog, orders, l, request) {
      RequestKeepsSound(catalog, l, request.action, orders[request.orderId].id, request.warehouseId,
                        Aggregates(ChecksOf(catalog, orders, l, request)), request.faults);
    }
  }

  lemma {:induction false} RunsKeepSound(catalog: Catalog, orders: Orders, l: Ledgers, requests: seq<Request>)
    requires Sound(l)
    ensures Sound(RunAll(catalog, orders, l, requests))
    decreases |requests|
  {
    if requests != [] {
      HandleKeepsSound(catalog, orders, l, requests[0]);
      RunsKeepSound(catalog, orders, Handle(catalog, orders, l, requests[0]).0, requests[1..]);
    }
  }

  // ----- The status of a row -----

  /** A row is RELEASED exactly when nothing is left on it. */
  ghost predicate StatusTells(ledger: Ledger) {
    forall k :: k in ledger ==> RowTells(ledger[k])
  }

  predicate RowTells(row: Reservation) {
    row.quantity >= 0.0 && (row.status == Released <==> row.quantity == 0.0)
  }

  lemma OneProductKeepsStatus(catalog: Catalog, l: Ledgers, action: Action, orderId: string, w: string,
                              line: Aggregate, f: Fault)
    requires StatusTells(l.ledger)
    ensures StatusTells(ApplyOne(catalog, l, action, orderId, w, line, f).0.ledger)
  {}

  lemma {:induction false} RequestKeepsStatus(catalog: Catalog, l: Ledgers, action: Action, orderId: string, w: string,
                                              lines: seq<Aggregate>, faults: Faults)
    requires StatusTells(l.ledger)
    ensures StatusTells(ApplyAll(catalog, l, action, orderId, w, lines, faults).0.ledger)
    decreases |lines|
  {
    if lines != [] {
      var f := FaultOf(faults, lines[0].productId);
      OneProductKeepsStatus(catalog, l, action, orderId, w, lines[0], f);
      var (after, error) := ApplyOne(catalog, l, action, orderId, w, lines[0], f);
      if error.None? {
        RequestKeepsStatus(catalog, after, action, orderId, w, lines[1..], faults);
      }
    }
  }

  lemma HandleKeepsStatus(catalog: Catalog, orders: Orders, l: Ledgers, request: Request)
    requires StatusTells(l.ledger)
    ensures StatusTells(Handle(catalog, orders, l, request).0.ledger)
  {
    if Applies(catalog, orders, l, request) {
      RequestKeepsStatus(catalog, l, request.action, orders[request.orderId].id, request.warehouseId,
                         Aggregates(ChecksOf(catalog, orders, l, request)), request.faults);
    }
  }

  /** Over any run, whatever fails, an order's row is RELEASED exactly when nothing is left on it: a row that grows
      again becomes RESERVED again, and one that is only partly released stays so. */
  lemma {:induction false} RunsKeepStatus(catalog: Catalog, orders: Orders, l: Ledgers, requests: seq<Request>)
    requires StatusTells(l.ledger)
    ensures StatusTells(RunAll(catalog, orders, l, requests).ledger)
    decreases |requests|
  {
    if requests != [] {
      HandleKeepsStatus(catalog, orders, l, requests[0]);
      RunsKeepStatus(catalog, orders, Handle(catalog, orders, l, requests[0]).0, requests[1..]);
    }
  }

  // ----- No drift without lost writes -----

  /** Without failing rollbacks and lost ledger writes the two stores never drift apart. */
  lemma {:induction false} RunsWithoutLostWritesDoNotDrift(
    catalog: Catalog, orders: Orders, l: Ledgers, requests: seq<Request>, ids: seq<string>, p: string, w: string)
    requires KeyedById(orders) && Unique(ids) && forall id :: id in orders ==> id in ids
    requires Sound(l) && NoLostWrites(requests)
    ensures Gap(RunAll(catalog, orders, l, requests), ids, p, w) == Gap(l, ids, p, w)
  {
    RunsDriftOnlyByLeaks(catalog, orders, l, requests, ids, p, w);
    NoLeaksWithoutLostWrites(catalog, orders, l, requests, p, w);
  }

  lemma {:induction false} NoLeaksWithoutLostWrites(catalog: Catalog, orders: Orders, l: Ledgers,
                                                    requests: seq<Request>, p: string, w: string)
    requires KeyedById(orders) && Sound(l) && NoLostWrites(requests)
    ensures RunLeak(catalog, orders, l, requests, p, w) == 0.0
    decreases |requests|
  {
    if requests != [] {
      var request := requests[0];
      if Applies(catalog, orders, l, request) {
        assert forall q :: q in request.faults ==> q in requests[0].faults;
        NoLeakWithoutLostWrites(catalog, l, request.action, request.orderId, request.warehouseId,
                                Aggregates(ChecksOf(catalog, orders, l, request)), request.faults, p);
      }
      HandleKeepsSound(catalog, orders, l, request);
      assert forall i :: 0 <= i < |requests| - 1 ==> requests[1..][i] == requests[i + 1];
      NoLeaksWithoutLostWrites(catalog, orders, Handle(catalog, orders, l, request).0, requests[1..], p, w);
    }
  }

  lemma {:induction false} NoLeakWithoutLostWrites(catalog: Catalog, l: Ledgers, action: Action, orderId: string,
                                                   w: string, lines: seq<Aggregate>, faults: Faults, p: string)
    requires Sound(l)
    requires forall q :: q in faults ==>
      if action == Reserve then !faults[q].rollbackDown else faults[q].write != NotApplied
    ensures LeakOf(catalog, l, action, orderId, w, lines, faults, p) == 0.0
    decreases |lines|
  {
    if lines != [] {
      var f := FaultOf(faults, lines[0].productId);
      OneProductKeepsSound(catalog, l, action, orderId, w, lines[0], f);
      var (after, error) := ApplyOne(catalog, l, action, orderId, w, lines[0], f);
      if error.None? {
        NoLeakWithoutLostWrites(catalog, after, action, orderId, w, lines[1..], faults, p);
      } else if action == Reserve {
        RollbackFailsOnlyByOutage(catalog, l, orderId, w, lines[0], f);
      }
    }
  }
}
