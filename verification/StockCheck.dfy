// The greedy stock check of an order against one warehouse (or all of them).
module StockCheck {
  import opened Options
  import opened OrderStock
  import opened StockServices

  datatype LineStatus = Available | Shortage | NotTracked | ProductNotFound

  datatype CheckLine = CheckLine(
    lineId: string, lineNumber: int, description: string,
    productId: string, productCode: string, productName: string,
    requiredQty: real, availableQty: real, shortageQty: real, status: LineStatus)

  datatype Check = Check(orderId: string, orderNumber: string, warehouseId: string, ready: bool, lines: seq<CheckLine>)

  /** What is left of p after serving the lines one by one from an initial quantity. */
  function Remaining(catalog: Catalog, lines: seq<OrderLine>, p: string, initial: real): real {
    if lines == [] then initial
    else
      var last := lines[|lines| - 1];
      var left := Remaining(catalog, lines[..|lines| - 1], p, initial);
      if !Tracks(catalog, last, p) then left
      else if left < last.quantity then 0.0
      else left - last.quantity
  }

  /** The check of the line that comes after `served`. */
  function LineCheck(catalog: Catalog, stock: Stock, w: string, served: seq<OrderLine>, line: OrderLine): CheckLine {
    var p := ProductRef(line);
    var blank := CheckLine(line.id, line.lineNumber, line.description, p, "", "", line.quantity, 0.0, 0.0, NotTracked);
    if p == "" then blank
    else if p !in catalog then blank.(status := ProductNotFound, shortageQty := line.quantity)
    else
      var named := blank.(productCode := catalog[p].code, productName := catalog[p].name);
      if !Tracked(catalog, line) then named
      else
        var left := Remaining(catalog, served, p, Availability(stock, w, p));
        if left < line.quantity
        then named.(status := Shortage, availableQty := left, shortageQty := line.quantity - left)
        else named.(status := Available, availableQty := left)
  }

  function LineChecks(catalog: Catalog, stock: Stock, w: string, lines: seq<OrderLine>): (checks: seq<CheckLine>)
    ensures |checks| == |lines|
  {
    if lines == [] then []
    else
      var n := |lines| - 1;
      LineChecks(catalog, stock, w, lines[..n]) + [LineCheck(catalog, stock, w, lines[..n], lines[n])]
  }

  predicate Served(line: CheckLine) {
    line.status == Available || line.status == NotTracked
  }

  predicate AllServed(checks: seq<CheckLine>) {
    forall i :: 0 <= i < |checks| ==> Served(checks[i])
  }

  function CheckOf(catalog: Catalog, stock: Stock, w: string, order: Order): Check {
    var checks := LineChecks(catalog, stock, w, order.lines);
    Check(order.id, order.number, w, AllServed(checks), checks)
  }

  /** Reading the levels of some tracked product fails. */
  predicate LevelsDown(catalog: Catalog, lines: seq<OrderLine>, down: set<string>) {
    exists p :: p in down && AnyTracks(catalog, lines, p)
  }

  /** The whole request: an unknown order, a failed read of stock levels, or a check. */
  function CheckOutcome(catalog: Catalog, stock: Stock, orders: map<string, Order>, orderId: string, w: string,
                        down: set<string>): Result<Check, ServiceError>
  {
    if orderId !in orders then Failure(OrderNotFound)
    else if LevelsDown(catalog, orders[orderId].lines, down) then Failure(Unavailable)
    else Success(CheckOf(catalog, stock, w, orders[orderId]))
  }

  /** What is left of the line's product once the line is served too. */
  function LeftAfter(catalog: Catalog, stock: Stock, w: string, served: seq<OrderLine>, line: OrderLine): real {
    var p := ProductRef(line);
    var left := Remaining(catalog, served, p, Availability(stock, w, p));
    if left < line.quantity then 0.0 else left - line.quantity
  }

  /** The loop's cache: exactly the products met so far, each with what is left of it. */
  ghost predicate Caches(catalog: Catalog, stock: Stock, w: string, down: set<string>, served: seq<OrderLine>,
                         remaining: map<string, real>)
  {
    && (forall p :: p in remaining <==> AnyTracks(catalog, served, p))
    && (forall p :: p in remaining ==>
          p !in down && remaining[p] == Remaining(catalog, served, p, Availability(stock, w, p)))
  }

  method BuildOrderStockCheck(inventory: InventoryService, orders: OrdersService, orderId: string, w: string,
                              down: set<string>)
    returns (r: Result<Check, ServiceError>)
    ensures r == CheckOutcome(inventory.catalog, inventory.stock, orders.orders, orderId, w, down)
  {
    if orderId !in orders.orders {
      return Failure(OrderNotFound);
    }
    var order := orders.orders[orderId];
    var lines: seq<CheckLine>, ready := [], true;
    var remaining: map<string, real> := map[];
    for i := 0 to |order.lines|
      invariant lines == LineChecks(inventory.catalog, inventory.stock, w, order.lines[..i])
      invariant ready == AllServed(lines)
      invariant Caches(inventory.catalog, inventory.stock, w, down, order.lines[..i], remaining)
    {
      var before := remaining;
      var checked;
      checked, remaining := CheckOneLine(inventory, w, down, order.lines[i], before, order.lines[..i]);
      if checked.Failure? {
        LineTracks(inventory.catalog, order.lines, ProductRef(order.lines[i]), i);
        return Failure(Unavailable);
      }
      LineChecksAppend(inventory.catalog, inventory.stock, w, order.lines, i);
      CachesAfterLine(inventory.catalog, inventory.stock, w, down, order.lines, i, before, remaining);
      AllServedAppend(lines, checked.value);
      ready := ready && Served(checked.value);
      lines := lines + [checked.value];
    }
    assert order.lines[..|order.lines|] == order.lines;
    return Success(Check(order.id, order.number, w, ready, lines));
  }

  /** One turn of the loop: the product's levels are read only when the cache has no entry for it. */
  method CheckOneLine(inventory: InventoryService, w: string, down: set<string>, line: OrderLine,
                      cache: map<string, real>, ghost served: seq<OrderLine>)
    returns (r: Result<CheckLine, ServiceError>, remaining: map<string, real>)
    requires Caches(inventory.catalog, inventory.stock, w, down, served, cache)
    ensures r.Failure? <==> Tracked(inventory.catalog, line) && ProductRef(line) in down
    ensures r.Success? ==> r.value == LineCheck(inventory.catalog, inventory.stock, w, served, line)
    ensures !Tracked(inventory.catalog, line) ==> remaining == cache
    ensures r.Success? && Tracked(inventory.catalog, line) ==>
      remaining == cache[ProductRef(line) := LeftAfter(inventory.catalog, inventory.stock, w, served, line)]
  {
    remaining := cache;
    var p := ProductRef(line);
    var checkLine := CheckLine(line.id, line.lineNumber, line.description, "", "", "", line.quantity, 0.0, 0.0,
                               NotTracked);
    if p == "" {
      return Success(checkLine), remaining;
    }
    checkLine := checkLine.(productId := p);
    if p !in inventory.catalog {
      return Success(checkLine.(status := ProductNotFound, shortageQty := line.quantity)), remaining;
    }
    var product := inventory.catalog[p];
    checkLine := checkLine.(productCode := product.code, productName := product.name);
    if product.productType != Goods || !product.trackInventory {
      return Success(checkLine), remaining;
    }
    LeftFor(inventory.catalog, inventory.stock, w, down, served, cache, p);
    if p !in remaining {
      if p in down {
        return Failure(Unavailable), remaining;
      }
      var available := TotalAvailable(LevelsOf(inventory.stock, p), w);
      remaining := remaining[p := available];
    }
    checkLine := checkLine.(availableQty := remaining[p]);
    if checkLine.availableQty < line.quantity {
      checkLine := checkLine.(status := Shortage, shortageQty := line.quantity - checkLine.availableQty);
      remaining := remaining[p := 0.0];
    } else {
      checkLine := checkLine.(status := Available);
      remaining := remaining[p := checkLine.availableQty - line.quantity];
    }
    r := Success(checkLine);
  }

  lemma AllServedAppend(lines: seq<CheckLine>, line: CheckLine)
    ensures AllServed(lines + [line]) == (AllServed(lines) && Served(line))
  {
    if AllServed(lines + [line]) {
      assert (lines + [line])[|lines|] == line;
      assert forall i :: 0 <= i < |lines| ==> (lines + [line])[i] == lines[i];
    }
  }

  lemma LineChecksAppend(catalog: Catalog, stock: Stock, w: string, lines: seq<OrderLine>, i: nat)
    requires i < |lines|
    ensures LineChecks(catalog, stock, w, lines[..i + 1])
         == LineChecks(catalog, stock, w, lines[..i]) + [LineCheck(catalog, stock, w, lines[..i], lines[i])]
  {
    assert lines[..i + 1][..i] == lines[..i];
  }

  lemma LineChecksOfLonger(catalog: Catalog, stock: Stock, w: string, lines: seq<OrderLine>, line: OrderLine)
    ensures LineChecks(catalog, stock, w, lines + [line])
         == LineChecks(catalog, stock, w, lines) + [LineCheck(catalog, stock, w, lines, line)]
  {
    var longer := lines + [line];
    LineChecksAppend(catalog, stock, w, longer, |lines|);
    assert longer[..|lines|] == lines && longer[..|longer|] == longer;
  }

  /** A product not cached yet still has all that is available. */
  lemma LeftFor(catalog: Catalog, stock: Stock, w: string, down: set<string>, served: seq<OrderLine>,
                remaining: map<string, real>, p: string)
    requires Caches(catalog, stock, w, down, served, remaining)
    ensures Remaining(catalog, served, p, Availability(stock, w, p))
         == if p in remaining then remaining[p] else Availability(stock, w, p)
  {
    if p !in remaining {
      RemainingUntouched(catalog, served, p, Availability(stock, w, p));
    }
  }

  lemma CachesAfterLine(catalog: Catalog, stock: Stock, w: string, down: set<string>, lines: seq<OrderLine>, i: nat,
                        before: map<string, real>, after: map<string, real>)
    requires i < |lines| && Caches(catalog, stock, w, down, lines[..i], before)
    requires !Tracked(catalog, lines[i]) ==> after == before
    requires Tracked(catalog, lines[i]) ==>
      && ProductRef(lines[i]) !in down
      && after == before[ProductRef(lines[i]) := LeftAfter(catalog, stock, w, lines[..i], lines[i])]
    ensures Caches(catalog, stock, w, down, lines[..i + 1], after)
  {
    var now := lines[..i + 1];
    assert now[..|now| - 1] == lines[..i] && now[|now| - 1] == lines[i];
  }

  method TotalAvailable(levels: seq<StockLevel>, w: string) returns (total: real)
    ensures total == SumAvailable(levels, w)
  {
    total := 0.0;
    for i := 0 to |levels|
      invariant total == SumAvailable(levels[..i], w)
    {
      assert levels[..i + 1][..i] == levels[..i];
      if w != "" && levels[i].warehouseId != w {
        continue;
      }
      total := total + levels[i].availableQty;
    }
    assert levels[..|levels|] == levels;
  }

  lemma {:induction false} RemainingUntouched(catalog: Catalog, lines: seq<OrderLine>, p: string, initial: real)
    requires !AnyTracks(catalog, lines, p)
    ensures Remaining(catalog, lines, p, initial) == initial
  {
    if lines != [] {
      RemainingUntouched(catalog, lines[..|lines| - 1], p, initial);
    }
  }
}
