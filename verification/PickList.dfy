// The warehouse pick list of an order: its reservations handed out to its lines, first come first served.
module PickList {
  import opened Options
  import opened OrderStock
  import opened StockServices
  import opened StockCheck

  datatype PickStatus = Ready | Unreserved | Short | Untracked | Unknown

  datatype PickLine = PickLine(
    lineId: string, lineNumber: int, description: string,
    productId: string, productCode: string, productName: string,
    requiredQty: real, reservedQty: real, pickQty: real, availableQty: real, shortageQty: real, status: PickStatus)

  datatype Picks = Picks(orderId: string, orderNumber: string, warehouseId: string, ready: bool, lines: seq<PickLine>)

  /** One reservation row as the ledger lists it. */
  datatype Row = Row(key: ReservationKey, reservation: Reservation)

  /** What the listed rows reserve of p in w. */
  function RowsReserved(rows: seq<Row>, p: string, w: string): real {
    if rows == [] then 0.0
    else
      var last := rows[|rows| - 1];
      RowsReserved(rows[..|rows| - 1], p, w)
      + if last.key.warehouseId == w && last.reservation.status == Reserved && last.key.productId == p
        then last.reservation.quantity else 0.0
  }

  /** The pick of the line that comes after `served`. */
  function PickFor(catalog: Catalog, stock: Stock, rows: seq<Row>, w: string, served: seq<OrderLine>, line: OrderLine)
    : PickLine
  {
    var p := ProductRef(line);
    var blank := PickLine(line.id, line.lineNumber, line.description, p, "", "", line.quantity,
                          0.0, 0.0, 0.0, 0.0, Untracked);
    if p == "" then blank
    else if p !in catalog then blank.(status := Unknown, shortageQty := line.quantity)
    else
      var named := blank.(productCode := catalog[p].code, productName := catalog[p].name);
      if !Tracked(catalog, line) then named
      else
        var left := Remaining(catalog, served, p, RowsReserved(rows, p, w));
        var found := named.(availableQty := WarehouseAvailable(LevelsOf(stock, p), w), reservedQty := left);
        if left >= line.quantity then found.(status := Ready, pickQty := line.quantity)
        else found.(status := if left == 0.0 then Unreserved else Short,
                    pickQty := left, shortageQty := line.quantity - left)
  }

  function PicksFor(catalog: Catalog, stock: Stock, rows: seq<Row>, w: string, lines: seq<OrderLine>)
    : (picks: seq<PickLine>)
    ensures |picks| == |lines|
  {
    if lines == [] then []
    else
      var n := |lines| - 1;
      PicksFor(catalog, stock, rows, w, lines[..n]) + [PickFor(catalog, stock, rows, w, lines[..n], lines[n])]
  }

  predicate Picked(line: PickLine) {
    line.status == Ready || line.status == Untracked
  }

  predicate AllPicked(picks: seq<PickLine>) {
    forall i :: 0 <= i < |picks| ==> Picked(picks[i])
  }

  function PicksOf(catalog: Catalog, stock: Stock, rows: seq<Row>, w: string, order: Order): Picks {
    var picks := PicksFor(catalog, stock, rows, w, order.lines);
    Picks(order.id, order.number, w, AllPicked(picks), picks)
  }

  /** Unlike the stock check, the pick list never adds up several warehouses. */
  function WarehouseAvailable(levels: seq<StockLevel>, w: string): real {
    if levels == [] then 0.0
    else
      var last := levels[|levels| - 1];
      WarehouseAvailable(levels[..|levels| - 1], w) + if last.warehouseId == w then last.availableQty else 0.0
  }

  /** The loop's cache of availability: exactly the products met, each with what the warehouse has of it. */
  ghost predicate AvailableCache(catalog: Catalog, stock: Stock, w: string, down: set<string>, served: seq<OrderLine>,
                                 available: map<string, real>)
  {
    && (forall p :: p in available <==> AnyTracks(catalog, served, p))
    && (forall p :: p in available ==> p !in down && available[p] == WarehouseAvailable(LevelsOf(stock, p), w))
  }

  /** Its two caches: what the rows still hold for later lines, and availability. */
  ghost predicate PickCaches(catalog: Catalog, stock: Stock, rows: seq<Row>, w: string, down: set<string>,
                             served: seq<OrderLine>, reserved: map<string, real>, available: map<string, real>)
  {
    && (forall p :: Remaining(catalog, served, p, RowsReserved(rows, p, w)) == Lookup(reserved, p))
    && AvailableCache(catalog, stock, w, down, served, available)
  }

  /** A Go map of decimals answers zero for a key it does not hold. */
  function Lookup(m: map<string, real>, p: string): real {
    if p in m then m[p] else 0.0
  }

  method BuildOrderPickList(inventory: InventoryService, orders: OrdersService, orderId: string, w: string,
                            rows: Result<seq<Row>, ServiceError>, down: set<string>)
    returns (r: Result<Picks, ServiceError>)
    ensures r == if orderId !in orders.orders then Failure(OrderNotFound)
                 else if rows.Failure? then Failure(rows.error)
                 else if LevelsDown(inventory.catalog, orders.orders[orderId].lines, down) then Failure(Unavailable)
                 else Success(PicksOf(inventory.catalog, inventory.stock, rows.value, w, orders.orders[orderId]))
  {
    if orderId !in orders.orders {
      return Failure(OrderNotFound);
    }
    var order := orders.orders[orderId];
    if rows.Failure? {
      return Failure(rows.error);
    }
    var reserved := SumReservations(rows.value, w);
    var lines: seq<PickLine>, ready := [], true;
    var available: map<string, real> := map[];
    for i := 0 to |order.lines|
      invariant lines == PicksFor(inventory.catalog, inventory.stock, rows.value, w, order.lines[..i])
      invariant ready == AllPicked(lines)
      invariant PickCaches(inventory.catalog, inventory.stock, rows.value, w, down, order.lines[..i], reserved,
                           available)
    {
      ghost var reserved0, available0 := reserved, available;
      var picked;
      picked, reserved, available :=
        PickOneLine(inventory, w, down, order.lines[i], reserved, available, rows.value, order.lines[..i]);
      if picked.Failure? {
        LineTracks(inventory.catalog, order.lines, ProductRef(order.lines[i]), i);
        return Failure(Unavailable);
      }
      PicksAppend(inventory.catalog, inventory.stock, rows.value, w, order.lines, i);
      PickCachesAfterLine(inventory.catalog, inventory.stock, rows.value, w, down, order.lines, i,
                          reserved0, available0, reserved, available);
      AllPickedAppend(lines, picked.value);
      ready := ready && Picked(picked.value);
      lines := lines + [picked.value];
    }
    assert order.lines[..|order.lines|] == order.lines;
    return Success(Picks(order.id, order.number, w, ready, lines));
  }

  method SumReservations(rows: seq<Row>, w: string) returns (reserved: map<string, real>)
    ensures forall p :: Lookup(reserved, p) == RowsReserved(rows, p, w)
  {
    reserved := map[];
    for i := 0 to |rows|
      invariant forall p :: Lookup(reserved, p) == RowsReserved(rows[..i], p, w)
    {
      var row := rows[i];
      assert rows[..i + 1][..i] == rows[..i];
      if row.key.warehouseId != w || row.reservation.status != Reserved {
        continue;
      }
      reserved := reserved[row.key.productId := Lookup(reserved, row.key.productId) + row.reservation.quantity];
    }
    assert rows[..|rows|] == rows;
  }

  method SumWarehouse(levels: seq<StockLevel>, w: string) returns (total: real)
    ensures total == WarehouseAvailable(levels, w)
  {
    total := 0.0;
    for i := 0 to |levels|
      invariant total == WarehouseAvailable(levels[..i], w)
    {
      assert levels[..i + 1][..i] == levels[..i];
      if levels[i].warehouseId == w {
        total := total + levels[i].availableQty;
      }
    }
    assert levels[..|levels|] == levels;
  }

  function HandedOut(left: real, quantity: real): real {
    if left >= quantity then left - quantity else 0.0
  }

  /** One turn of the loop. */
  method PickOneLine(inventory: InventoryService, w: string, down: set<string>, line: OrderLine,
                     reserved0: map<string, real>, available0: map<string, real>,
                     ghost rows: seq<Row>, ghost served: seq<OrderLine>)
    returns (r: Result<PickLine, ServiceError>, reserved: map<string, real>, available: map<string, real>)
    requires PickCaches(inventory.catalog, inventory.stock, rows, w, down, served, reserved0, available0)
    ensures r.Failure? <==> Tracked(inventory.catalog, line) && ProductRef(line) in down
    ensures r.Success? ==> r.value == PickFor(inventory.catalog, inventory.stock, rows, w, served, line)
    ensures !Tracked(inventory.catalog, line) ==> reserved == reserved0 && available == available0
    ensures r.Success? && Tracked(inventory.catalog, line) ==>
      var p := ProductRef(line);
      && reserved == reserved0[p := HandedOut(Lookup(reserved0, p), line.quantity)]
      && available == available0[p := WarehouseAvailable(LevelsOf(inventory.stock, p), w)]
  {
    reserved, available := reserved0, available0;
    var p := ProductRef(line);
    var pick := PickLine(line.id, line.lineNumber, line.description, "", "", "", line.quantity,
                         0.0, 0.0, 0.0, 0.0, Untracked);
    if p == "" {
      return Success(pick), reserved, available;
    }
    pick := pick.(productId := p);
    if p !in inventory.catalog {
      return Success(pick.(status := Unknown, shortageQty := line.quantity)), reserved, available;
    }
    var product := inventory.catalog[p];
    pick := pick.(productCode := product.code, productName := product.name);
    if product.productType != Goods || !product.trackInventory {
      return Success(pick), reserved, available;
    }
    if p !in available {
      if p in down {
        return Failure(Unavailable), reserved, available;
      }
      var total := SumWarehouse(LevelsOf(inventory.stock, p), w);
      available := available[p := total];
    }
    assert Remaining(inventory.catalog, served, p, RowsReserved(rows, p, w)) == Lookup(reserved, p);
    pick := pick.(availableQty := available[p], reservedQty := Lookup(reserved, p));
    if pick.reservedQty >= line.quantity {
      pick := pick.(status := Ready, pickQty := line.quantity);
      reserved := reserved[p := pick.reservedQty - line.quantity];
    } else {
      pick := pick.(pickQty := pick.reservedQty, shortageQty := line.quantity - pick.reservedQty);
      reserved := reserved[p := 0.0];
      if pick.reservedQty == 0.0 {
        pick := pick.(status := Unreserved);
      } else {
        pick := pick.(status := Short);
      }
    }
    r := Success(pick);
  }

  lemma PicksAppend(catalog: Catalog, stock: Stock, rows: seq<Row>, w: string, lines: seq<OrderLine>, i: nat)
    requires i < |lines|
    ensures PicksFor(catalog, stock, rows, w, lines[..i + 1])
         == PicksFor(catalog, stock, rows, w, lines[..i]) + [PickFor(catalog, stock, rows, w, lines[..i], lines[i])]
  {
    assert lines[..i + 1][..i] == lines[..i];
  }

  lemma AllPickedAppend(lines: seq<PickLine>, line: PickLine)
    ensures AllPicked(lines + [line]) == (AllPicked(lines) && Picked(line))
  {
    if AllPicked(lines + [line]) {
      assert (lines + [line])[|lines|] == line;
      assert forall i :: 0 <= i < |lines| ==> (lines + [line])[i] == lines[i];
    }
  }

  lemma ReservedAfterLine(catalog: Catalog, rows: seq<Row>, w: string, served: seq<OrderLine>, line: OrderLine,
                          now: seq<OrderLine>, reserved: map<string, real>, p: string)
    requires now != [] && now[..|now| - 1] == served && now[|now| - 1] == line
    requires Remaining(catalog, served, p, RowsReserved(rows, p, w)) == Lookup(reserved, p)
    ensures Remaining(catalog, now, p, RowsReserved(rows, p, w))
         == if Tracks(catalog, line, p) then HandedOut(Lookup(reserved, p), line.quantity) else Lookup(reserved, p)
  {}

  lemma PickCachesAfterLine(catalog: Catalog, stock: Stock, rows: seq<Row>, w: string, down: set<string>,
                            lines: seq<OrderLine>, i: nat,
                            reserved0: map<string, real>, available0: map<string, real>,
                            reserved: map<string, real>, available: map<string, real>)
    requires i < |lines| && PickCaches(catalog, stock, rows, w, down, lines[..i], reserved0, available0)
    requires !Tracked(catalog, lines[i]) ==> reserved == reserved0 && available == available0
    requires Tracked(catalog, lines[i]) ==>
      var p := ProductRef(lines[i]);
      && p !in down
      && reserved == reserved0[p := HandedOut(Lookup(reserved0, p), lines[i].quantity)]
      && available == available0[p := WarehouseAvailable(LevelsOf(stock, p), w)]
    ensures PickCaches(catalog, stock, rows, w, down, lines[..i + 1], reserved, available)
  {
    var now := lines[..i + 1];
    assert now[..|now| - 1] == lines[..i] && now[|now| - 1] == lines[i];
    forall p ensures Remaining(catalog, now, p, RowsReserved(rows, p, w)) == Lookup(reserved, p) {
      ReservedAfterLine(catalog, rows, w, lines[..i], lines[i], now, reserved0, p);
    }
    AvailableAfterLine(catalog, stock, w, down, lines[..i], lines[i], now, available0, available);
  }

  lemma AvailableAfterLine(catalog: Catalog, stock: Stock, w: string, down: set<string>, served: seq<OrderLine>,
                           line: OrderLine, now: seq<OrderLine>, before: map<string, real>, after: map<string, real>)
    requires now != [] && now[..|now| - 1] == served && now[|now| - 1] == line
    requires AvailableCache(catalog, stock, w, down, served, before)
    requires !Tracked(catalog, line) ==> after == before
    requires Tracked(catalog, line) ==>
      var p := ProductRef(line);
      p !in down && after == before[p := WarehouseAvailable(LevelsOf(stock, p), w)]
    ensures AvailableCache(catalog, stock, w, down, now, after)
  {}
}
