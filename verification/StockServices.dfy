// The two stores behind the order handlers: inventory stock levels and the order reservation ledger.
module StockServices {
  import opened Options
  import opened OrderStock

  datatype ReservationStatus = Reserved | Released

  datatype ReservationKey = ReservationKey(orderId: string, productId: string, warehouseId: string)

  datatype Reservation = Reservation(quantity: real, status: ReservationStatus)

  /** One row per order, product and warehouse. */
  type Ledger = map<ReservationKey, Reservation>

  datatype ServiceError =
    | OrderNotFound
    | Unavailable
    | QuantityNotPositive
    | ProductUnknown
    | InsufficientAvailable
    | MoreThanReserved
    | ReservationNotFound
    | MoreThanOrderReserved(productId: string)
    | RollbackFailed(cause: ServiceError)

  // ----- Stock levels as values -----

  /** The first row of the warehouse; a warehouse without a row counts as an empty level. */
  function LevelIn(levels: seq<StockLevel>, w: string): StockLevel {
    if levels == [] then StockLevel(w, 0.0, 0.0, 0.0)
    else if levels[0].warehouseId == w then levels[0]
    else LevelIn(levels[1..], w)
  }

  function PutLevel(levels: seq<StockLevel>, level: StockLevel): seq<StockLevel> {
    if levels == [] then [level]
    else if levels[0].warehouseId == level.warehouseId then [level] + levels[1..]
    else [levels[0]] + PutLevel(levels[1..], level)
  }

  function LevelAt(stock: Stock, p: string, w: string): (level: StockLevel)
  {
    LevelIn(LevelsOf(stock, p), w)
  }

  function WithLevel(stock: Stock, p: string, level: StockLevel): Stock {
    stock[p := PutLevel(LevelsOf(stock, p), level)]
  }

  /** Moves q from available to reserved (or back, for negative q) without touching the quantity on hand. */
  function Shift(level: StockLevel, q: real): StockLevel {
    level.(reservedQty := level.reservedQty + q, availableQty := level.availableQty - q)
  }

  /** ReserveStock: the new stock on success, nothing on refusal. `down` is an outage of the store. */
  function ReserveOutcome(catalog: Catalog, stock: Stock, p: string, w: string, q: real, down: bool)
    : Result<Stock, ServiceError>
  {
    if q <= 0.0 then Failure(QuantityNotPositive)
    else if down then Failure(Unavailable)
    else if p !in catalog then Failure(ProductUnknown)
    else if LevelAt(stock, p, w).availableQty < q then Failure(InsufficientAvailable)
    else Success(WithLevel(stock, p, Shift(LevelAt(stock, p, w), q)))
  }

  /** ReleaseStock. */
  function ReleaseOutcome(catalog: Catalog, stock: Stock, p: string, w: string, q: real, down: bool)
    : Result<Stock, ServiceError>
  {
    if q <= 0.0 then Failure(QuantityNotPositive)
    else if down then Failure(Unavailable)
    else if p !in catalog then Failure(ProductUnknown)
    else if LevelAt(stock, p, w).reservedQty < q then Failure(MoreThanReserved)
    else Success(WithLevel(stock, p, Shift(LevelAt(stock, p, w), -q)))
  }

  /** The row that an upsert leaves: an existing row grows, and its status becomes RESERVED again. */
  function Upserted(ledger: Ledger, key: ReservationKey, q: real): Ledger {
    ledger[key := Reservation((if key in ledger then ledger[key].quantity else 0.0) + q, Reserved)]
  }

  predicate Holds(ledger: Ledger, key: ReservationKey, q: real) {
    key in ledger && ledger[key].quantity >= q
  }

  /** The row that a release leaves: RELEASED once nothing is left on it. */
  function Lowered(ledger: Ledger, key: ReservationKey, q: real): Ledger
    requires key in ledger
  {
    var left := ledger[key].quantity - q;
    ledger[key := Reservation(left, if left <= 0.0 then Released else Reserved)]
  }

  /** What can go wrong with the ledger write itself. */
  datatype WriteFault =
    | NoFault
    | NotApplied
    | AppliedButNotReadBack  // the release updates the row and then fails to read it again

  class InventoryService {
    const catalog: Catalog
    var stock: Stock

    constructor (catalog: Catalog, stock: Stock)
      ensures this.catalog == catalog && this.stock == stock
    {
      this.catalog := catalog;
      this.stock := stock;
    }

    method ReserveStock(p: string, w: string, q: real, down: bool) returns (r: Result<StockLevel, ServiceError>)
      modifies this`stock
      ensures match ReserveOutcome(catalog, old(stock), p, w, q, down)
              case Success(after) => stock == after && r == Success(LevelAt(after, p, w))
              case Failure(e) => stock == old(stock) && r == Failure(e)
    {
      if q <= 0.0 {
        return Failure(QuantityNotPositive);
      }
      if down {
        return Failure(Unavailable);
      }
      if p !in catalog {
        return Failure(ProductUnknown);
      }
      var level := LevelAt(stock, p, w);
      if level.availableQty < q {
        return Failure(InsufficientAvailable);
      }
      LevelAfterShift(stock, p, w, q, p, w);
      level := Shift(level, q);
      stock := WithLevel(stock, p, level);
      return Success(level);
    }

    method ReleaseStock(p: string, w: string, q: real, down: bool) returns (r: Result<StockLevel, ServiceError>)
      modifies this`stock
      ensures match ReleaseOutcome(catalog, old(stock), p, w, q, down)
              case Success(after) => stock == after && r == Success(LevelAt(after, p, w))
              case Failure(e) => stock == old(stock) && r == Failure(e)
    {
      if q <= 0.0 {
        return Failure(QuantityNotPositive);
      }
      if down {
        return Failure(Unavailable);
      }
      if p !in catalog {
        return Failure(ProductUnknown);
      }
      var level := LevelAt(stock, p, w);
      if level.reservedQty < q {
        return Failure(MoreThanReserved);
      }
      LevelAfterShift(stock, p, w, -q, p, w);
      level := Shift(level, -q);
      stock := WithLevel(stock, p, level);
      return Success(level);
    }
  }

  class OrdersService {
    const orders: map<string, Order>
    var ledger: Ledger

    constructor (orders: map<string, Order>, ledger: Ledger)
      ensures this.orders == orders && this.ledger == ledger
    {
      this.orders := orders;
      this.ledger := ledger;
    }

    method GetStockReservation(key: ReservationKey, down: bool) returns (r: Result<Reservation, ServiceError>)
      ensures r == if down then Failure(Unavailable)
                   else if key in ledger then Success(ledger[key])
                   else Failure(ReservationNotFound)
    {
      if down {
        return Failure(Unavailable);
      }
      if key !in ledger {
        return Failure(ReservationNotFound);
      }
      return Success(ledger[key]);
    }

    method UpsertStockReservation(key: ReservationKey, q: real, fault: WriteFault)
      returns (r: Option<ServiceError>)
      modifies this`ledger
      ensures if q <= 0.0 then r == Some(QuantityNotPositive) && ledger == old(ledger)
              else if fault != NoFault then r == Some(Unavailable) && ledger == old(ledger)
              else r == None && ledger == Upserted(old(ledger), key, q)
    {
      if q <= 0.0 {
        return Some(QuantityNotPositive);
      }
      if fault != NoFault {
        return Some(Unavailable);
      }
      ledger := Upserted(ledger, key, q);
      return None;
    }

    method ReleaseStockReservation(key: ReservationKey, q: real, fault: WriteFault)
      returns (r: Option<ServiceError>)
      modifies this`ledger
      ensures if q <= 0.0 then r == Some(QuantityNotPositive) && ledger == old(ledger)
              else if fault == NotApplied then r == Some(Unavailable) && ledger == old(ledger)
              else if !Holds(old(ledger), key, q) then r == Some(ReservationNotFound) && ledger == old(ledger)
              else (&& ledger == Lowered(old(ledger), key, q)
                    && r == if fault == AppliedButNotReadBack then Some(Unavailable) else None)
    {
      if q <= 0.0 {
        return Some(QuantityNotPositive);
      }
      if fault == NotApplied {
        return Some(Unavailable);
      }
      if !Holds(ledger, key, q) {
        return Some(ReservationNotFound);
      }
      ledger := Lowered(ledger, key, q);
      if fault == AppliedButNotReadBack {
        return Some(Unavailable);
      }
      return None;
    }
  }

  // ----- What one write changes -----

  lemma {:induction false} LevelInPut(levels: seq<StockLevel>, level: StockLevel, w: string)
    ensures LevelIn(PutLevel(levels, level), w) == if w == level.warehouseId then level else LevelIn(levels, w)
  {
    if levels != [] && levels[0].warehouseId != level.warehouseId {
      LevelInPut(levels[1..], level, w);
      assert PutLevel(levels, level)[1..] == PutLevel(levels[1..], level);
    } else if levels != [] {
      assert PutLevel(levels, level)[1..] == levels[1..];
    }
  }

  lemma {:induction false} LevelInHasWarehouse(levels: seq<StockLevel>, w: string)
    ensures LevelIn(levels, w).warehouseId == w
  {
    if levels != [] {
      LevelInHasWarehouse(levels[1..], w);
    }
  }

  /** Moving q units at (p, w), as seen at any level (p', w'). */
  lemma LevelAfterShift(stock: Stock, p: string, w: string, q: real, p': string, w': string)
    ensures LevelAt(WithLevel(stock, p, Shift(LevelAt(stock, p, w), q)), p', w')
         == if p' == p && w' == w then Shift(LevelAt(stock, p, w), q) else LevelAt(stock, p', w')
  {
    LevelInHasWarehouse(LevelsOf(stock, p), w);
    LevelInPut(LevelsOf(stock, p), Shift(LevelAt(stock, p, w), q), w');
  }
}
