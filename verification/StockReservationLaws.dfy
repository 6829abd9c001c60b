// What one reserve or release request does to both stores, whatever fails on the way.
module StockReservationLaws {
  import opened Options
  import opened OrderStock
  import opened StockServices
  import opened StockReservation

  /** What an order has reserved of p in w, as its own ledger has it. */
  function OrderReserved(ledger: Ledger, orderId: string, p: string, w: string): real {
    var key := ReservationKey(orderId, p, w);
    if key in ledger then ledger[key].quantity else 0.0
  }

  predicate Same(a: Ledger, b: Ledger, k: ReservationKey) {
    (k in a <==> k in b) && (k in a ==> a[k] == b[k])
  }

  /** Inventory's move of q units of (p, w), as seen at any level (p', w'). */
  lemma ReserveOutcomeAt(catalog: Catalog, stock: Stock, p: string, w: string, q: real, down: bool, p': string,
                         w': string)
    requires ReserveOutcome(catalog, stock, p, w, q, down).Success?
    ensures LevelAt(ReserveOutcome(catalog, stock, p, w, q, down).value, p', w')
         == Shift(LevelAt(stock, p', w'), if p' == p && w' == w then q else 0.0)
  {
    LevelAfterShift(stock, p, w, q, p', w');
  }

  lemma ReleaseOutcomeAt(catalog: Catalog, stock: Stock, p: string, w: string, q: real, down: bool, p': string,
                         w': string)
    requires ReleaseOutcome(catalog, stock, p, w, q, down).Success?
    ensures LevelAt(ReleaseOutcome(catalog, stock, p, w, q, down).value, p', w')
         == Shift(LevelAt(stock, p', w'), if p' == p && w' == w then -q else 0.0)
  {
    LevelAfterShift(stock, p, w, -q, p', w');
  }

  /** The release reaches the order's ledger: the order holds enough, and inventory has let go. */
  predicate ReachesLedger(catalog: Catalog, l: Ledgers, orderId: string, w: string, line: Aggregate, f: Fault) {
    && !f.readDown
    && Holds(l.ledger, ReservationKey(orderId, line.productId, w), line.quantity)
    && ReleaseOutcome(catalog, l.stock, line.productId, w, line.quantity, f.moveDown).Success?
  }

  /** The reserve is made in inventory, refused by the order's ledger, and not taken back. */
  predicate RollbackFails(catalog: Catalog, l: Ledgers, w: string, line: Aggregate, f: Fault) {
    var p, q := line.productId, line.quantity;
    && f.write != NoFault
    && ReserveOutcome(catalog, l.stock, p, w, q, f.moveDown).Success?
    && var moved := ReserveOutcome(catalog, l.stock, p, w, q, f.moveDown).value;
       ReleaseOutcome(catalog, moved, p, w, q, f.rollbackDown).Failure?
  }

  /** The units that handling one product moves in the order's ledger. */
  function Units(catalog: Catalog, l: Ledgers, action: Action, orderId: string, w: string, line: Aggregate,
                 f: Fault): real
  {
    match action
    case Reserve => if ApplyOne(catalog, l, action, orderId, w, line, f).1.None? then line.quantity else 0.0
    case Release =>
      if ReachesLedger(catalog, l, orderId, w, line, f) && f.write != NotApplied then -line.quantity else 0.0
  }

  /** The further units by which it moves inventory alone. */
  function Leak(catalog: Catalog, l: Ledgers, action: Action, orderId: string, w: string, line: Aggregate,
                f: Fault): real
  {
    match action
    case Reserve => if RollbackFails(catalog, l, w, line, f) then line.quantity else 0.0
    case Release =>
      if ReachesLedger(catalog, l, orderId, w, line, f) && f.write == NotApplied then -line.quantity else 0.0
  }

  /** Handling one product, as seen at any level of inventory. */
  lemma OneProductInStock(catalog: Catalog, l: Ledgers, action: Action, orderId: string, w: string, line: Aggregate,
                          f: Fault, p': string, w': string)
    ensures LevelAt(ApplyOne(catalog, l, action, orderId, w, line, f).0.stock, p', w')
         == Shift(LevelAt(l.stock, p', w'),
                  if p' == line.productId && w' == w
                  then Units(catalog, l, action, orderId, w, line, f) + Leak(catalog, l, action, orderId, w, line, f)
                  else 0.0)
  {
    var p, q := line.productId, line.quantity;
    match action
    case Reserve =>
      var reserve := ReserveOutcome(catalog, l.stock, p, w, q, f.moveDown);
      if reserve.Success? {
        ReserveOutcomeAt(catalog, l.stock, p, w, q, f.moveDown, p', w');
        if ReleaseOutcome(catalog, reserve.value, p, w, q, f.rollbackDown).Success? {
          ReleaseOutcomeAt(catalog, reserve.value, p, w, q, f.rollbackDown, p', w');
        }
      }
    case Release =>
      if ReleaseOutcome(catalog, l.stock, p, w, q, f.moveDown).Success? {
        ReleaseOutcomeAt(catalog, l.stock, p, w, q, f.moveDown, p', w');
      }
  }

  /** Handling one product, as seen at any row of the ledger. */
  lemma {:induction false} OneProductInLedger(catalog: Catalog, l: Ledgers, action: Action, orderId: string, w: string,
                                              line: Aggregate, f: Fault, o': string, p': string, w': string)
    ensures OrderReserved(ApplyOne(catalog, l, action, orderId, w, line, f).0.ledger, o', p', w')
         == OrderReserved(l.ledger, o', p', w')
            + if o' == orderId && p' == line.productId && w' == w
              then Units(catalog, l, action, orderId, w, line, f) else 0.0
  {}

  /** The compensating release fails only when inventory is out of reach: what was just reserved can be released. */
  lemma RollbackFailsOnlyByOutage(catalog: Catalog, l: Ledgers, orderId: string, w: string, line: Aggregate, f: Fault)
    requires LevelAt(l.stock, line.productId, w).reservedQty >= 0.0
    ensures ApplyOne(catalog, l, Reserve, orderId, w, line, f).1 == Some(RollbackFailed(Unavailable))
       <==> && ReserveOutcome(catalog, l.stock, line.productId, w, line.quantity, f.moveDown).Success?
            && f.write != NoFault
            && f.rollbackDown
  {
    LevelAfterShift(l.stock, line.productId, w, line.quantity, line.productId, w);
  }

  /** By how much inventory's reserved quantity of (p, w) moves, and the order's own. */
  function StockMove(before: Ledgers, after: Ledgers, p: string, w: string): real {
    LevelAt(after.stock, p, w).reservedQty - LevelAt(before.stock, p, w).reservedQty
  }

  function LedgerMove(before: Ledgers, after: Ledgers, orderId: string, p: string, w: string): real {
    OrderReserved(after.ledger, orderId, p, w) - OrderReserved(before.ledger, orderId, p, w)
  }

  /** The two stores part: one moved by more than the other. */
  predicate Parted(before: Ledgers, after: Ledgers, orderId: string, p: string, w: string) {
    StockMove(before, after, p, w) != LedgerMove(before, after, orderId, p, w)
  }

  /** Handling one product parts the two stores exactly when the last call for it is lost: the rollback of a reserve,
      or the ledger write of a release, which nothing compensates. */
  lemma StoresPartExactlyWhen(catalog: Catalog, l: Ledgers, action: Action, orderId: string, w: string,
                              line: Aggregate, f: Fault)
    requires LevelAt(l.stock, line.productId, w).reservedQty >= 0.0
    ensures Parted(l, ApplyOne(catalog, l, action, orderId, w, line, f).0, orderId, line.productId, w) <==>
      match action
      case Reserve =>
        && ReserveOutcome(catalog, l.stock, line.productId, w, line.quantity, f.moveDown).Success?
        && f.write != NoFault
        && f.rollbackDown
      case Release => ReachesLedger(catalog, l, orderId, w, line, f) && f.write == NotApplied
  {
    OneProductInStock(catalog, l, action, orderId, w, line, f, line.productId, w);
    OneProductInLedger(catalog, l, action, orderId, w, line, f, orderId, line.productId, w);
    LeaksExactlyWhen(catalog, l, action, orderId, w, line, f);
  }

  lemma LeaksExactlyWhen(catalog: Catalog, l: Ledgers, action: Action, orderId: string, w: string,
                         line: Aggregate, f: Fault)
    requires LevelAt(l.stock, line.productId, w).reservedQty >= 0.0
    ensures Leak(catalog, l, action, orderId, w, line, f) != 0.0 <==>
      match action
      case Reserve =>
        && ReserveOutcome(catalog, l.stock, line.productId, w, line.quantity, f.moveDown).Success?
        && f.write != NoFault
        && f.rollbackDown
      case Release => ReachesLedger(catalog, l, orderId, w, line, f) && f.write == NotApplied
  {
    if action == Reserve {
      RollbackFailsOnlyByOutage(catalog, l, orderId, w, line, f);
    }
  }

  // ----- All products of one request -----

  function UnitsOf(catalog: Catalog, l: Ledgers, action: Action, orderId: string, w: string, lines: seq<Aggregate>,
                   faults: Faults, p: string): real
    decreases |lines|
  {
    if lines == [] then 0.0
    else
      var f := FaultOf(faults, lines[0].productId);
      var (after, error) := ApplyOne(catalog, l, action, orderId, w, lines[0], f);
      (if lines[0].productId == p then Units(catalog, l, action, orderId, w, lines[0], f) else 0.0)
      + if error.Some? then 0.0 else UnitsOf(catalog, after, action, orderId, w, lines[1..], faults, p)
  }

  /** The leak of p in one request: only the product at which the request stopped with an error can have one. */
  function LeakOf(catalog: Catalog, l: Ledgers, action: Action, orderId: string, w: string, lines: seq<Aggregate>,
                  faults: Faults, p: string): real
    decreases |lines|
  {
    if lines == [] then 0.0
    else
      var f := FaultOf(faults, lines[0].productId);
      var (after, error) := ApplyOne(catalog, l, action, orderId, w, lines[0], f);
      if error.None? then LeakOf(catalog, after, action, orderId, w, lines[1..], faults, p)
      else if lines[0].productId == p then Leak(catalog, l, action, orderId, w, lines[0], f)
      else 0.0
  }

  /** The product at which a request stopped, when it did. */
  function StoppedAt(catalog: Catalog, l: Ledgers, action: Action, orderId: string, w: string, lines: seq<Aggregate>,
                     faults: Faults): (p: Option<string>)
    ensures p.Some? <==> ApplyAll(catalog, l, action, orderId, w, lines, faults).1.Failure?
    decreases |lines|
  {
    if lines == [] then None
    else
      var (after, error) := ApplyOne(catalog, l, action, orderId, w, lines[0], FaultOf(faults, lines[0].productId));
      if error.Some? then Some(lines[0].productId)
      else StoppedAt(catalog, after, action, orderId, w, lines[1..], faults)
  }

  lemma {:induction false} OtherWarehousesStay(catalog: Catalog, l: Ledgers, action: Action, orderId: string, w: string,
                                               lines: seq<Aggregate>, faults: Faults, p': string, w': string)
    requires w' != w
    ensures LevelAt(ApplyAll(catalog, l, action, orderId, w, lines, faults).0.stock, p', w') == LevelAt(l.stock, p', w')
    decreases |lines|
  {
    if lines != [] {
      var f := FaultOf(faults, lines[0].productId);
      var (after, error) := ApplyOne(catalog, l, action, orderId, w, lines[0], f);
      OneProductInStock(catalog, l, action, orderId, w, lines[0], f, p', w');
      if error.None? {
        OtherWarehousesStay(catalog, after, action, orderId, w, lines[1..], faults, p', w');
      }
    }
  }

  lemma ShiftTwice(level: StockLevel, a: real, b: real)
    ensures Shift(Shift(level, a), b) == Shift(level, a + b) && Shift(level, 0.0) == level
  {}

  /** The units by which one request moves inventory. */
  function StockUnitsOf(catalog: Catalog, l: Ledgers, action: Action, orderId: string, w: string,
                        lines: seq<Aggregate>, faults: Faults, p: string): real
    decreases |lines|
  {
    if lines == [] then 0.0
    else
      var f := FaultOf(faults, lines[0].productId);
      var (after, error) := ApplyOne(catalog, l, action, orderId, w, lines[0], f);
      (if lines[0].productId == p
       then Units(catalog, l, action, orderId, w, lines[0], f) + Leak(catalog, l, action, orderId, w, lines[0], f)
       else 0.0)
      + if error.Some? then 0.0 else StockUnitsOf(catalog, after, action, orderId, w, lines[1..], faults, p)
  }

  lemma {:induction false} StockUnitsAreUnitsAndLeak(catalog: Catalog, l: Ledgers, action: Action, orderId: string,
                                                     w: string, lines: seq<Aggregate>, faults: Faults, p: string)
    ensures StockUnitsOf(catalog, l, action, orderId, w, lines, faults, p)
         == UnitsOf(catalog, l, action, orderId, w, lines, faults, p)
            + LeakOf(catalog, l, action, orderId, w, lines, faults, p)
    decreases |lines|
  {
    if lines != [] {
      var f := FaultOf(faults, lines[0].productId);
      var (after, error) := ApplyOne(catalog, l, action, orderId, w, lines[0], f);
      if error.None? {
        NoErrorNoLeak(catalog, l, action, orderId, w, lines[0], f);
        StockUnitsAreUnitsAndLeak(catalog, after, action, orderId, w, lines[1..], faults, p);
      }
    }
  }

  lemma {:induction false} StockMovesByUnits(catalog: Catalog, l: Ledgers, action: Action, orderId: string, w: string,
                                             lines: seq<Aggregate>, faults: Faults, p: string)
    ensures LevelAt(ApplyAll(catalog, l, action, orderId, w, lines, faults).0.stock, p, w)
         == Shift(LevelAt(l.stock, p, w), StockUnitsOf(catalog, l, action, orderId, w, lines, faults, p))
    decreases |lines|
  {
    if lines != [] {
      var f := FaultOf(faults, lines[0].productId);
      var (after, error) := ApplyOne(catalog, l, action, orderId, w, lines[0], f);
      OneProductInStock(catalog, l, action, orderId, w, lines[0], f, p, w);
      if error.None? {
        StockMovesByUnits(catalog, after, action, orderId, w, lines[1..], faults, p);
      }
    }
  }

  lemma RequestMovesStock(catalog: Catalog, l: Ledgers, action: Action, orderId: string, w: string,
                          lines: seq<Aggregate>, faults: Faults, p: string)
    ensures LevelAt(ApplyAll(catalog, l, action, orderId, w, lines, faults).0.stock, p, w)
         == Shift(LevelAt(l.stock, p, w),
                  UnitsOf(catalog, l, action, orderId, w, lines, faults, p)
                  + LeakOf(catalog, l, action, orderId, w, lines, faults, p))
  {
    StockMovesByUnits(catalog, l, action, orderId, w, lines, faults, p);
    StockUnitsAreUnitsAndLeak(catalog, l, action, orderId, w, lines, faults, p);
  }

  lemma {:induction false} RequestMovesLedger(catalog: Catalog, l: Ledgers, action: Action, orderId: string, w: string,
                                              lines: seq<Aggregate>, faults: Faults, o': string, p': string, w': string)
    ensures OrderReserved(ApplyAll(catalog, l, action, orderId, w, lines, faults).0.ledger, o', p', w')
         == OrderReserved(l.ledger, o', p', w')
            + if o' == orderId && w' == w then UnitsOf(catalog, l, action, orderId, w, lines, faults, p') else 0.0
    decreases |lines|
  {
    if lines != [] {
      var f := FaultOf(faults, lines[0].productId);
      var (after, error) := ApplyOne(catalog, l, action, orderId, w, lines[0], f);
      OneProductInLedger(catalog, l, action, orderId, w, lines[0], f, o', p', w');
      if error.None? {
        RequestMovesLedger(catalog, after, action, orderId, w, lines[1..], faults, o', p', w');
      }
    }
  }

  /** On every outcome, both stores moved by the same units for every product, but for the leak. Stock on hand,
      other warehouses and other orders stay as they were. */
  lemma RequestMoves(catalog: Catalog, l: Ledgers, action: Action, orderId: string, w: string,
                     lines: seq<Aggregate>, faults: Faults, o': string, p': string, w': string)
    ensures var after := ApplyAll(catalog, l, action, orderId, w, lines, faults).0;
      var units := UnitsOf(catalog, l, action, orderId, w, lines, faults, p');
      var leak := LeakOf(catalog, l, action, orderId, w, lines, faults, p');
      && LevelAt(after.stock, p', w') == Shift(LevelAt(l.stock, p', w'), if w' == w then units + leak else 0.0)
      && OrderReserved(after.ledger, o', p', w')
         == OrderReserved(l.ledger, o', p', w') + if o' == orderId && w' == w then units else 0.0
  {
    if w' == w {
      RequestMovesStock(catalog, l, action, orderId, w, lines, faults, p');
    } else {
      OtherWarehousesStay(catalog, l, action, orderId, w, lines, faults, p', w');
      ShiftTwice(LevelAt(l.stock, p', w'), 0.0, 0.0);
    }
    RequestMovesLedger(catalog, l, action, orderId, w, lines, faults, o', p', w');
  }

  lemma NoErrorNoLeak(catalog: Catalog, l: Ledgers, action: Action, orderId: string, w: string, line: Aggregate,
                      f: Fault)
    requires ApplyOne(catalog, l, action, orderId, w, line, f).1.None?
    ensures Leak(catalog, l, action, orderId, w, line, f) == 0.0
    ensures Units(catalog, l, action, orderId, w, line, f)
         == if action == Reserve then line.quantity else -line.quantity
  {}

  lemma {:induction false} LeaksWhereItStopped(catalog: Catalog, l: Ledgers, action: Action, orderId: string, w: string,
                                               lines: seq<Aggregate>, faults: Faults, p: string)
    requires LeakOf(catalog, l, action, orderId, w, lines, faults, p) != 0.0
    ensures StoppedAt(catalog, l, action, orderId, w, lines, faults) == Some(p)
    ensures var result := ApplyAll(catalog, l, action, orderId, w, lines, faults).1;
      && result.Failure?
      && (action == Reserve ==> result.error == RollbackFailed(Unavailable))
      && (action == Release ==> result.error == Unavailable && FaultOf(faults, p).write == NotApplied)
    decreases |lines|
  {
    var f := FaultOf(faults, lines[0].productId);
    var (after, error) := ApplyOne(catalog, l, action, orderId, w, lines[0], f);
    if error.None? {
      LeaksWhereItStopped(catalog, after, action, orderId, w, lines[1..], faults, p);
    }
  }

  /** A whole request parts the two stores for no product but the one at which it stopped: for a reserve, only if the
      rollback failed there; for a release, only if the order's ledger missed the write there. */
  lemma StoresPartOnlyWhereItStopped(catalog: Catalog, l: Ledgers, action: Action, orderId: string, w: string,
                                     lines: seq<Aggregate>, faults: Faults, p: string)
    requires Parted(l, ApplyAll(catalog, l, action, orderId, w, lines, faults).0, orderId, p, w)
    ensures StoppedAt(catalog, l, action, orderId, w, lines, faults) == Some(p)
    ensures var result := ApplyAll(catalog, l, action, orderId, w, lines, faults).1;
      && result.Failure?
      && (action == Reserve ==> result.error == RollbackFailed(Unavailable))
      && (action == Release ==> result.error == Unavailable && FaultOf(faults, p).write == NotApplied)
  {
    PartedByLeak(catalog, l, action, orderId, w, lines, faults, p);
    LeaksWhereItStopped(catalog, l, action, orderId, w, lines, faults, p);
  }

  lemma {:induction false} FailedRollbackLeaks(catalog: Catalog, l: Ledgers, orderId: string, w: string,
                                               lines: seq<Aggregate>, faults: Faults, p: string)
    requires StoppedAt(catalog, l, Reserve, orderId, w, lines, faults) == Some(p)
    requires ApplyAll(catalog, l, Reserve, orderId, w, lines, faults).1.error.RollbackFailed?
    ensures LeakOf(catalog, l, Reserve, orderId, w, lines, faults, p) != 0.0
    decreases |lines|
  {
    var f := FaultOf(faults, lines[0].productId);
    var (after, error) := ApplyOne(catalog, l, Reserve, orderId, w, lines[0], f);
    if error.None? {
      FailedRollbackLeaks(catalog, after, orderId, w, lines[1..], faults, p);
    }
  }

  /** A request parts the stores by its leak. */
  lemma PartedByLeak(catalog: Catalog, l: Ledgers, action: Action, orderId: string, w: string,
                     lines: seq<Aggregate>, faults: Faults, p: string)
    ensures Parted(l, ApplyAll(catalog, l, action, orderId, w, lines, faults).0, orderId, p, w)
       <==> LeakOf(catalog, l, action, orderId, w, lines, faults, p) != 0.0
  {
    RequestMovesStock(catalog, l, action, orderId, w, lines, faults, p);
    RequestMovesLedger(catalog, l, action, orderId, w, lines, faults, orderId, p, w);
  }

  /** A whole reserve parts the two stores for a product exactly when it stopped there with a failed rollback. */
  lemma ReservePartsStoresExactlyWhen(catalog: Catalog, l: Ledgers, orderId: string, w: string,
                                      lines: seq<Aggregate>, faults: Faults, p: string)
    ensures var (after, result) := ApplyAll(catalog, l, Reserve, orderId, w, lines, faults);
      Parted(l, after, orderId, p, w)
      <==> StoppedAt(catalog, l, Reserve, orderId, w, lines, faults) == Some(p) && result.error.RollbackFailed?
  {
    PartedByLeak(catalog, l, Reserve, orderId, w, lines, faults, p);
    if LeakOf(catalog, l, Reserve, orderId, w, lines, faults, p) != 0.0 {
      LeaksWhereItStopped(catalog, l, Reserve, orderId, w, lines, faults, p);
    } else if StoppedAt(catalog, l, Reserve, orderId, w, lines, faults) == Some(p)
              && ApplyAll(catalog, l, Reserve, orderId, w, lines, faults).1.error.RollbackFailed? {
      FailedRollbackLeaks(catalog, l, orderId, w, lines, faults, p);
      assert false;
    }
  }
}
