// What a pick list hands out, stated by what is demanded and what is reserved.
module PickListLaws {
  import opened OrderStock
  import opened StockCheck
  import opened StockCheckLaws
  import opened PickList

  /** A tracked line's quantity is split into what is picked and what is short; with reservations that are
      not negative, neither part is negative. */
  lemma EachLineIsSplit(catalog: Catalog, stock: Stock, rows: seq<Row>, w: string, served: seq<OrderLine>,
                        line: OrderLine)
    requires Tracked(catalog, line)
    ensures var pick := PickFor(catalog, stock, rows, w, served, line);
      && pick.pickQty + pick.shortageQty == line.quantity
      && pick.shortageQty >= 0.0
      && (NonNegative(served) && line.quantity >= 0.0 && RowsReserved(rows, ProductRef(line), w) >= 0.0 ==>
            0.0 <= pick.pickQty)
  {
    var p := ProductRef(line);
    if NonNegative(served) {
      RemainingInClosedForm(catalog, served, p, RowsReserved(rows, p, w));
    }
  }

  function PickOf(pick: PickLine, p: string): real {
    if pick.productId == p then pick.pickQty else 0.0
  }

  function TotalPicked(picks: seq<PickLine>, p: string): real {
    if picks == [] then 0.0
    else TotalPicked(picks[..|picks| - 1], p) + PickOf(picks[|picks| - 1], p)
  }

  /** What one more line is handed of p. */
  function Handed(catalog: Catalog, rows: seq<Row>, w: string, served: seq<OrderLine>, line: OrderLine,
                  p: string): real
  {
    if !Tracks(catalog, line, p) then 0.0
    else Min(Remaining(catalog, served, p, RowsReserved(rows, p, w)), line.quantity)
  }

  lemma PickIsHanded(catalog: Catalog, stock: Stock, rows: seq<Row>, w: string, served: seq<OrderLine>, line: OrderLine,
                     p: string)
    requires p != ""
    ensures PickOf(PickFor(catalog, stock, rows, w, served, line), p) == Handed(catalog, rows, w, served, line, p)
  {}

  lemma TotalPickedAppend(picks: seq<PickLine>, pick: PickLine, p: string)
    ensures TotalPicked(picks + [pick], p) == TotalPicked(picks, p) + PickOf(pick, p)
  {
    assert (picks + [pick])[..|picks|] == picks;
  }

  lemma TotalPickedStep(catalog: Catalog, stock: Stock, rows: seq<Row>, w: string, served: seq<OrderLine>,
                        line: OrderLine, p: string)
    requires p != ""
    ensures TotalPicked(PicksFor(catalog, stock, rows, w, served + [line]), p)
         == TotalPicked(PicksFor(catalog, stock, rows, w, served), p) + Handed(catalog, rows, w, served, line, p)
  {
    var longer := served + [line];
    PicksAppend(catalog, stock, rows, w, longer, |served|);
    assert longer[..|served|] == served && longer[..|longer|] == longer;
    TotalPickedAppend(PicksFor(catalog, stock, rows, w, served), PickFor(catalog, stock, rows, w, served, line), p);
    PickIsHanded(catalog, stock, rows, w, served, line, p);
  }

  lemma HandedStep(catalog: Catalog, rows: seq<Row>, w: string, served: seq<OrderLine>, line: OrderLine, p: string)
    requires NonNegative(served) && line.quantity >= 0.0 && RowsReserved(rows, p, w) >= 0.0
    ensures Min(RowsReserved(rows, p, w), Demand(catalog, served + [line], p))
         == Min(RowsReserved(rows, p, w), Demand(catalog, served, p)) + Handed(catalog, rows, w, served, line, p)
  {
    RemainingInClosedForm(catalog, served, p, RowsReserved(rows, p, w));
    DemandIsNonNegative(catalog, served, p);
    DemandAppend(catalog, served, line, p);
    if !AnyTracks(catalog, served, p) {
      UntrackedHasNoDemand(catalog, served, p);
    }
  }

  /** Picks of one product add up to exactly the smaller of what is reserved and what is demanded. */
  lemma {:induction false} TotalPickedIsExact(catalog: Catalog, stock: Stock, rows: seq<Row>, w: string,
                                              lines: seq<OrderLine>, p: string)
    requires NonNegative(lines) && p != "" && RowsReserved(rows, p, w) >= 0.0
    ensures TotalPicked(PicksFor(catalog, stock, rows, w, lines), p)
         == Min(RowsReserved(rows, p, w), Demand(catalog, lines, p))
  {
    if lines != [] {
      var front, last := lines[..|lines| - 1], lines[|lines| - 1];
      assert lines == front + [last];
      TotalPickedIsExact(catalog, stock, rows, w, front, p);
      TotalPickedStep(catalog, stock, rows, w, front, last, p);
      HandedStep(catalog, rows, w, front, last, p);
    }
  }

  /** Every tracked product is reserved in the quantity the whole order asks for. */
  ghost predicate ReservationsCover(catalog: Catalog, rows: seq<Row>, w: string, lines: seq<OrderLine>) {
    forall p :: AnyTracks(catalog, lines, p) ==> Demand(catalog, lines, p) <= RowsReserved(rows, p, w)
  }

  /** The pick list is ready exactly when no product is missing and reservations cover demand. It is the same
      question the stock check asks, put to the reservations. */
  lemma PicksReadyIffCovered(catalog: Catalog, stock: Stock, rows: seq<Row>, w: string, lines: seq<OrderLine>)
    requires NonNegative(lines)
    ensures AllPicked(PicksFor(catalog, stock, rows, w, lines))
       <==> !AnyMissing(catalog, lines) && ReservationsCover(catalog, rows, w, lines)
  {
    var pseudo := ReservedAsStock(catalog, rows, w);
    PicksLikeChecks(catalog, stock, rows, w, pseudo, lines);
    ReadyIffDemandFits(catalog, pseudo, "", lines);
    forall p | AnyTracks(catalog, lines, p) ensures Availability(pseudo, "", p) == RowsReserved(rows, p, w) {
      SoleLevel(RowsReserved(rows, p, w));
    }
  }

  /** The reservations laid out as if they were stock, one row per product. */
  function ReservedAsStock(catalog: Catalog, rows: seq<Row>, w: string): Stock {
    map p | p in catalog :: [StockLevel("", 0.0, 0.0, RowsReserved(rows, p, w))]
  }

  lemma SoleLevel(available: real)
    ensures SumAvailable([StockLevel("", 0.0, 0.0, available)], "") == available
  {
    assert [StockLevel("", 0.0, 0.0, available)][..0] == [];
  }

  lemma {:induction false} PicksLikeChecks(catalog: Catalog, stock: Stock, rows: seq<Row>, w: string, pseudo: Stock,
                                           lines: seq<OrderLine>)
    requires pseudo == ReservedAsStock(catalog, rows, w)
    ensures AllPicked(PicksFor(catalog, stock, rows, w, lines)) == AllServed(LineChecks(catalog, pseudo, "", lines))
  {
    if lines != [] {
      var n := |lines| - 1;
      var front, last := lines[..n], lines[n];
      PicksLikeChecks(catalog, stock, rows, w, pseudo, front);
      AllPickedAppend(PicksFor(catalog, stock, rows, w, front), PickFor(catalog, stock, rows, w, front, last));
      AllServedAppend(LineChecks(catalog, pseudo, "", front), LineCheck(catalog, pseudo, "", front, last));
      if Tracked(catalog, last) {
        SoleLevel(RowsReserved(rows, ProductRef(last), w));
      }
    }
  }

  /** On a ready pick list every tracked line is picked in full. */
  lemma {:induction false} ReadyPicksInFull(catalog: Catalog, stock: Stock, rows: seq<Row>, w: string,
                                            lines: seq<OrderLine>, i: nat)
    requires AllPicked(PicksFor(catalog, stock, rows, w, lines)) && i < |lines| && Tracked(catalog, lines[i])
    ensures var picks := PicksFor(catalog, stock, rows, w, lines);
      picks[i].status == Ready && picks[i].pickQty == lines[i].quantity && picks[i].shortageQty == 0.0
  {
    var n := |lines| - 1;
    AllPickedAppend(PicksFor(catalog, stock, rows, w, lines[..n]),
                    PickFor(catalog, stock, rows, w, lines[..n], lines[n]));
    if i < n {
      ReadyPicksInFull(catalog, stock, rows, w, lines[..n], i);
    }
  }
}
