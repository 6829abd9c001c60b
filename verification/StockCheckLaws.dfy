// What the greedy stock check decides, stated by total demand and total availability.
module StockCheckLaws {
  import opened OrderStock
  import opened StockCheck

  /** Total shortage reported for the lines that name p. */
  function TotalShortage(checks: seq<CheckLine>, p: string): real {
    if checks == [] then 0.0
    else TotalShortage(checks[..|checks| - 1], p) + ShortOf(checks[|checks| - 1], p)
  }

  /** Each tracked line fits into what is available, counting the lines before it. */
  ghost predicate PrefixesFit(catalog: Catalog, stock: Stock, w: string, lines: seq<OrderLine>) {
    forall i :: 0 <= i < |lines| ==> FitsAt(catalog, stock, w, lines, i)
  }

  predicate FitsAt(catalog: Catalog, stock: Stock, w: string, lines: seq<OrderLine>, i: nat)
    requires i < |lines|
  {
    Tracked(catalog, lines[i]) ==>
      Demand(catalog, lines[..i + 1], ProductRef(lines[i])) <= Availability(stock, w, ProductRef(lines[i]))
  }

  predicate FitsAfter(catalog: Catalog, stock: Stock, w: string, served: seq<OrderLine>, line: OrderLine) {
    Tracked(catalog, line) ==>
      Demand(catalog, served, ProductRef(line)) + line.quantity <= Availability(stock, w, ProductRef(line))
  }

  /** Every product on a tracked line is available in the quantity the whole order asks for. */
  ghost predicate DemandFits(catalog: Catalog, stock: Stock, w: string, lines: seq<OrderLine>) {
    forall p :: AnyTracks(catalog, lines, p) ==> Demand(catalog, lines, p) <= Availability(stock, w, p)
  }

  /** For any quantities at all, an order is ready exactly when no product is missing and every prefix fits. */
  lemma {:induction false} ReadyIffPrefixesFit(catalog: Catalog, stock: Stock, w: string, lines: seq<OrderLine>)
    ensures AllServed(LineChecks(catalog, stock, w, lines))
       <==> !AnyMissing(catalog, lines) && PrefixesFit(catalog, stock, w, lines)
    ensures AllServed(LineChecks(catalog, stock, w, lines)) ==>
      forall p :: Remaining(catalog, lines, p, Availability(stock, w, p))
               == Availability(stock, w, p) - Demand(catalog, lines, p)
  {
    if lines != [] {
      var n := |lines| - 1;
      var front, last := lines[..n], lines[n];
      ReadyIffPrefixesFit(catalog, stock, w, front);
      AllServedAppend(LineChecks(catalog, stock, w, front), LineCheck(catalog, stock, w, front, last));
      AnyMissingLast(catalog, lines);
      PrefixesFitLast(catalog, stock, w, lines);
    }
  }

  lemma AnyMissingLast(catalog: Catalog, lines: seq<OrderLine>)
    requires lines != []
    ensures AnyMissing(catalog, lines)
       <==> AnyMissing(catalog, lines[..|lines| - 1]) || Missing(catalog, lines[|lines| - 1])
  {
    var front := lines[..|lines| - 1];
    assert forall i :: 0 <= i < |front| ==> front[i] == lines[i];
    if AnyMissing(catalog, front) {
      var i :| 0 <= i < |front| && Missing(catalog, front[i]);
      assert Missing(catalog, lines[i]);
    }
  }

  /** The i-th line of a longer order fits like the i-th line of its front. */
  lemma FitsInFront(catalog: Catalog, stock: Stock, w: string, lines: seq<OrderLine>, i: nat)
    requires i < |lines| - 1
    ensures var front := lines[..|lines| - 1];
      front[i] == lines[i] && FitsAt(catalog, stock, w, front, i) == FitsAt(catalog, stock, w, lines, i)
  {
    assert lines[..|lines| - 1][..i + 1] == lines[..i + 1];
  }

  lemma FitsLast(catalog: Catalog, stock: Stock, w: string, lines: seq<OrderLine>)
    requires lines != []
    ensures FitsAt(catalog, stock, w, lines, |lines| - 1)
       <==> FitsAfter(catalog, stock, w, lines[..|lines| - 1], lines[|lines| - 1])
  {
    var front, last := lines[..|lines| - 1], lines[|lines| - 1];
    assert lines[..|lines|] == lines && front + [last] == lines;
    DemandAppend(catalog, front, last, ProductRef(last));
  }

  lemma PrefixesFitLast(catalog: Catalog, stock: Stock, w: string, lines: seq<OrderLine>)
    requires lines != []
    ensures PrefixesFit(catalog, stock, w, lines)
       <==> PrefixesFit(catalog, stock, w, lines[..|lines| - 1])
            && FitsAfter(catalog, stock, w, lines[..|lines| - 1], lines[|lines| - 1])
  {
    var front := lines[..|lines| - 1];
    FitsLast(catalog, stock, w, lines);
    if PrefixesFit(catalog, stock, w, lines) {
      forall i | 0 <= i < |front| ensures FitsAt(catalog, stock, w, front, i) {
        FitsInFront(catalog, stock, w, lines, i);
      }
    } else {
      var i :| 0 <= i < |lines| && !FitsAt(catalog, stock, w, lines, i);
      if i < |front| {
        FitsInFront(catalog, stock, w, lines, i);
      }
    }
  }

  /** For the quantities an order may hold, readiness is a matter of totals per product. */
  lemma ReadyIffDemandFits(catalog: Catalog, stock: Stock, w: string, lines: seq<OrderLine>)
    requires NonNegative(lines)
    ensures AllServed(LineChecks(catalog, stock, w, lines))
       <==> !AnyMissing(catalog, lines) && DemandFits(catalog, stock, w, lines)
  {
    ReadyIffPrefixesFit(catalog, stock, w, lines);
    if DemandFits(catalog, stock, w, lines) {
      forall i | 0 <= i < |lines| ensures FitsAt(catalog, stock, w, lines, i) {
        if Tracked(catalog, lines[i]) {
          LineTracks(catalog, lines, ProductRef(lines[i]), i);
          DemandIsMonotone(catalog, lines, i + 1, ProductRef(lines[i]));
        }
      }
    }
    if PrefixesFit(catalog, stock, w, lines) {
      forall p | AnyTracks(catalog, lines, p)
        ensures Demand(catalog, lines, p) <= Availability(stock, w, p)
      {
        var i := LastTrackingLine(catalog, lines, p);
        assert FitsAt(catalog, stock, w, lines, i);
      }
    }
  }

  /** The demand of a product is already complete at the last line that tracks it. */
  lemma {:induction false} LastTrackingLine(catalog: Catalog, lines: seq<OrderLine>, p: string) returns (i: nat)
    requires AnyTracks(catalog, lines, p)
    ensures i < |lines| && Tracks(catalog, lines[i], p)
    ensures Demand(catalog, lines[..i + 1], p) == Demand(catalog, lines, p)
  {
    i := |lines| - 1;
    if Tracks(catalog, lines[i], p) {
      assert lines[..i + 1] == lines;
    } else {
      var n := i;
      i := LastTrackingLine(catalog, lines[..n], p);
      assert lines[..n][..i + 1] == lines[..i + 1];
    }
  }

  lemma {:induction false} RemainingInClosedForm(catalog: Catalog, lines: seq<OrderLine>, p: string, initial: real)
    requires NonNegative(lines)
    ensures Remaining(catalog, lines, p, initial)
         == if AnyTracks(catalog, lines, p) then Max(0.0, initial - Demand(catalog, lines, p)) else initial
  {
    if lines != [] {
      var front := lines[..|lines| - 1];
      RemainingInClosedForm(catalog, front, p, initial);
      DemandIsNonNegative(catalog, front, p);
      if !AnyTracks(catalog, front, p) {
        UntrackedHasNoDemand(catalog, front, p);
      }
    }
  }

  const ANY_GOODS := Product("", "", Goods, true)

  /** What one more line adds to the shortage of p. */
  function ShortageStep(catalog: Catalog, stock: Stock, w: string, served: seq<OrderLine>, line: OrderLine, p: string)
    : real
  {
    if ProductRef(line) != p then 0.0
    else if p !in catalog then line.quantity
    else if !Tracked(catalog, line) then 0.0
    else Max(0.0, line.quantity - Remaining(catalog, served, p, Availability(stock, w, p)))
  }

  function ShortOf(check: CheckLine, p: string): real {
    if check.productId == p then check.shortageQty else 0.0
  }

  lemma LineShortage(catalog: Catalog, stock: Stock, w: string, served: seq<OrderLine>, line: OrderLine, p: string)
    requires p != ""
    ensures ShortOf(LineCheck(catalog, stock, w, served, line), p) == ShortageStep(catalog, stock, w, served, line, p)
  {}

  lemma TotalShortageAppend(checks: seq<CheckLine>, check: CheckLine, p: string)
    ensures TotalShortage(checks + [check], p)
         == TotalShortage(checks, p) + ShortOf(check, p)
  {
    assert (checks + [check])[..|checks|] == checks;
  }

  /** What p falls short by in total, from total demand and total availability alone. A product that does not
      exist is short by everything that is asked of it. */
  function ExpectedShortage(catalog: Catalog, stock: Stock, w: string, lines: seq<OrderLine>, p: string): real {
    if p !in catalog then Demand(catalog[p := ANY_GOODS], lines, p)
    else if AnyTracks(catalog, lines, p) then Max(0.0, Demand(catalog, lines, p) - Availability(stock, w, p))
    else 0.0
  }

  lemma ExpectedShortageAppend(catalog: Catalog, stock: Stock, w: string, served: seq<OrderLine>, line: OrderLine,
                               p: string)
    requires NonNegative(served) && line.quantity >= 0.0 && p != ""
    ensures ExpectedShortage(catalog, stock, w, served + [line], p)
         == ExpectedShortage(catalog, stock, w, served, p) + ShortageStep(catalog, stock, w, served, line, p)
  {
    assert (served + [line])[..|served|] == served;
    DemandAppend(catalog, served, line, p);
    DemandAppend(catalog[p := ANY_GOODS], served, line, p);
    if p in catalog {
      RemainingInClosedForm(catalog, served, p, Availability(stock, w, p));
      DemandIsNonNegative(catalog, served, p);
      if !AnyTracks(catalog, served, p) {
        UntrackedHasNoDemand(catalog, served, p);
      }
    }
  }

  lemma TotalShortageStep(catalog: Catalog, stock: Stock, w: string, served: seq<OrderLine>, line: OrderLine, p: string)
    requires p != ""
    ensures TotalShortage(LineChecks(catalog, stock, w, served + [line]), p)
         == TotalShortage(LineChecks(catalog, stock, w, served), p) + ShortageStep(catalog, stock, w, served, line, p)
  {
    LineChecksOfLonger(catalog, stock, w, served, line);
    TotalShortageAppend(LineChecks(catalog, stock, w, served), LineCheck(catalog, stock, w, served, line), p);
    LineShortage(catalog, stock, w, served, line, p);
  }

  /** Shortages of one product add up to exactly what its total demand exceeds its total availability by. */
  lemma {:induction false} TotalShortageIsExact(catalog: Catalog, stock: Stock, w: string, lines: seq<OrderLine>,
                                                p: string)
    requires NonNegative(lines) && p != ""
    ensures TotalShortage(LineChecks(catalog, stock, w, lines), p) == ExpectedShortage(catalog, stock, w, lines, p)
  {
    if lines != [] {
      var front, last := lines[..|lines| - 1], lines[|lines| - 1];
      assert lines == front + [last];
      TotalShortageIsExact(catalog, stock, w, front, p);
      TotalShortageStep(catalog, stock, w, front, last, p);
      ExpectedShortageAppend(catalog, stock, w, front, last, p);
    }
  }

  /** Listing the same lines in another order changes neither readiness nor any product's total shortage. */
  lemma {:induction false} LineOrderDoesNotMatter(catalog: Catalog, stock: Stock, w: string, a: seq<OrderLine>,
                                                  b: seq<OrderLine>)
    requires NonNegative(a) && multiset(a) == multiset(b)
    ensures AllServed(LineChecks(catalog, stock, w, a)) == AllServed(LineChecks(catalog, stock, w, b))
    ensures forall p :: p != "" ==>
      TotalShortage(LineChecks(catalog, stock, w, a), p) == TotalShortage(LineChecks(catalog, stock, w, b), p)
  {
    forall i | 0 <= i < |b| ensures b[i].quantity >= 0.0 {
      var j := PermutationKeepsLines(b, a, i);
    }
    DecidedByTheLines(catalog, stock, w, a, b);
    DecidedByTheLines(catalog, stock, w, b, a);
    ReadyIffDemandFits(catalog, stock, w, a);
    ReadyIffDemandFits(catalog, stock, w, b);
    forall p | p != ""
      ensures TotalShortage(LineChecks(catalog, stock, w, a), p) == TotalShortage(LineChecks(catalog, stock, w, b), p)
    {
      ShortageOfPermutation(catalog, stock, w, a, b, p);
    }
  }

  lemma ShortageOfPermutation(catalog: Catalog, stock: Stock, w: string, a: seq<OrderLine>, b: seq<OrderLine>,
                              p: string)
    requires NonNegative(a) && NonNegative(b) && multiset(a) == multiset(b) && p != ""
    ensures TotalShortage(LineChecks(catalog, stock, w, a), p) == TotalShortage(LineChecks(catalog, stock, w, b), p)
  {
    TotalShortageIsExact(catalog, stock, w, a, p);
    TotalShortageIsExact(catalog, stock, w, b, p);
    DecidedByTheLines(catalog, stock, w, a, b);
    DecidedByTheLines(catalog, stock, w, b, a);
    DemandOfPermutation(catalog, a, b, p);
    DemandOfPermutation(catalog[p := ANY_GOODS], a, b, p);
  }

  lemma DecidedByTheLines(catalog: Catalog, stock: Stock, w: string, a: seq<OrderLine>, b: seq<OrderLine>)
    requires multiset(a) == multiset(b)
    ensures AnyMissing(catalog, a) ==> AnyMissing(catalog, b)
    ensures forall p :: AnyTracks(catalog, a, p) ==> AnyTracks(catalog, b, p)
    ensures DemandFits(catalog, stock, w, b) ==> DemandFits(catalog, stock, w, a)
  {
    if AnyMissing(catalog, a) {
      var i :| 0 <= i < |a| && Missing(catalog, a[i]);
      var j := PermutationKeepsLines(a, b, i);
      assert Missing(catalog, b[j]);
    }
    forall p | AnyTracks(catalog, a, p) ensures AnyTracks(catalog, b, p) {
      var i := TrackingLine(catalog, a, p);
      var j := PermutationKeepsLines(a, b, i);
      LineTracks(catalog, b, p, j);
    }
    if DemandFits(catalog, stock, w, b) {
      forall p | AnyTracks(catalog, a, p) ensures Demand(catalog, a, p) <= Availability(stock, w, p) {
        DemandOfPermutation(catalog, a, b, p);
      }
    }
  }

  lemma TwoLines(catalog: Catalog, stock: Stock, w: string, x: OrderLine, y: OrderLine, p: string)
    requires Tracks(catalog, x, p) && Tracks(catalog, y, p)
    ensures AllServed(LineChecks(catalog, stock, w, [x, y]))
       <==> x.quantity <= Availability(stock, w, p) && x.quantity + y.quantity <= Availability(stock, w, p)
  {
    ReadyIffPrefixesFit(catalog, stock, w, [x, y]);
    var none: seq<OrderLine> := [];
    assert [x, y][..1] == [x] == none + [x] && [x][..0] == none;
    PrefixesFitLast(catalog, stock, w, [x]);
    PrefixesFitLast(catalog, stock, w, [x, y]);
    DemandAppend(catalog, none, x, p);
  }

  /** Readiness ignores line order only because quantities are not negative: with a return line of -5 and
      a sale of 5 against an empty warehouse, the verdict depends on which comes first. */
  lemma NegativeQuantitiesMakeOrderMatter(catalog: Catalog, sale: OrderLine, refund: OrderLine, p: string)
    requires Tracks(catalog, sale, p) && Tracks(catalog, refund, p)
    requires sale.quantity == 5.0 && refund.quantity == -5.0
    ensures multiset([refund, sale]) == multiset([sale, refund])
    ensures AllServed(LineChecks(catalog, map[], "", [refund, sale]))
    ensures !AllServed(LineChecks(catalog, map[], "", [sale, refund]))
  {
    TwoLines(catalog, map[], "", refund, sale, p);
    TwoLines(catalog, map[], "", sale, refund, p);
  }

  /** The line results do depend on the order of the lines: whichever comes later is the one found short. */
  lemma {:induction false} LineResultsDependOnOrder(catalog: Catalog, stock: Stock, w: string, x: OrderLine,
                                                    y: OrderLine, p: string)
    requires Tracks(catalog, x, p) && Tracks(catalog, y, p)
    requires 0.0 < x.quantity <= Availability(stock, w, p) && 0.0 < y.quantity <= Availability(stock, w, p)
    requires Availability(stock, w, p) < x.quantity + y.quantity
    ensures LineCheck(catalog, stock, w, [], x).status == Available
    ensures LineCheck(catalog, stock, w, [x], y).status == Shortage
  {
    assert [x][..0] == [];
  }
}
