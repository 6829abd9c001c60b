// What the per-product aggregates of a check are, said without the check.
module AggregateLaws {
  import opened Options
  import opened OrderStock
  import opened StockCheck
  import opened StockReservation

  /** p's whole demand, named as the catalogue names p. */
  function DemandAggregate(catalog: Catalog, lines: seq<OrderLine>, p: string): Option<Aggregate> {
    if AnyTracks(catalog, lines, p)
    then Some(Aggregate(p, catalog[p].code, catalog[p].name, Demand(catalog, lines, p)))
    else None
  }

  /** How one more line changes it. */
  function Raise(before: Option<Aggregate>, catalog: Catalog, line: OrderLine, p: string): Option<Aggregate> {
    if !Tracks(catalog, line, p) then before
    else match before
         case None => Some(Aggregate(p, catalog[p].code, catalog[p].name, line.quantity))
         case Some(a) => Some(a.(quantity := a.quantity + line.quantity))
  }

  lemma DemandAggregateAppend(catalog: Catalog, lines: seq<OrderLine>, line: OrderLine, p: string)
    ensures DemandAggregate(catalog, lines + [line], p) == Raise(DemandAggregate(catalog, lines, p), catalog, line, p)
  {
    assert (lines + [line])[..|lines|] == lines;
    DemandAppend(catalog, lines, line, p);
    if !AnyTracks(catalog, lines, p) {
      UntrackedHasNoDemand(catalog, lines, p);
    }
  }

  lemma AggregateForAppend(checks: seq<CheckLine>, check: CheckLine, p: string)
    ensures AggregateFor(checks + [check], p)
         == if !Counted(check) || check.productId != p then AggregateFor(checks, p)
            else match AggregateFor(checks, p)
                 case None => Some(Aggregate(p, check.productCode, check.productName, check.requiredQty))
                 case Some(a) => Some(a.(quantity := a.quantity + check.requiredQty))
  {
    assert (checks + [check])[..|checks|] == checks;
  }

  lemma AggregateAppend(catalog: Catalog, stock: Stock, w: string, lines: seq<OrderLine>, line: OrderLine, p: string)
    ensures AggregateFor(LineChecks(catalog, stock, w, lines + [line]), p)
         == Raise(AggregateFor(LineChecks(catalog, stock, w, lines), p), catalog, line, p)
  {
    LineChecksOfLonger(catalog, stock, w, lines, line);
    AggregateForAppend(LineChecks(catalog, stock, w, lines), LineCheck(catalog, stock, w, lines, line), p);
    CountedIffTracked(catalog, stock, w, lines, line);
  }

  /** The aggregate of p depends on the lines and the catalogue alone, never on stock: it is p's demand. */
  lemma {:induction false} AggregateIsDemand(catalog: Catalog, stock: Stock, w: string, lines: seq<OrderLine>,
                                             p: string)
    ensures AggregateFor(LineChecks(catalog, stock, w, lines), p) == DemandAggregate(catalog, lines, p)
  {
    if lines != [] {
      var front, last := lines[..|lines| - 1], lines[|lines| - 1];
      assert lines == front + [last];
      AggregateIsDemand(catalog, stock, w, front, p);
      AggregateAppend(catalog, stock, w, front, last, p);
      DemandAggregateAppend(catalog, front, last, p);
    }
  }

  lemma CountedIffTracked(catalog: Catalog, stock: Stock, w: string, served: seq<OrderLine>, line: OrderLine)
    ensures var check := LineCheck(catalog, stock, w, served, line);
      && (Counted(check) <==> Tracked(catalog, line))
      && check.productId == ProductRef(line)
      && check.requiredQty == line.quantity
      && (Tracked(catalog, line) ==>
            && check.productCode == catalog[ProductRef(line)].code
            && check.productName == catalog[ProductRef(line)].name)
  {}

  /** The first line that tracks p, or the number of lines. */
  function FirstLine(catalog: Catalog, lines: seq<OrderLine>, p: string): (i: nat)
    ensures i <= |lines|
    ensures i < |lines| ==> Tracks(catalog, lines[i], p)
    ensures forall j :: 0 <= j < i ==> !Tracks(catalog, lines[j], p)
  {
    if lines == [] then 0
    else
      var n := |lines| - 1;
      var i := FirstLine(catalog, lines[..n], p);
      assert forall j :: 0 <= j < n ==> lines[..n][j] == lines[j];
      if i < n then i else if Tracks(catalog, lines[n], p) then n else n + 1
  }

  /** The tracked products of an order, each once, as its lines first name them. */
  function TrackedProducts(catalog: Catalog, lines: seq<OrderLine>): (products: seq<string>)
    ensures forall p :: p in products <==> AnyTracks(catalog, lines, p)
  {
    if lines == [] then []
    else
      var last, before := lines[|lines| - 1], TrackedProducts(catalog, lines[..|lines| - 1]);
      if Tracked(catalog, last) && ProductRef(last) !in before then before + [ProductRef(last)] else before
  }

  lemma FirstSeenAppend(checks: seq<CheckLine>, check: CheckLine)
    ensures FirstSeen(checks + [check])
         == if Counted(check) && check.productId !in FirstSeen(checks) then FirstSeen(checks) + [check.productId]
            else FirstSeen(checks)
  {
    assert (checks + [check])[..|checks|] == checks;
  }

  lemma {:induction false} FirstSeenIsTracked(catalog: Catalog, stock: Stock, w: string, lines: seq<OrderLine>)
    ensures FirstSeen(LineChecks(catalog, stock, w, lines)) == TrackedProducts(catalog, lines)
  {
    if lines != [] {
      var front, last := lines[..|lines| - 1], lines[|lines| - 1];
      FirstSeenIsTracked(catalog, stock, w, front);
      CountedIffTracked(catalog, stock, w, front, last);
      FirstSeenAppend(LineChecks(catalog, stock, w, front), LineCheck(catalog, stock, w, front, last));
    }
  }

  ghost predicate InFirstSeenOrder(catalog: Catalog, lines: seq<OrderLine>, products: seq<string>) {
    && (forall p :: p in products <==> AnyTracks(catalog, lines, p))
    && (forall i, j :: 0 <= i < j < |products| ==>
          FirstLine(catalog, lines, products[i]) < FirstLine(catalog, lines, products[j]))
  }

  /** The list of products holds each tracked product once, in the order in which the order first names them. */
  lemma {:induction false} TrackedProductsInOrder(catalog: Catalog, lines: seq<OrderLine>)
    ensures InFirstSeenOrder(catalog, lines, TrackedProducts(catalog, lines))
  {
    if lines != [] {
      var n := |lines| - 1;
      var front, p := lines[..n], ProductRef(lines[n]);
      TrackedProductsInOrder(catalog, front);
      var before := TrackedProducts(catalog, front);
      forall p | p in before ensures FirstLine(catalog, lines, p) == FirstLine(catalog, front, p) < n {
        var i := TrackingLine(catalog, front, p);
      }
      if p !in before {
        NeverTracked(catalog, front, p);
      }
    }
  }

  lemma NeverTracked(catalog: Catalog, lines: seq<OrderLine>, p: string)
    requires !AnyTracks(catalog, lines, p)
    ensures FirstLine(catalog, lines, p) == |lines|
  {
    var i := FirstLine(catalog, lines, p);
    if i < |lines| {
      LineTracks(catalog, lines, p, i);
    }
  }

  /** The aggregates an order leads to: one per tracked product, each asking for the product's whole demand. */
  ghost predicate AreAggregates(catalog: Catalog, lines: seq<OrderLine>, aggregates: seq<Aggregate>) {
    && (forall i :: 0 <= i < |aggregates| ==>
          && AnyTracks(catalog, lines, aggregates[i].productId)
          && aggregates[i].quantity == Demand(catalog, lines, aggregates[i].productId))
    && (forall p :: AnyTracks(catalog, lines, p) ==> exists i :: 0 <= i < |aggregates| && aggregates[i].productId == p)
    && Distinct(aggregates)
  }

  ghost predicate Distinct(aggregates: seq<Aggregate>) {
    forall i, j :: 0 <= i < j < |aggregates| ==> aggregates[i].productId != aggregates[j].productId
  }

  lemma {:induction false} AggregatesOfCheck(catalog: Catalog, stock: Stock, w: string, lines: seq<OrderLine>)
    ensures AreAggregates(catalog, lines, Aggregates(LineChecks(catalog, stock, w, lines)))
  {
    var checks := LineChecks(catalog, stock, w, lines);
    var products, aggregates := FirstSeen(checks), Aggregates(checks);
    FirstSeenIsTracked(catalog, stock, w, lines);
    TrackedProductsInOrder(catalog, lines);
    forall i | 0 <= i < |aggregates|
      ensures aggregates[i].productId == products[i]
      ensures AnyTracks(catalog, lines, products[i])
      ensures aggregates[i].quantity == Demand(catalog, lines, products[i])
    {
      AggregateIsDemand(catalog, stock, w, lines, products[i]);
      assert products[i] in products;
    }
    forall p | AnyTracks(catalog, lines, p) ensures exists i :: 0 <= i < |aggregates| && aggregates[i].productId == p {
      var i :| 0 <= i < |products| && products[i] == p;
      assert aggregates[i].productId == p;
    }
  }

  /** Checking the same order against other stock gives the very same aggregates, in the same order. */
  lemma {:induction false} AggregatesIgnoreStock(catalog: Catalog, a: Stock, b: Stock, w: string, lines: seq<OrderLine>)
    ensures Aggregates(LineChecks(catalog, a, w, lines)) == Aggregates(LineChecks(catalog, b, w, lines))
  {
    var x, y := LineChecks(catalog, a, w, lines), LineChecks(catalog, b, w, lines);
    FirstSeenIsTracked(catalog, a, w, lines);
    FirstSeenIsTracked(catalog, b, w, lines);
    var products := FirstSeen(x);
    forall i | 0 <= i < |products| ensures Aggregates(x)[i] == Aggregates(y)[i] {
      AggregateIsDemand(catalog, a, w, lines, products[i]);
      AggregateIsDemand(catalog, b, w, lines, products[i]);
    }
  }
}
