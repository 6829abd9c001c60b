// Orders, products and stock levels, and what an order demands of each tracked product.
module OrderStock {
  import opened Options
  import opened Text

  datatype ProductType = Goods | Service

  datatype Product = Product(code: string, name: string, productType: ProductType, trackInventory: bool)

  type Catalog = map<string, Product>

  datatype OrderLine = OrderLine(
    id: string, lineNumber: int, description: string, quantity: real, productId: Option<string>)

  datatype Order = Order(id: string, number: string, lines: seq<OrderLine>)

  datatype StockLevel = StockLevel(warehouseId: string, quantity: real, reservedQty: real, availableQty: real)

  /** The stock-level rows of each product. */
  type Stock = map<string, seq<StockLevel>>

  /** The product a line names, or "" when it names none. */
  function ProductRef(line: OrderLine): string {
    match line.productId
    case None => ""
    case Some(raw) => TrimSpace(raw)
  }

  predicate Missing(catalog: Catalog, line: OrderLine) {
    ProductRef(line) != "" && ProductRef(line) !in catalog
  }

  predicate Tracked(catalog: Catalog, line: OrderLine) {
    && ProductRef(line) != ""
    && ProductRef(line) in catalog
    && catalog[ProductRef(line)].productType == Goods
    && catalog[ProductRef(line)].trackInventory
  }

  predicate Tracks(catalog: Catalog, line: OrderLine, p: string) {
    Tracked(catalog, line) && ProductRef(line) == p
  }

  /** Some line is a tracked line for p. */
  predicate AnyTracks(catalog: Catalog, lines: seq<OrderLine>, p: string): (r: bool)
    ensures r ==> p in catalog
  {
    lines != [] && (AnyTracks(catalog, lines[..|lines| - 1], p) || Tracks(catalog, lines[|lines| - 1], p))
  }

  predicate AnyMissing(catalog: Catalog, lines: seq<OrderLine>) {
    exists i :: 0 <= i < |lines| && Missing(catalog, lines[i])
  }

  /** What one line asks for of p. */
  function Share(catalog: Catalog, line: OrderLine, p: string): real {
    if Tracks(catalog, line, p) then line.quantity else 0.0
  }

  /** The quantity of p that the lines ask for together. */
  function Demand(catalog: Catalog, lines: seq<OrderLine>, p: string): real {
    if lines == [] then 0.0
    else Demand(catalog, lines[..|lines| - 1], p) + Share(catalog, lines[|lines| - 1], p)
  }

  predicate NonNegative(lines: seq<OrderLine>) {
    forall i :: 0 <= i < |lines| ==> lines[i].quantity >= 0.0
  }

  /** What order validation demands of every line it stores. */
  predicate Positive(lines: seq<OrderLine>) {
    forall i :: 0 <= i < |lines| ==> lines[i].quantity > 0.0
  }

  /** Available stock summed over one warehouse, or over all of them when the warehouse is "". */
  function SumAvailable(levels: seq<StockLevel>, warehouseId: string): real {
    if levels == [] then 0.0
    else
      var last := levels[|levels| - 1];
      SumAvailable(levels[..|levels| - 1], warehouseId)
      + if warehouseId != "" && last.warehouseId != warehouseId then 0.0 else last.availableQty
  }

  function LevelsOf(stock: Stock, p: string): seq<StockLevel> {
    if p in stock then stock[p] else []
  }

  function Availability(stock: Stock, warehouseId: string, p: string): real {
    SumAvailable(LevelsOf(stock, p), warehouseId)
  }

  function Max(a: real, b: real): real {
    if a < b then b else a
  }

  function Min(a: real, b: real): real {
    if a < b then a else b
  }

  // ----- Demand -----

  lemma {:induction false} DemandIsNonNegative(catalog: Catalog, lines: seq<OrderLine>, p: string)
    requires NonNegative(lines)
    ensures Demand(catalog, lines, p) >= 0.0
  {
    if lines != [] {
      DemandIsNonNegative(catalog, lines[..|lines| - 1], p);
    }
  }

  lemma {:induction false} DemandIsMonotone(catalog: Catalog, lines: seq<OrderLine>, n: nat, p: string)
    requires NonNegative(lines) && n <= |lines|
    ensures Demand(catalog, lines[..n], p) <= Demand(catalog, lines, p)
    decreases |lines|
  {
    if n == |lines| {
      assert lines[..n] == lines;
    } else {
      assert lines[..|lines| - 1][..n] == lines[..n];
      DemandIsMonotone(catalog, lines[..|lines| - 1], n, p);
    }
  }

  lemma {:induction false} TrackingLine(catalog: Catalog, lines: seq<OrderLine>, p: string) returns (i: nat)
    requires AnyTracks(catalog, lines, p)
    ensures i < |lines| && Tracks(catalog, lines[i], p)
  {
    i := |lines| - 1;
    if !Tracks(catalog, lines[i], p) {
      i := TrackingLine(catalog, lines[..i], p);
    }
  }

  lemma {:induction false} LineTracks(catalog: Catalog, lines: seq<OrderLine>, p: string, i: nat)
    requires i < |lines| && Tracks(catalog, lines[i], p)
    ensures AnyTracks(catalog, lines, p)
  {
    var n := |lines| - 1;
    if i < n {
      LineTracks(catalog, lines[..n], p, i);
    }
  }

  lemma {:induction false} UntrackedHasNoDemand(catalog: Catalog, lines: seq<OrderLine>, p: string)
    requires !AnyTracks(catalog, lines, p)
    ensures Demand(catalog, lines, p) == 0.0
  {
    if lines != [] {
      UntrackedHasNoDemand(catalog, lines[..|lines| - 1], p);
    }
  }

  lemma {:induction false} TrackedDemandIsPositive(catalog: Catalog, lines: seq<OrderLine>, p: string)
    requires Positive(lines) && AnyTracks(catalog, lines, p)
    ensures Demand(catalog, lines, p) > 0.0
  {
    var front := lines[..|lines| - 1];
    DemandIsNonNegative(catalog, front, p);
    if AnyTracks(catalog, front, p) {
      TrackedDemandIsPositive(catalog, front, p);
    }
  }

  function Without<T>(s: seq<T>, i: nat): seq<T>
    requires i < |s|
  {
    s[..i] + s[i + 1..]
  }

  lemma MultisetWithout<T>(s: seq<T>, i: nat)
    requires i < |s|
    ensures multiset(s) == multiset(Without(s, i)) + multiset{s[i]}
  {
    assert s == s[..i] + [s[i]] + s[i + 1..];
  }

  /** The last line of a sits somewhere in any permutation of a; the other lines are permutations too. */
  lemma MatchLast<T>(a: seq<T>, b: seq<T>) returns (i: nat)
    requires a != [] && multiset(a) == multiset(b)
    ensures i < |b| && b[i] == a[|a| - 1]
    ensures multiset(a[..|a| - 1]) == multiset(Without(b, i))
  {
    var n := |a| - 1;
    assert a[n] in multiset(b);
    i :| 0 <= i < |b| && b[i] == a[n];
    MultisetWithout(b, i);
    MultisetWithout(a, n);
    assert Without(a, n) == a[..n];
    assert multiset(a[..n]) == multiset(a) - multiset{a[n]};
  }

  lemma DemandAppend(catalog: Catalog, lines: seq<OrderLine>, line: OrderLine, p: string)
    ensures Demand(catalog, lines + [line], p) == Demand(catalog, lines, p) + Share(catalog, line, p)
  {
    assert (lines + [line])[..|lines|] == lines;
  }

  /** Taking any one line out lowers the demand by exactly that line's share. */
  lemma {:induction false} DemandWithout(catalog: Catalog, lines: seq<OrderLine>, i: nat, p: string)
    requires i < |lines|
    ensures Demand(catalog, lines, p) == Demand(catalog, Without(lines, i), p) + Share(catalog, lines[i], p)
    decreases |lines|
  {
    var n := |lines| - 1;
    if i == n {
      assert Without(lines, i) == lines[..n];
    } else {
      assert Without(lines, i) == Without(lines[..n], i) + [lines[n]];
      DemandAppend(catalog, Without(lines[..n], i), lines[n], p);
      DemandWithout(catalog, lines[..n], i, p);
    }
  }

  /** Demand does not depend on the order in which the lines are listed. */
  lemma {:induction false} DemandOfPermutation(catalog: Catalog, a: seq<OrderLine>, b: seq<OrderLine>, p: string)
    requires multiset(a) == multiset(b)
    ensures Demand(catalog, a, p) == Demand(catalog, b, p)
    decreases |a|
  {
    if a == [] {
      assert |multiset(b)| == 0;
    } else {
      var i := MatchLast(a, b);
      DemandOfPermutation(catalog, a[..|a| - 1], Without(b, i), p);
      DemandWithout(catalog, b, i, p);
    }
  }

  lemma PermutationKeepsLines<T>(a: seq<T>, b: seq<T>, i: nat) returns (j: nat)
    requires multiset(a) == multiset(b) && i < |a|
    ensures j < |b| && b[j] == a[i]
  {
    assert a[i] in multiset(b);
    j :| 0 <= j < |b| && b[j] == a[i];
  }
}
