// Cell references of a worksheet: column letters, counted without a zero digit, and the row number.
module CellRefs {
  // ----- Column letters -----

  const LETTERS := 26

  function Letter(k: nat): (c: char)
    requires k < LETTERS
    ensures 'A' <= c <= 'Z' && c as int - 'A' as int == k
  {
    ('A' as int + k) as char
  }

  predicate AllLetters(s: string) {
    forall i :: 0 <= i < |s| ==> 'A' <= s[i] <= 'Z'
  }

  /** The column that letters name: A to Z stand for 1 to 26, and each further letter is worth 26 times more. */
  function ColumnOf(letters: string): nat
    requires AllLetters(letters)
  {
    if letters == "" then 0
    else
      var n := |letters| - 1;
      ColumnOf(letters[..n]) * LETTERS + (letters[n] as int - 'A' as int + 1)
  }

  /** The letters of a column. */
  function Letters(column: int): (letters: string)
    ensures AllLetters(letters)
    decreases if column > 0 then column else 0
  {
    if column <= 0 then "" else Letters((column - 1) / LETTERS) + [Letter((column - 1) % LETTERS)]
  }

  lemma {:induction false} LettersNameTheirColumn(column: nat)
    ensures ColumnOf(Letters(column)) == column
  {
    if column > 0 {
      LettersNameTheirColumn((column - 1) / LETTERS);
      var letters := Letters(column);
      assert letters[..|letters| - 1] == Letters((column - 1) / LETTERS);
    }
  }

  /** The loop prepends one letter after the other, the lowest first; a column below 1 gets none. */
  method ColumnLetters(column: int) returns (letters: string)
    ensures letters == Letters(column)
    ensures column >= 0 ==> ColumnOf(letters) == column
  {
    letters := "";
    var left := column;
    while left > 0
      invariant Letters(column) == Letters(left) + letters
    {
      ghost var before, rest := left, letters;
      left := left - 1;
      letters := [Letter(left % LETTERS)] + letters;
      left := left / LETTERS;
      assert Letters(before) + rest == Letters(left) + letters;
    }
    if column >= 0 {
      LettersNameTheirColumn(column);
    }
  }

  /** Every sequence of letters is the one that its column gets. */
  lemma {:induction false} ColumnsHaveTheirLetters(letters: string)
    requires AllLetters(letters)
    ensures Letters(ColumnOf(letters)) == letters
  {
    if letters != "" {
      var n := |letters| - 1;
      ColumnsHaveTheirLetters(letters[..n]);
      var digit := letters[n] as int - 'A' as int;
      LastDigit(ColumnOf(letters[..n]), digit);
      assert letters == letters[..n] + [letters[n]];
    }
  }

  lemma LastDigit(high: nat, digit: nat)
    requires digit < LETTERS
    ensures (high * LETTERS + digit) / LETTERS == high && (high * LETTERS + digit) % LETTERS == digit
  {}

  // ----- Order -----

  /** Shorter first, then letter by letter. */
  predicate Before(a: string, b: string) {
    |a| < |b| || (|a| == |b| && Lexicographic(a, b))
  }

  predicate Lexicographic(a: string, b: string)
    requires |a| == |b|
  {
    a != "" && (Lexicographic(a[..|a| - 1], b[..|b| - 1])
                || (a[..|a| - 1] == b[..|b| - 1] && a[|a| - 1] < b[|b| - 1]))
  }

  lemma {:induction false} SameLengthOrder(a: string, b: string)
    requires AllLetters(a) && AllLetters(b) && |a| == |b|
    ensures Lexicographic(a, b) <==> ColumnOf(a) < ColumnOf(b)
    decreases |a|
  {
    if a != "" {
      var n := |a| - 1;
      SameLengthOrder(a[..n], b[..n]);
      SameLengthOrder(b[..n], a[..n]);
      if ColumnOf(a[..n]) == ColumnOf(b[..n]) {
        ColumnsHaveTheirLetters(a[..n]);
        ColumnsHaveTheirLetters(b[..n]);
      }
    }
  }

  /** The columns with n letters lie between the repunits of 26 with n and n + 1 digits. */
  function FirstWith(n: nat): nat {
    if n == 0 then 0 else FirstWith(n - 1) * LETTERS + 1
  }

  lemma {:induction false} ColumnsByLength(letters: string)
    requires AllLetters(letters)
    ensures FirstWith(|letters|) <= ColumnOf(letters) < FirstWith(|letters| + 1)
  {
    if letters != "" {
      ColumnsByLength(letters[..|letters| - 1]);
    }
  }

  lemma {:induction false} FirstWithGrows(m: nat, n: nat)
    requires m <= n
    ensures FirstWith(m) <= FirstWith(n)
  {
    if m < n {
      FirstWithGrows(m, n - 1);
    }
  }

  /** Columns are in the order of their letters: shorter first, then letter by letter. */
  lemma {:induction false} LettersInColumnOrder(c: nat, d: nat)
    ensures c < d <==> Before(Letters(c), Letters(d))
  {
    var a, b := Letters(c), Letters(d);
    LettersNameTheirColumn(c);
    LettersNameTheirColumn(d);
    ColumnsByLength(a);
    ColumnsByLength(b);
    if |a| == |b| {
      SameLengthOrder(a, b);
    } else if |a| < |b| {
      FirstWithGrows(|a| + 1, |b|);
    } else {
      FirstWithGrows(|b| + 1, |a|);
    }
  }

  // ----- References -----

  /** Decimal digits, without leading zeros. */
  function Decimal(n: nat): (digits: string)
    ensures digits != "" && forall i :: 0 <= i < |digits| ==> '0' <= digits[i] <= '9'
  {
    if n < 10 then [Digit(n)] else Decimal(n / 10) + [Digit(n % 10)]
  }

  function Digit(d: nat): (c: char)
    requires d < 10
    ensures '0' <= c <= '9' && c as int - '0' as int == d
  {
    ('0' as int + d) as char
  }

  predicate AllDigits(s: string) {
    forall i :: 0 <= i < |s| ==> '0' <= s[i] <= '9'
  }

  function NumberOf(digits: string): nat
    requires AllDigits(digits)
  {
    if digits == "" then 0
    else
      var n := |digits| - 1;
      NumberOf(digits[..n]) * 10 + (digits[n] as int - '0' as int)
  }

  lemma {:induction false} DecimalNamesItsNumber(n: nat)
    ensures NumberOf(Decimal(n)) == n
  {
    var digits := Decimal(n);
    if n < 10 {
      assert digits[..0] == "";
    } else {
      DecimalNamesItsNumber(n / 10);
      assert digits[..|digits| - 1] == Decimal(n / 10);
    }
  }

  function CellRef(row: nat, column: int): string {
    Letters(column) + Decimal(row)
  }

  method MakeCellRef(row: nat, column: int) returns (ref: string)
    ensures ref == CellRef(row, column)
  {
    var letters := ColumnLetters(column);
    return letters + Decimal(row);
  }

  datatype Cell = Cell(row: nat, column: nat)

  /** How many letters a reference starts with. */
  function LetterCount(ref: string): (n: nat)
    ensures n <= |ref|
  {
    if ref != "" && 'A' <= ref[0] <= 'Z' then 1 + LetterCount(ref[1..]) else 0
  }

  lemma {:induction false} LettersThenDigits(letters: string, digits: string)
    requires AllLetters(letters) && AllDigits(digits)
    ensures LetterCount(letters + digits) == |letters|
    decreases |letters|
  {
    if letters == "" {
      assert letters + digits == digits;
    } else {
      var tail := letters[1..];
      assert letters + digits == [letters[0]] + (tail + digits);
      LettersThenDigits(tail, digits);
      LetterInFront(letters[0], tail + digits);
    }
  }

  lemma LetterInFront(c: char, rest: string)
    requires 'A' <= c <= 'Z'
    ensures LetterCount([c] + rest) == 1 + LetterCount(rest)
  {
    assert ([c] + rest)[1..] == rest;
  }

  /** A reference consists of letters and digits. */
  predicate Readable(ref: string) {
    AllLetters(ref[..LetterCount(ref)]) && AllDigits(ref[LetterCount(ref)..])
  }

  /** Reads a reference back. */
  function Decode(ref: string): Cell
    requires Readable(ref)
  {
    Cell(NumberOf(ref[LetterCount(ref)..]), ColumnOf(ref[..LetterCount(ref)]))
  }

  /** Decoding a cell's reference gives the cell, for every row and column. */
  lemma CellRefRoundTrip(row: nat, column: nat)
    ensures Readable(CellRef(row, column)) && Decode(CellRef(row, column)) == Cell(row, column)
  {
    var letters, digits := Letters(column), Decimal(row);
    LettersThenDigits(letters, digits);
    assert (letters + digits)[..|letters|] == letters && (letters + digits)[|letters|..] == digits;
    LettersNameTheirColumn(column);
    DecimalNamesItsNumber(row);
  }

  lemma DifferentCellsDifferentRefs(a: Cell, b: Cell)
    requires CellRef(a.row, a.column) == CellRef(b.row, b.column)
    ensures a == b
  {
    CellRefRoundTrip(a.row, a.column);
    CellRefRoundTrip(b.row, b.column);
  }

  // ----- A worksheet -----

  /** The cells of one row, and of all rows, in writing order; both count from 1. */
  function RowCells(row: nat, width: nat): (cells: seq<Cell>)
    ensures |cells| == width
  {
    if width == 0 then [] else RowCells(row, width - 1) + [Cell(row, width)]
  }

  function SheetCells(widths: seq<nat>): seq<Cell> {
    if widths == [] then []
    else SheetCells(widths[..|widths| - 1]) + RowCells(|widths|, widths[|widths| - 1])
  }

  function RefsOf(cells: seq<Cell>): (refs: seq<string>)
    ensures |refs| == |cells|
  {
    if cells == [] then []
    else RefsOf(cells[..|cells| - 1]) + [CellRef(cells[|cells| - 1].row, cells[|cells| - 1].column)]
  }

  lemma RefsAppend(cells: seq<Cell>, cell: Cell)
    ensures RefsOf(cells + [cell]) == RefsOf(cells) + [CellRef(cell.row, cell.column)]
  {
    assert (cells + [cell])[..|cells|] == cells;
  }

  /** One row is written after the cells written so far. */
  method WriteRow(refs: seq<string>, row: nat, width: nat, ghost cells: seq<Cell>) returns (more: seq<string>)
    requires refs == RefsOf(cells)
    ensures more == RefsOf(cells + RowCells(row, width))
  {
    more := refs;
    assert cells + RowCells(row, 0) == cells;
    for c := 0 to width
      invariant more == RefsOf(cells + RowCells(row, c))
    {
      var ref := MakeCellRef(row, c + 1);
      RefsAppend(cells + RowCells(row, c), Cell(row, c + 1));
      assert cells + RowCells(row, c) + [Cell(row, c + 1)] == cells + RowCells(row, c + 1);
      more := more + [ref];
    }
  }

  method WorksheetRefs(widths: seq<nat>) returns (refs: seq<string>)
    ensures refs == RefsOf(SheetCells(widths))
  {
    refs := [];
    for r := 0 to |widths|
      invariant refs == RefsOf(SheetCells(widths[..r]))
    {
      assert widths[..r + 1][..r] == widths[..r];
      refs := WriteRow(refs, r + 1, widths[r], SheetCells(widths[..r]));
    }
    assert widths[..|widths|] == widths;
  }

  lemma {:induction false} CellsOfRow(row: nat, width: nat, k: nat)
    requires k < width
    ensures RowCells(row, width)[k] == Cell(row, k + 1)
  {
    if k < width - 1 {
      CellsOfRow(row, width - 1, k);
    }
  }

  /** Where the k-th cell of the sheet is. */
  predicate PlacedAt(widths: seq<nat>, k: nat, cell: Cell) {
    && 1 <= cell.row <= |widths| && 1 <= cell.column <= widths[cell.row - 1]
    && k == |SheetCells(widths[..cell.row - 1])| + cell.column - 1
  }

  lemma {:induction false} CellsOfSheet(widths: seq<nat>, k: nat)
    requires k < |SheetCells(widths)|
    ensures PlacedAt(widths, k, SheetCells(widths)[k])
  {
    var n := |widths| - 1;
    var above := widths[..n];
    if k < |SheetCells(above)| {
      CellsOfSheet(above, k);
      var cell := SheetCells(above)[k];
      assert above[..cell.row - 1] == widths[..cell.row - 1];
    } else {
      CellsOfRow(n + 1, widths[n], k - |SheetCells(above)|);
    }
  }

  lemma {:induction false} RefAt(cells: seq<Cell>, k: nat)
    requires k < |cells|
    ensures RefsOf(cells)[k] == CellRef(cells[k].row, cells[k].column)
  {
    if k < |cells| - 1 {
      RefAt(cells[..|cells| - 1], k);
    }
  }

  /** No reference occurs twice in one worksheet, whatever the lengths of its rows. */
  lemma SheetRefsAreDistinct(widths: seq<nat>, j: nat, k: nat)
    requires j < k < |SheetCells(widths)|
    ensures RefsOf(SheetCells(widths))[j] != RefsOf(SheetCells(widths))[k]
  {
    var cells := SheetCells(widths);
    CellsOfSheet(widths, j);
    CellsOfSheet(widths, k);
    RefAt(cells, j);
    RefAt(cells, k);
    if RefsOf(cells)[j] == RefsOf(cells)[k] {
      DifferentCellsDifferentRefs(cells[j], cells[k]);
    }
  }
}
