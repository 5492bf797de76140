/**
 * `orange.tools.sudoke`: an 81-cell sudoku board, read row-major from text,
 * whose empty cells carry a set of candidate digits. Setting a cell removes
 * its digit from the candidates of its peers (the cells sharing its row,
 * column or 3x3 box), and two deduction rules fill cells whose digit is
 * forced.
 *
 * Each `Item` of the source is a position 0..80 with a mutable value and
 * candidate set; the model keeps the values and the candidate sets as two
 * arrays of the board, with 0 for an empty cell (`value or None`) and the
 * empty set for `available = None`.
 */
module Sudoku {
  import opened Wrappers

  // ---------------------------------------------------------------------------
  // Positions and peers

  /** `Item.Row`. */
  function RowOf(pos: int): int { pos / 9 }

  /** `Item.Column`. */
  function ColumnOf(pos: int): int { pos % 9 }

  predicate SameRow(p: int, q: int) { RowOf(p) == RowOf(q) }

  predicate SameColumn(p: int, q: int) { ColumnOf(p) == ColumnOf(q) }

  predicate SameBox(p: int, q: int) { RowOf(p) / 3 == RowOf(q) / 3 && ColumnOf(p) / 3 == ColumnOf(q) / 3 }

  /** The cells sharing a row, a column or a box with p, p itself excluded. */
  predicate Peer(p: int, q: int) { p != q && (SameRow(p, q) || SameColumn(p, q) || SameBox(p, q)) }

  predicate InBoard(p: int) { 0 <= p < 81 }

  predicate Increasing(s: seq<int>) { forall i, j :: 0 <= i < j < |s| ==> s[i] < s[j] }

  /** `range(Row * 9, (Row + 1) * 9)`. */
  function RowCells(pos: int): seq<int> { seq(9, k => RowOf(pos) * 9 + k) }

  /** `range(Column, 81, 9)`. */
  function ColumnCells(pos: int): seq<int> { seq(9, k => ColumnOf(pos) + 9 * k) }

  /** `[(br + r) * 9 + bc + c for r in range(3) for c in range(3)]`. */
  function BoxCells(pos: int): seq<int>
  {
    var br, bc := RowOf(pos) / 3 * 3, ColumnOf(pos) / 3 * 3;
    seq(9, k => (br + k / 3) * 9 + bc + k % 3)
  }

  lemma RowCellsOf(pos: int)
    requires InBoard(pos)
    ensures Increasing(RowCells(pos))
    ensures forall x :: x in RowCells(pos) <==> InBoard(x) && SameRow(x, pos)
  {
    var s := RowCells(pos);
    forall x | InBoard(x) && SameRow(x, pos)
      ensures x in s
    {
      assert s[x % 9] == x;
    }
  }

  lemma ColumnCellsOf(pos: int)
    requires InBoard(pos)
    ensures Increasing(ColumnCells(pos))
    ensures forall x :: x in ColumnCells(pos) <==> InBoard(x) && SameColumn(x, pos)
  {
    var s := ColumnCells(pos);
    forall x | InBoard(x) && SameColumn(x, pos)
      ensures x in s
    {
      assert s[x / 9] == x;
    }
  }

  /** Division by 3 of a number written as 3t + a with a a digit in base 3. */
  lemma Div3(t: int, a: int)
    requires 0 <= a < 3
    ensures (3 * t + a) / 3 == t && (3 * t + a) % 3 == a
  {
  }

  /** The row and column of the cell 9r + c. */
  lemma Coords(r: int, c: int)
    requires 0 <= c < 9
    ensures RowOf(r * 9 + c) == r && ColumnOf(r * 9 + c) == c
  {
  }

  /** Box cell k of the box at (br, bc) lies at row br + k / 3 and column bc + k % 3. */
  lemma BoxCell(br: int, bc: int, k: int)
    requires 0 <= k < 9 && 0 <= bc <= 6
    ensures var a, b := k / 3, k % 3;
      0 <= a < 3 && 0 <= b < 3 && k == 3 * a + b &&
      RowOf((br + a) * 9 + bc + b) == br + a && ColumnOf((br + a) * 9 + bc + b) == bc + b
  {
    Coords(br + k / 3, bc + k % 3);
  }

  /** Every box cell is on the board and in the box of pos. */
  lemma BoxCellsInBox(pos: int, k: int)
    requires InBoard(pos) && 0 <= k < 9
    ensures InBoard(BoxCells(pos)[k]) && SameBox(BoxCells(pos)[k], pos)
  {
    var t, u := RowOf(pos) / 3, ColumnOf(pos) / 3;
    BoxCell(t * 3, u * 3, k);
    Div3(t, k / 3);
    Div3(u, k % 3);
  }

  /** Every cell of the box of pos is a box cell. */
  lemma BoxCellsCover(pos: int, x: int)
    requires InBoard(pos) && InBoard(x) && SameBox(x, pos)
    ensures x in BoxCells(pos)
  {
    var t, u := RowOf(pos) / 3, ColumnOf(pos) / 3;
    var a, b := RowOf(x) - t * 3, ColumnOf(x) - u * 3;
    Div3(t, RowOf(x) % 3);
    Div3(u, ColumnOf(x) % 3);
    assert 0 <= a < 3 && 0 <= b < 3;
    var k := 3 * a + b;
    BoxCell(t * 3, u * 3, k);
    Div3(a, b);
    assert BoxCells(pos)[k] == x;
  }

  lemma BoxCellsOf(pos: int)
    requires InBoard(pos)
    ensures Increasing(BoxCells(pos))
    ensures forall x :: x in BoxCells(pos) <==> InBoard(x) && SameBox(x, pos)
  {
    var s := BoxCells(pos);
    var br, bc := RowOf(pos) / 3 * 3, ColumnOf(pos) / 3 * 3;
    forall i, j | 0 <= i < j < 9
      ensures s[i] < s[j]
    {
      BoxCell(br, bc, i);
      BoxCell(br, bc, j);
    }
    forall k | 0 <= k < 9
      ensures InBoard(s[k]) && SameBox(s[k], pos)
    {
      BoxCellsInBox(pos, k);
    }
    forall x | InBoard(x) && SameBox(x, pos)
      ensures x in s
    {
      BoxCellsCover(pos, x);
    }
  }

  /** The list `iter_related` builds before sorting and removal. */
  function Listed(pos: int, dir: string): seq<int>
  {
    (if dir == "row" || dir == "all" then RowCells(pos) else []) +
    (if dir == "column" || dir == "all" then ColumnCells(pos) else []) +
    (if dir == "grid" || dir == "all" then BoxCells(pos) else [])
  }

  /** The board positions below n that occur in xs, in ascending order. */
  function Below(xs: seq<int>, n: nat): (r: seq<int>)
    ensures Increasing(r) && forall x :: x in r <==> 0 <= x < n && x in xs
  {
    if n == 0 then []
    else
      var r := Below(xs, n - 1);
      assert forall i :: 0 <= i < |r| ==> r[i] < n - 1 by {
        forall i | 0 <= i < |r| ensures r[i] < n - 1 {
          assert r[i] in r;
        }
      }
      if n - 1 in xs then
        var r' := r + [n - 1];
        assert forall x :: x in r' <==> x in r || x == n - 1;
        r'
      else r
  }

  /** `sorted(set(xs))` for a list of board positions. */
  function SortedSet(xs: seq<int>): (r: seq<int>)
    requires forall x :: x in xs ==> InBoard(x)
    ensures Increasing(r) && forall x :: x in r <==> x in xs
  {
    var r := Below(xs, 81);
    assert forall x :: x in xs ==> InBoard(x) && x in r;
    r
  }

  /** `list.remove(x)`: drop the first occurrence of x. */
  function RemoveFirstOf(s: seq<int>, x: int): (r: seq<int>)
    requires x in s
    ensures |r| == |s| - 1
  {
    if s[0] == x then s[1..] else [s[0]] + RemoveFirstOf(s[1..], x)
  }

  /** Removing x from an ascending list keeps it ascending and drops exactly x. */
  lemma {:induction false} RemoveFirstIncreasing(s: seq<int>, x: int)
    requires x in s && Increasing(s)
    ensures var r := RemoveFirstOf(s, x);
      Increasing(r) && forall y :: y in r <==> y in s && y != x
  {
    if s[0] == x {
      assert x !in s[1..] by {
        forall i | 0 <= i < |s[1..]| ensures s[1..][i] != x { assert s[i + 1] > s[0]; }
      }
    } else {
      var tail := s[1..];
      assert Increasing(tail);
      RemoveFirstIncreasing(tail, x);
      var rest := RemoveFirstOf(tail, x);
      forall i | 0 <= i < |rest|
        ensures s[0] < rest[i]
      {
        assert rest[i] in rest;
        assert rest[i] in tail;
        var j :| 0 <= j < |tail| && tail[j] == rest[i];
        assert s[0] < s[j + 1];
      }
      assert RemoveFirstOf(s, x) == [s[0]] + rest;
    }
  }

  datatype Error = ValueError | IndexError

  /** `Item(pos).iter_related(dir)`; an unknown dir leaves nothing to remove pos from. */
  function Related(pos: int, dir: string): Result<seq<int>, Error>
    requires InBoard(pos)
  {
    RowCellsOf(pos);
    ColumnCellsOf(pos);
    BoxCellsOf(pos);
    var listed := Listed(pos, dir);
    var result := if dir == "all" then SortedSet(listed) else listed;
    if pos in result then Ok(RemoveFirstOf(result, pos)) else Err(ValueError)
  }

  /** The unit a direction stands for. */
  predicate InUnit(dir: string, p: int, q: int)
  {
    if dir == "row" then SameRow(p, q)
    else if dir == "column" then SameColumn(p, q)
    else SameBox(p, q)
  }

  /** Any direction but the four known ones raises ValueError. */
  lemma RelatedUnknown(pos: int, dir: string)
    requires InBoard(pos) && dir !in {"row", "column", "grid", "all"}
    ensures Related(pos, dir) == Err(ValueError)
  {
    assert Listed(pos, dir) == [];
  }

  /** "row", "column" and "grid" give, in ascending order, the 8 other cells of that unit. */
  lemma RelatedUnit(pos: int, dir: string)
    requires InBoard(pos) && dir in {"row", "column", "grid"}
    ensures Related(pos, dir).Ok?
    ensures var r := Related(pos, dir).value;
      |r| == 8 && Increasing(r) && pos !in r &&
      forall x :: x in r <==> InBoard(x) && x != pos && InUnit(dir, x, pos)
  {
    RowCellsOf(pos);
    ColumnCellsOf(pos);
    BoxCellsOf(pos);
    if dir == "row" {
      assert Listed(pos, dir) == RowCells(pos);
    } else if dir == "column" {
      assert Listed(pos, dir) == ColumnCells(pos);
    } else {
      assert Listed(pos, dir) == BoxCells(pos);
    }
    RemoveFirstIncreasing(Listed(pos, dir), pos);
  }

  /** "all" gives the peers of pos, ascending and without repetition. */
  lemma RelatedAll(pos: int)
    requires InBoard(pos)
    ensures Related(pos, "all").Ok?
    ensures var r := Related(pos, "all").value;
      Increasing(r) && forall x :: x in r <==> InBoard(x) && Peer(pos, x)
  {
    RowCellsOf(pos);
    ColumnCellsOf(pos);
    BoxCellsOf(pos);
    RemoveFirstIncreasing(SortedSet(Listed(pos, "all")), pos);
  }

  /** The peers of a position. */
  function Peers(pos: int): (r: seq<int>)
    requires InBoard(pos)
    ensures Increasing(r) && forall x :: x in r <==> InBoard(x) && Peer(pos, x)
  {
    RelatedAll(pos);
    Related(pos, "all").value
  }

  lemma PeerSymmetric(p: int, q: int)
    ensures Peer(p, q) <==> Peer(q, p)
  {
  }

  // Counting the peers: row by row, the cells in the row, column or box of pos.

  function Ind(b: bool): nat { if b then 1 else 0 }

  predicate Related3(pos: int, q: int) { SameRow(q, pos) || SameColumn(q, pos) || SameBox(q, pos) }

  function Related3Of(pos: int): int -> bool { q => Related3(pos, q) }

  function InSeq(xs: seq<int>): int -> bool { q => q in xs }

  /** How many of nine conditions hold. */
  function Count9(b0: bool, b1: bool, b2: bool, b3: bool, b4: bool, b5: bool, b6: bool, b7: bool, b8: bool): nat
  {
    Ind(b0) + Ind(b1) + Ind(b2) + Ind(b3) + Ind(b4) + Ind(b5) + Ind(b6) + Ind(b7) + Ind(b8)
  }

  /** How many of the nine cells of row r satisfy p. */
  function RowCount(p: int -> bool, r: int): nat
  {
    Count9(p(9 * r + 0), p(9 * r + 1), p(9 * r + 2), p(9 * r + 3), p(9 * r + 4),
      p(9 * r + 5), p(9 * r + 6), p(9 * r + 7), p(9 * r + 8))
  }

  /** Whether cell k of a row is related to a cell in column c, given whether the row is its row or in its band. */
  predicate Cond(same: bool, band: bool, c: int, k: int) { same || c == k || (band && c / 3 == k / 3) }

  lemma CellHit(pos: int, r: int, k: int)
    requires InBoard(pos) && 0 <= r < 9 && 0 <= k < 9
    ensures Related3(pos, 9 * r + k) == Cond(r == RowOf(pos), r / 3 == RowOf(pos) / 3, ColumnOf(pos), k)
  {
    assert RowOf(9 * r + k) == r && ColumnOf(9 * r + k) == k;
  }

  /** A row count with the row of pos, its band and its column abstracted. */
  function Hits(same: bool, band: bool, c: int): nat
  {
    Count9(Cond(same, band, c, 0), Cond(same, band, c, 1), Cond(same, band, c, 2), Cond(same, band, c, 3),
      Cond(same, band, c, 4), Cond(same, band, c, 5), Cond(same, band, c, 6), Cond(same, band, c, 7),
      Cond(same, band, c, 8))
  }

  lemma HitsValue(same: bool, band: bool, c: int)
    requires 0 <= c < 9
    ensures Hits(same, band, c) == if same then 9 else if band then 3 else 1
  {
    if c == 0 {} else if c == 1 {} else if c == 2 {} else if c == 3 {} else if c == 4 {}
    else if c == 5 {} else if c == 6 {} else if c == 7 {} else {}
  }

  /** A row whose cells satisfy p exactly as Cond says holds 9, 3 or 1 of them. */
  lemma RowCountValue(p: int -> bool, r: int, same: bool, band: bool, c: int)
    requires 0 <= c < 9
    requires forall k :: 0 <= k < 9 ==> p(9 * r + k) == Cond(same, band, c, k)
    ensures RowCount(p, r) == if same then 9 else if band then 3 else 1
  {
    assert RowCount(p, r) == Hits(same, band, c);
    HitsValue(same, band, c);
  }

  /** Row r holds 9 cells related to pos when it is the row of pos, 3 in the same band, 1 otherwise. */
  lemma RowHitsValue(pos: int, r: int)
    requires InBoard(pos) && 0 <= r < 9
    ensures RowCount(Related3Of(pos), r) == if r == RowOf(pos) then 9 else if r / 3 == RowOf(pos) / 3 then 3 else 1
  {
    var same, band, c := r == RowOf(pos), r / 3 == RowOf(pos) / 3, ColumnOf(pos);
    forall k | 0 <= k < 9
      ensures Related3Of(pos)(9 * r + k) == Cond(same, band, c, k)
    {
      CellHit(pos, r, k);
    }
    RowCountValue(Related3Of(pos), r, same, band, c);
  }

  /** How many of the positions 0 .. n - 1 satisfy p. */
  function Hitting(p: int -> bool, n: nat): nat
    decreases n
  {
    if n == 0 then 0 else Hitting(p, n - 1) + Ind(p(n - 1))
  }

  lemma BelowStep(xs: seq<int>, n: nat)
    ensures |Below(xs, n + 1)| == |Below(xs, n)| + Ind(InSeq(xs)(n))
  {
  }

  lemma {:induction false} BelowHitting(xs: seq<int>, n: nat)
    ensures |Below(xs, n)| == Hitting(InSeq(xs), n)
    decreases n
  {
    if n > 0 {
      BelowHitting(xs, n - 1);
      BelowStep(xs, n - 1);
    }
  }

  lemma HittingStep(p: int -> bool, n: nat)
    ensures Hitting(p, n + 1) == Hitting(p, n) + Ind(p(n))
  {
  }

  lemma HittingRow(p: int -> bool, r: nat)
    ensures Hitting(p, 9 * r + 9) == Hitting(p, 9 * r) + RowCount(p, r)
  {
    var n := 9 * r;
    HittingStep(p, n);
    HittingStep(p, n + 1);
    HittingStep(p, n + 2);
    HittingStep(p, n + 3);
    HittingStep(p, n + 4);
    HittingStep(p, n + 5);
    HittingStep(p, n + 6);
    HittingStep(p, n + 7);
    HittingStep(p, n + 8);
  }

  /** Two predicates that agree below n count the same there. */
  lemma {:induction false} HittingAgree(p1: int -> bool, p2: int -> bool, n: nat)
    requires forall q :: 0 <= q < n ==> p1(q) == p2(q)
    ensures Hitting(p1, n) == Hitting(p2, n)
    decreases n
  {
    if n > 0 {
      HittingAgree(p1, p2, n - 1);
      assert p1(n - 1) == p2(n - 1);
    }
  }

  /** The 81 cells of the board, counted row by row. */
  lemma RowsNine(p: int -> bool)
    ensures Hitting(p, 81) == RowCount(p, 0) + RowCount(p, 1) + RowCount(p, 2) + RowCount(p, 3) +
      RowCount(p, 4) + RowCount(p, 5) + RowCount(p, 6) + RowCount(p, 7) + RowCount(p, 8)
  {
    HittingRow(p, 0);
    HittingRow(p, 1);
    HittingRow(p, 2);
    HittingRow(p, 3);
    HittingRow(p, 4);
    HittingRow(p, 5);
    HittingRow(p, 6);
    HittingRow(p, 7);
    HittingRow(p, 8);
  }

  /** How many cells related to a cell of row `row` lie in row r. */
  function BandValue(r: int, row: int): nat
  {
    if r == row then 9 else if r / 3 == row / 3 then 3 else 1
  }

  /** Nine in the own row, three in each of the two other rows of the band, one in each of the six rows outside it. */
  lemma RowsSum(p: int -> bool, row: int)
    requires 0 <= row < 9
    requires forall r :: 0 <= r < 9 ==> RowCount(p, r) == BandValue(r, row)
    ensures Hitting(p, 81) == 21
  {
    RowsNine(p);
    BandSum(RowCount(p, 0), RowCount(p, 1), RowCount(p, 2), RowCount(p, 3), RowCount(p, 4),
      RowCount(p, 5), RowCount(p, 6), RowCount(p, 7), RowCount(p, 8), row);
  }

  lemma BandSum(c0: int, c1: int, c2: int, c3: int, c4: int, c5: int, c6: int, c7: int, c8: int, row: int)
    requires 0 <= row < 9
    requires c0 == BandValue(0, row) && c1 == BandValue(1, row) && c2 == BandValue(2, row)
    requires c3 == BandValue(3, row) && c4 == BandValue(4, row) && c5 == BandValue(5, row)
    requires c6 == BandValue(6, row) && c7 == BandValue(7, row) && c8 == BandValue(8, row)
    ensures c0 + c1 + c2 + c3 + c4 + c5 + c6 + c7 + c8 == 21
  {
    if row == 0 {} else if row == 1 {} else if row == 2 {} else if row == 3 {} else if row == 4 {}
    else if row == 5 {} else if row == 6 {} else if row == 7 {} else {}
  }

  lemma HitsSum(pos: int)
    requires InBoard(pos)
    ensures Hitting(Related3Of(pos), 81) == 21
  {
    forall r | 0 <= r < 9
      ensures RowCount(Related3Of(pos), r) == BandValue(r, RowOf(pos))
    {
      RowHitsValue(pos, r);
    }
    RowsSum(Related3Of(pos), RowOf(pos));
  }

  /** 21 of the 81 cells share a row, column or box with pos (pos among them). */
  lemma RelatedCount(xs: seq<int>, pos: int)
    requires InBoard(pos)
    requires forall q :: 0 <= q < 81 ==> (q in xs <==> Related3(pos, q))
    ensures |Below(xs, 81)| == 21
  {
    BelowHitting(xs, 81);
    HittingAgree(InSeq(xs), Related3Of(pos), 81);
    HitsSum(pos);
  }

  /** A cell has 20 peers: 8 in its row, 6 more in its column and 6 more in its box. */
  lemma PeerCount(pos: int)
    requires InBoard(pos)
    ensures |Peers(pos)| == 20
  {
    RowCellsOf(pos);
    ColumnCellsOf(pos);
    BoxCellsOf(pos);
    var xs := Listed(pos, "all");
    assert forall q :: 0 <= q < 81 ==> (q in xs <==> Related3(pos, q));
    RelatedCount(xs, pos);
  }

  // ---------------------------------------------------------------------------
  // Reading the board

  /** The line boundaries of `str.splitlines`. */
  predicate LineBreak(c: char)
  {
    c == '\n' || c == '\r' || c == '\U{0b}' || c == '\U{0c}' || c == '\U{1c}' || c == '\U{1d}' ||
    c == '\U{1e}' || c == '\U{85}' || c == '\U{2028}' || c == '\U{2029}'
  }

  predicate Digit(c: char) { '0' <= c <= '9' }

  /** Prepend the digits read so far to the result of reading the rest. */
  function Prepend(cells: seq<int>, r: Result<seq<int>, Error>): Result<seq<int>, Error>
  {
    match r
    case Ok(rest) => Ok(cells + rest)
    case Err(e) => Err(e)
  }

  lemma PrependNil(r: Result<seq<int>, Error>)
    ensures Prepend([], r) == r
  {
    if r.Ok? {
      assert [] + r.value == r.value;
    }
  }

  lemma PrependTwice(a: seq<int>, b: seq<int>, r: Result<seq<int>, Error>)
    ensures Prepend(a, Prepend(b, r)) == Prepend(a + b, r)
  {
    if r.Ok? {
      assert a + (b + r.value) == (a + b) + r.value;
    }
  }

  /**
   * The cell values of `SuDoku(values)`: the digits of the non-empty lines in
   * order. Dropping empty lines and concatenating the rest reads every
   * character that is not a line boundary, and `int` refuses a non-digit.
   */
  function Cells(text: string): (r: Result<seq<int>, Error>)
    ensures r.Ok? ==> forall x :: x in r.value ==> 0 <= x <= 9
  {
    if |text| == 0 then Ok([])
    else if LineBreak(text[0]) then Cells(text[1..])
    else if Digit(text[0]) then Prepend([text[0] as int - '0' as int], Cells(text[1..]))
    else Err(ValueError)
  }

  /** The `for line ...: for k in map(int, line)` loop of the constructor. */
  method ReadCells(text: string) returns (r: Result<seq<int>, Error>)
    ensures r == Cells(text)
  {
    var cells := [];
    var k := 0;
    PrependNil(Cells(text));
    while k < |text|
      invariant 0 <= k <= |text|
      invariant Cells(text) == Prepend(cells, Cells(text[k..]))
    {
      assert text[k..][1..] == text[k + 1..];
      var c := text[k];
      if Digit(c) && !LineBreak(c) {
        PrependTwice(cells, [c as int - '0' as int], Cells(text[k + 1..]));
        cells := cells + [c as int - '0' as int];
      } else if !LineBreak(c) {
        return Err(ValueError);
      }
      k := k + 1;
    }
    assert cells + [] == cells;
    return Ok(cells);
  }

  /** The digit values of a line. */
  function DigitValues(line: string): (r: seq<int>)
    requires DigitLine(line)
    ensures |r| == |line| && forall i :: 0 <= i < |line| ==> r[i] == line[i] as int - '0' as int
  {
    seq(|line|, i requires 0 <= i < |line| => line[i] as int - '0' as int)
  }

  lemma {:induction false} CellsOfLine(line: string, rest: string)
    requires DigitLine(line)
    ensures Cells(line + rest) == Prepend(DigitValues(line), Cells(rest))
    decreases |line|
  {
    if |line| == 0 {
      assert line + rest == rest;
      PrependNil(Cells(rest));
    } else {
      assert (line + rest)[1..] == line[1..] + rest;
      CellsOfLine(line[1..], rest);
      assert DigitValues(line) == [line[0] as int - '0' as int] + DigitValues(line[1..]);
      PrependTwice([line[0] as int - '0' as int], DigitValues(line[1..]), Cells(rest));
    }
  }

  predicate DigitLine(line: string) { forall i :: 0 <= i < |line| ==> Digit(line[i]) }

  /** The digits of the lines, one line after the other. */
  function AllDigits(lines: seq<string>): seq<int>
    requires forall j :: 0 <= j < |lines| ==> DigitLine(lines[j])
  {
    if |lines| == 0 then []
    else
      assert forall j :: 0 <= j < |lines| - 1 ==> lines[1..][j] == lines[j + 1];
      DigitValues(lines[0]) + AllDigits(lines[1..])
  }

  function JoinLines(lines: seq<string>): string
  {
    if |lines| == 0 then "" else lines[0] + "\n" + JoinLines(lines[1..])
  }

  /** Newline-terminated digit lines are read in order. */
  lemma {:induction false} CellsOfLines(lines: seq<string>)
    requires forall j :: 0 <= j < |lines| ==> DigitLine(lines[j])
    ensures Cells(JoinLines(lines)) == Ok(AllDigits(lines))
  {
    if |lines| > 0 {
      CellsOfLines(lines[1..]);
      assert lines[0] + "\n" + JoinLines(lines[1..]) == lines[0] + ("\n" + JoinLines(lines[1..]));
      CellsOfLine(lines[0], "\n" + JoinLines(lines[1..]));
      assert ("\n" + JoinLines(lines[1..]))[1..] == JoinLines(lines[1..]);
    }
  }

  /** Nine-digit lines fill the board row-major: digit c of line r is cell 9r + c. */
  lemma {:induction false} RowMajor(lines: seq<string>, r: nat, c: nat)
    requires forall j :: 0 <= j < |lines| ==> DigitLine(lines[j]) && |lines[j]| == 9
    requires r < |lines| && c < 9
    ensures |AllDigits(lines)| == 9 * |lines|
    ensures AllDigits(lines)[9 * r + c] == lines[r][c] as int - '0' as int
  {
    if r == 0 {
      LengthOfDigits(lines);
    } else {
      RowMajor(lines[1..], r - 1, c);
      LengthOfDigits(lines);
      assert AllDigits(lines)[9 * r + c] == AllDigits(lines[1..])[9 * (r - 1) + c];
    }
  }

  lemma {:induction false} LengthOfDigits(lines: seq<string>)
    requires forall j :: 0 <= j < |lines| ==> DigitLine(lines[j]) && |lines[j]| == 9
    ensures |AllDigits(lines)| == 9 * |lines|
  {
    if |lines| > 0 {
      LengthOfDigits(lines[1..]);
    }
  }

  // ---------------------------------------------------------------------------
  // Candidates

  const Digits: set<int> := {1, 2, 3, 4, 5, 6, 7, 8, 9}

  predicate IsBoard(vals: seq<int>, cand: seq<set<int>>) { |vals| == 81 && |cand| == 81 }

  /** The values of the filled peers of i. */
  function PeerValues(vals: seq<int>, i: int): set<int>
    requires |vals| == 81
  {
    set q | 0 <= q < 81 && Peer(i, q) && vals[q] != 0 :: vals[q]
  }

  /** What `init` gives cell i. */
  function InitCell(vals: seq<int>, i: int): set<int>
    requires |vals| == 81 && InBoard(i)
  {
    if vals[i] != 0 then {} else Digits - PeerValues(vals, i)
  }

  function InitCand(vals: seq<int>): (r: seq<set<int>>)
    requires |vals| == 81
    ensures |r| == 81 && forall i :: 0 <= i < 81 ==> r[i] == InitCell(vals, i)
  {
    seq(81, i requires 0 <= i < 81 => InitCell(vals, i))
  }

  /** No empty cell lists as a candidate the value of a filled peer. */
  ghost predicate Consistent(vals: seq<int>, cand: seq<set<int>>)
    requires IsBoard(vals, cand)
  {
    forall p, q :: 0 <= p < 81 && 0 <= q < 81 && Peer(p, q) && vals[p] == 0 && vals[q] != 0 ==> vals[q] !in cand[p]
  }

  /** Candidates are digits. */
  predicate Candidates(cand: seq<set<int>>)
  {
    forall i :: 0 <= i < |cand| ==> cand[i] <= Digits
  }

  /** `init` establishes the invariant. */
  lemma InitConsistent(vals: seq<int>)
    requires |vals| == 81
    ensures Consistent(vals, InitCand(vals)) && Candidates(InitCand(vals))
  {
    var cand := InitCand(vals);
    forall p, q | 0 <= p < 81 && 0 <= q < 81 && Peer(p, q) && vals[p] == 0 && vals[q] != 0
      ensures vals[q] !in cand[p]
    {
      assert vals[q] in PeerValues(vals, p);
    }
  }

  /** `init` loses no digit that no peer holds: such a digit is a candidate of an empty cell. */
  lemma InitComplete(vals: seq<int>, p: int, d: int)
    requires |vals| == 81 && InBoard(p) && vals[p] == 0 && d in Digits
    requires forall q :: 0 <= q < 81 && Peer(p, q) ==> vals[q] != d
    ensures d in InitCand(vals)[p]
  {
  }

  /** The candidates after `SetValue(v)` on cell pos. */
  function AfterSet(cand: seq<set<int>>, pos: int, v: int): (r: seq<set<int>>)
    requires |cand| == 81
    ensures |r| == 81
  {
    seq(81, i requires 0 <= i < 81 =>
      if i == pos then {} else if Peer(pos, i) && cand[i] != {} then cand[i] - {v} else cand[i])
  }

  /** The candidates while `SetValue` walks the peers: v struck from the nonempty sets of the cells done so far. */
  ghost function Struck(cand: seq<set<int>>, pos: int, v: int, done: seq<int>): (r: seq<set<int>>)
    requires |cand| == 81
    ensures |r| == 81
  {
    seq(81, j requires 0 <= j < 81 =>
      if j == pos then {} else if j in done && cand[j] != {} then cand[j] - {v} else cand[j])
  }

  lemma StruckNone(cand: seq<set<int>>, pos: int, v: int)
    requires |cand| == 81 && InBoard(pos)
    ensures Struck(cand, pos, v, []) == cand[pos := {}]
  {
  }

  lemma StruckStep(cand: seq<set<int>>, pos: int, v: int, done: seq<int>, i: int)
    requires |cand| == 81 && InBoard(i) && i != pos && i !in done
    ensures Struck(cand, pos, v, done)[i] == cand[i]
    ensures Struck(cand, pos, v, done + [i]) ==
      Struck(cand, pos, v, done)[i := if cand[i] != {} then cand[i] - {v} else cand[i]]
  {
  }

  lemma StruckPeers(cand: seq<set<int>>, pos: int, v: int, peers: seq<int>)
    requires |cand| == 81
    requires forall x :: x in peers <==> InBoard(x) && Peer(pos, x)
    ensures Struck(cand, pos, v, peers) == AfterSet(cand, pos, v)
  {
  }

  /** `SetValue` keeps the invariant and only ever shrinks candidate sets. */
  lemma SetKeepsConsistent(vals: seq<int>, cand: seq<set<int>>, pos: int, v: int)
    requires IsBoard(vals, cand) && InBoard(pos) && Consistent(vals, cand) && Candidates(cand)
    ensures Consistent(vals[pos := v], AfterSet(cand, pos, v))
    ensures Candidates(AfterSet(cand, pos, v))
    ensures forall i :: 0 <= i < 81 ==> AfterSet(cand, pos, v)[i] <= cand[i]
  {
    var vals', cand' := vals[pos := v], AfterSet(cand, pos, v);
    forall p, q | 0 <= p < 81 && 0 <= q < 81 && Peer(p, q) && vals'[p] == 0 && vals'[q] != 0
      ensures vals'[q] !in cand'[p]
    {
      if q == pos {
        PeerSymmetric(p, q);
      }
    }
  }

  /** The number of empty cells. */
  function Empty(vals: seq<int>): nat
  {
    if |vals| == 0 then 0 else (if vals[|vals| - 1] == 0 then 1 else 0) + Empty(vals[..|vals| - 1])
  }

  lemma {:induction false} FillOne(vals: seq<int>, i: nat, v: int)
    requires i < |vals| && vals[i] == 0 && v != 0
    ensures Empty(vals[i := v]) == Empty(vals) - 1
    decreases |vals|
  {
    var n := |vals| - 1;
    if i < n {
      assert vals[i := v][..n] == vals[..n][i := v];
      FillOne(vals[..n], i, v);
    } else {
      assert vals[i := v][..n] == vals[..n];
    }
  }

  // ---------------------------------------------------------------------------
  // The two deduction rules of Process

  const Dirs: seq<string> := ["row", "column", "grid"]

  /** The other cells of unit d (row, column, box) of cell i. */
  function Unit(i: int, d: nat): (r: seq<int>)
    requires InBoard(i) && d < 3
    ensures |r| == 8 && forall x :: x in r <==> InBoard(x) && x != i && InUnit(Dirs[d], x, i)
  {
    RelatedUnit(i, Dirs[d]);
    Related(i, Dirs[d]).value
  }

  /** `a` less the candidates of the empty cells among xs. */
  function Left(vals: seq<int>, cand: seq<set<int>>, a: set<int>, xs: seq<int>): (r: set<int>)
    requires IsBoard(vals, cand) && forall x :: x in xs ==> InBoard(x)
    ensures r <= a
  {
    if |xs| == 0 then a
    else
      var rest := Left(vals, cand, a, xs[..|xs| - 1]);
      var x := xs[|xs| - 1];
      assert x in xs && InBoard(x);
      if vals[x] == 0 then rest - cand[x] else rest
  }

  /** A digit is left over exactly when no empty cell among xs lists it. */
  lemma {:induction false} LeftMembers(vals: seq<int>, cand: seq<set<int>>, a: set<int>, xs: seq<int>, w: int)
    requires IsBoard(vals, cand) && forall x :: x in xs ==> InBoard(x)
    ensures w in Left(vals, cand, a, xs) <==>
      w in a && forall k :: 0 <= k < |xs| && xs[k] in xs && vals[xs[k]] == 0 ==> w !in cand[xs[k]]
  {
    if |xs| > 0 {
      var n := |xs| - 1;
      LeftMembers(vals, cand, a, xs[..n], w);
      assert forall k :: 0 <= k < n ==> xs[..n][k] == xs[k];
    }
  }

  lemma Singleton(s: set<int>, x: int)
    requires |s| == 1 && x in s
    ensures s == {x}
  {
    assert |s - {x}| == 0;
  }

  /** The smallest digit from d up to 9 in s, or 10. */
  function FirstIn(s: set<int>, d: int): (r: int)
    requires 1 <= d <= 10
    ensures d <= r <= 10 && (r < 10 ==> r in s) && forall e :: d <= e < r ==> e !in s
    decreases 10 - d
  {
    if d == 10 then 10 else if d in s then d else FirstIn(s, d + 1)
  }

  /** `list(s)[0]` for a single digit. */
  function Only(s: set<int>): (x: int)
    requires |s| == 1 && s <= Digits
    ensures s == {x}
  {
    var x := FirstIn(s, 1);
    if x == 10 then
      assert false; 0
    else
      Singleton(s, x);
      x
  }

  /** The unit rule tried on units d, d+1, ..: the first unit that leaves a single digit. */
  ghost function UnitRule(vals: seq<int>, cand: seq<set<int>>, i: int, d: nat): Option<int>
    requires IsBoard(vals, cand) && InBoard(i) && Candidates(cand)
    decreases 3 - d
  {
    if d >= 3 then None
    else
      var a := Left(vals, cand, cand[i], Unit(i, d));
      if |a| == 1 then Some(Only(a)) else UnitRule(vals, cand, i, d + 1)
  }

  /** The digit `Process` puts in cell i, if any: its only candidate, else the unit rule. */
  ghost function Deduction(vals: seq<int>, cand: seq<set<int>>, i: int): Option<int>
    requires IsBoard(vals, cand) && InBoard(i) && Candidates(cand)
  {
    if vals[i] != 0 then None
    else if |cand[i]| == 1 then Some(Only(cand[i]))
    else UnitRule(vals, cand, i, 0)
  }

  lemma {:induction false} UnitRuleFrom(vals: seq<int>, cand: seq<set<int>>, i: int, d: nat, v: int)
    requires IsBoard(vals, cand) && InBoard(i) && Candidates(cand) && UnitRule(vals, cand, i, d) == Some(v)
    ensures exists e :: d <= e < 3 && Left(vals, cand, cand[i], Unit(i, e)) == {v}
    decreases 3 - d
  {
    var a := Left(vals, cand, cand[i], Unit(i, d));
    if |a| != 1 {
      UnitRuleFrom(vals, cand, i, d + 1, v);
    }
  }

  /**
   * A deduced digit is either the cell's only candidate, or the only
   * candidate of the cell that no empty cell of one of its units lists.
   */
  lemma DeductionRules(vals: seq<int>, cand: seq<set<int>>, i: int, v: int)
    requires IsBoard(vals, cand) && InBoard(i) && Candidates(cand) && Deduction(vals, cand, i) == Some(v)
    ensures vals[i] == 0 && v in cand[i]
    ensures cand[i] == {v} || exists d :: 0 <= d < 3 && Left(vals, cand, cand[i], Unit(i, d)) == {v}
  {
    if |cand[i]| != 1 {
      UnitRuleFrom(vals, cand, i, 0, v);
    }
  }

  /** On a consistent board a deduced digit clashes with no filled peer. */
  lemma DeductionSafe(vals: seq<int>, cand: seq<set<int>>, i: int, v: int)
    requires IsBoard(vals, cand) && InBoard(i) && Consistent(vals, cand) && Candidates(cand)
    requires Deduction(vals, cand, i) == Some(v)
    ensures forall q :: 0 <= q < 81 && Peer(i, q) ==> vals[q] != v
  {
    DeductionRules(vals, cand, i, v);
    CandidateSafe(vals, cand, i, v);
  }

  lemma CandidateSafe(vals: seq<int>, cand: seq<set<int>>, i: int, v: int)
    requires IsBoard(vals, cand) && InBoard(i) && Consistent(vals, cand) && Candidates(cand)
    requires vals[i] == 0 && v in cand[i]
    ensures forall q :: 0 <= q < 81 && Peer(i, q) ==> vals[q] != v
  {
    assert v in Digits;
  }

  /** No rule applies to any cell. */
  ghost predicate Stuck(vals: seq<int>, cand: seq<set<int>>)
    requires IsBoard(vals, cand) && Candidates(cand)
  {
    forall i :: 0 <= i < 81 ==> Deduction(vals, cand, i).None?
  }

  /** No rule applies to any of the cells 0..i-1. */
  ghost predicate StuckBelow(vals: seq<int>, cand: seq<set<int>>, i: nat)
    requires IsBoard(vals, cand) && Candidates(cand) && i <= 81
  {
    i == 0 || (StuckBelow(vals, cand, i - 1) && Deduction(vals, cand, i - 1).None?)
  }

  lemma {:induction false} StuckBelowAt(vals: seq<int>, cand: seq<set<int>>, i: nat, p: nat)
    requires IsBoard(vals, cand) && Candidates(cand) && i <= 81
    requires StuckBelow(vals, cand, i) && p < i
    ensures Deduction(vals, cand, p).None?
    decreases i
  {
    if p < i - 1 {
      StuckBelowAt(vals, cand, i - 1, p);
    }
  }

  /** A board on which no rule applies to any of its 81 cells is stuck. */
  lemma StuckOfBelow(vals: seq<int>, cand: seq<set<int>>)
    requires IsBoard(vals, cand) && Candidates(cand) && StuckBelow(vals, cand, 81)
    ensures Stuck(vals, cand)
  {
    forall p | 0 <= p < 81
      ensures Deduction(vals, cand, p).None?
    {
      StuckBelowAt(vals, cand, 81, p);
    }
  }

  /**
   * From the first board to the second only empty cells were filled, each
   * with one of its candidates, and candidate sets only shrank.
   */
  ghost predicate Advanced(vals0: seq<int>, cand0: seq<set<int>>, vals: seq<int>, cand: seq<set<int>>)
    requires IsBoard(vals0, cand0) && IsBoard(vals, cand)
  {
    (forall p :: 0 <= p < 81 && vals0[p] != 0 ==> vals[p] == vals0[p]) &&
    (forall p :: 0 <= p < 81 && vals0[p] == 0 && vals[p] != 0 ==> vals[p] in cand0[p]) &&
    (forall p :: 0 <= p < 81 ==> cand[p] <= cand0[p])
  }

  lemma AdvancedTrans(v0: seq<int>, c0: seq<set<int>>, v1: seq<int>, c1: seq<set<int>>, v2: seq<int>, c2: seq<set<int>>)
    requires IsBoard(v0, c0) && IsBoard(v1, c1) && IsBoard(v2, c2)
    requires Advanced(v0, c0, v1, c1) && Advanced(v1, c1, v2, c2)
    ensures Advanced(v0, c0, v2, c2)
  {
    forall p | 0 <= p < 81 && v0[p] == 0 && v2[p] != 0
      ensures v2[p] in c0[p]
    {
      if v1[p] == 0 {
        assert v2[p] in c1[p];
      }
    }
  }

  /** Filling an empty cell with a deduced digit is a step forward that keeps the invariant and fills one cell. */
  lemma DeducedStep(vals: seq<int>, cand: seq<set<int>>, i: int, v: int)
    requires IsBoard(vals, cand) && InBoard(i) && Consistent(vals, cand) && Candidates(cand)
    requires Deduction(vals, cand, i) == Some(v)
    ensures Consistent(vals[i := v], AfterSet(cand, i, v)) && Candidates(AfterSet(cand, i, v))
    ensures Advanced(vals, cand, vals[i := v], AfterSet(cand, i, v))
    ensures Empty(vals[i := v]) == Empty(vals) - 1
  {
    DeductionRules(vals, cand, i, v);
    SetKeepsConsistent(vals, cand, i, v);
    CandidateDigit(cand, i, v);
    FillOne(vals, i, v);
  }

  lemma CandidateDigit(cand: seq<set<int>>, i: int, v: int)
    requires Candidates(cand) && 0 <= i < |cand| && v in cand[i]
    ensures 1 <= v <= 9
  {
    assert v in Digits;
  }

  /** What a pass knows after visiting the cells below i of the board it started from. */
  ghost predicate PassInv(vals: seq<int>, cand: seq<set<int>>, v: seq<int>, c: seq<set<int>>, i: int,
    complete: bool, progress: bool)
    requires IsBoard(vals, cand) && IsBoard(v, c) && Candidates(cand) && 0 <= i <= 81
  {
    (complete <==> forall p :: 0 <= p < i ==> vals[p] != 0) &&
    (forall p :: i <= p < 81 ==> v[p] == vals[p]) &&
    Advanced(vals, cand, v, c) &&
    (progress ==> Empty(v) < Empty(vals)) &&
    (!progress ==> v == vals && c == cand && StuckBelow(vals, cand, i))
  }

  /** Visiting cell i, as `Visit` states it, extends what the pass knows to the cells below i + 1. */
  lemma PassStep(vals: seq<int>, cand: seq<set<int>>, vb: seq<int>, cb: seq<set<int>>, va: seq<int>, ca: seq<set<int>>,
    i: int, complete: bool, progress: bool, empty: bool, filled: bool)
    requires IsBoard(vals, cand) && IsBoard(vb, cb) && IsBoard(va, ca) && Candidates(cand) && 0 <= i < 81
    requires PassInv(vals, cand, vb, cb, i, complete, progress)
    requires empty <==> vb[i] == 0
    requires filled ==> empty
    requires forall p :: 0 <= p < 81 && p != i ==> va[p] == vb[p]
    requires Advanced(vb, cb, va, ca)
    requires filled ==> Empty(va) == Empty(vb) - 1
    requires !filled ==> va == vb && ca == cb && Deduction(vb, cb, i).None?
    ensures PassInv(vals, cand, va, ca, i + 1, complete && !empty, progress || filled)
  {
    if filled {
      AdvancedTrans(vals, cand, vb, cb, va, ca);
    }
  }

  // ---------------------------------------------------------------------------
  // The board

  class SuDoku {
    const value: array<int>
    const avail: array<set<int>>

    ghost predicate Valid()
    {
      value.Length == 81 && avail.Length == 81
    }

    /** A board that keeps the invariant. */
    ghost predicate Sound()
      reads value, avail
      requires Valid()
    {
      Consistent(value[..], avail[..]) && Candidates(avail[..])
    }

    /** `SuDoku.__init__` on the digits already read: store them and run `init`. */
    constructor(cells: seq<int>)
      requires |cells| == 81
      ensures Valid() && fresh(value) && fresh(avail)
      ensures value[..] == cells && avail[..] == InitCand(cells)
      ensures Sound()
    {
      value := new int[81](i requires 0 <= i < 81 => cells[i]);
      avail := new set<int>[81](_ => {});
      new;
      assert value[..] == cells;
      Init();
      InitConsistent(cells);
    }

    /** `init`: filled cells get no candidates, empty ones the digits no peer holds. */
    method Init()
      requires Valid()
      modifies avail
      ensures avail[..] == InitCand(value[..])
    {
      for i := 0 to 81
        invariant forall j :: 0 <= j < i ==> avail[j] == InitCell(value[..], j)
      {
        if value[i] != 0 {
          avail[i] := {};
        } else {
          avail[i] := Digits - PeerValues(value[..], i);
        }
      }
    }

    /** `Item(pos).SetValue(v)`: fill the cell and strike v from its peers' candidates. */
    method SetValue(pos: int, v: int)
      requires Valid() && InBoard(pos)
      modifies value, avail
      ensures value[..] == old(value[..])[pos := v]
      ensures avail[..] == AfterSet(old(avail[..]), pos, v)
    {
      ghost var cand := avail[..];
      value[pos] := v;
      avail[pos] := {};
      assert value[..] == old(value[..])[pos := v];
      var peers := Peers(pos);
      StruckNone(cand, pos, v);
      var k := 0;
      while k < |peers|
        invariant 0 <= k <= |peers|
        invariant value[..] == old(value[..])[pos := v]
        invariant avail[..] == Struck(cand, pos, v, peers[..k])
      {
        var i := peers[k];
        assert i in peers && i !in peers[..k];
        StruckStep(cand, pos, v, peers[..k], i);
        if avail[i] != {} {
          avail[i] := avail[i] - {v};
        }
        assert peers[..k + 1] == peers[..k] + [i];
        k := k + 1;
      }
      assert peers[..k] == peers;
      StruckPeers(cand, pos, v, peers);
    }
  
    /**
     * One cell of the `Process` loop: its only candidate if it has one,
     * otherwise the first of row, column and box whose empty cells leave it
     * a single candidate.
     */
    method Deduce(i: int) returns (filled: bool)
      requires Valid() && InBoard(i) && value[i] == 0 && Candidates(avail[..])
      modifies value, avail
      ensures var d := Deduction(old(value[..]), old(avail[..]), i);
        (filled <==> d.Some?) &&
        (filled ==> value[..] == old(value[..])[i := d.value] && avail[..] == AfterSet(old(avail[..]), i, d.value)) &&
        (!filled ==> value[..] == old(value[..]) && avail[..] == old(avail[..]))
    {
      ghost var vals, cand := value[..], avail[..];
      if |avail[i]| == 1 {
        var v := Only(avail[i]);
        assert Deduction(vals, cand, i) == Some(v);
        SetValue(i, v);
        return true;
      }
      assert Deduction(vals, cand, i) == UnitRule(vals, cand, i, 0);
      var d := 0;
      while d < 3
        invariant 0 <= d <= 3
        invariant value[..] == vals && avail[..] == cand
        invariant UnitRule(vals, cand, i, 0) == UnitRule(vals, cand, i, d)
      {
        var a := Remaining(i, d);
        if |a| == 1 {
          var v := Only(a);
          assert UnitRule(vals, cand, i, d) == Some(v);
          SetValue(i, v);
          return true;
        }
        assert UnitRule(vals, cand, i, d) == UnitRule(vals, cand, i, d + 1);
        d := d + 1;
      }
      return false;
    }

    /** The candidates of cell i that no empty cell of its unit d lists. */
    method Remaining(i: int, d: nat) returns (a: set<int>)
      requires Valid() && InBoard(i) && d < 3
      ensures a == Left(value[..], avail[..], avail[i], Unit(i, d))
    {
      var unit := Unit(i, d);
      a := avail[i];
      var k := 0;
      while k < |unit|
        invariant 0 <= k <= |unit|
        invariant a == Left(value[..], avail[..], avail[i], unit[..k])
      {
        var x := unit[k];
        assert x in unit && unit[..k + 1][..k] == unit[..k];
        if value[x] == 0 {
          a := a - avail[x];
        }
        k := k + 1;
      }
      assert unit[..k] == unit;
    }

    /** One turn of the `Process` loop: an empty cell gets its deduced digit, when there is one. */
    method Visit(i: int) returns (empty: bool, filled: bool)
      requires Valid() && Sound() && InBoard(i)
      modifies value, avail
      ensures Sound()
      ensures empty <==> old(value[i]) == 0
      ensures filled ==> empty
      ensures forall p :: 0 <= p < 81 && p != i ==> value[p] == old(value[p])
      ensures Advanced(old(value[..]), old(avail[..]), value[..], avail[..])
      ensures filled ==> Empty(value[..]) == Empty(old(value[..])) - 1
      ensures !filled ==> (value[..] == old(value[..]) && avail[..] == old(avail[..]) &&
        Deduction(old(value[..]), old(avail[..]), i).None?)
    {
      empty, filled := value[i] == 0, false;
      if empty {
        ghost var vb, cb := value[..], avail[..];
        filled := Deduce(i);
        if filled {
          DeducedStep(vb, cb, i, Deduction(vb, cb, i).value);
        }
      }
    }

    /** One pass of `Process` over the 81 cells. */
    method Pass() returns (complete: bool, progress: bool)
      requires Valid() && Sound()
      modifies value, avail
      ensures Sound()
      ensures complete <==> forall p :: 0 <= p < 81 ==> old(value[p]) != 0
      ensures Advanced(old(value[..]), old(avail[..]), value[..], avail[..])
      ensures progress ==> Empty(value[..]) < Empty(old(value[..]))
      ensures !progress ==> value[..] == old(value[..]) && avail[..] == old(avail[..]) && Stuck(value[..], avail[..])
    {
      complete, progress := true, false;
      ghost var vals, cand := value[..], avail[..];
      assert value[..] == vals && avail[..] == cand;
      for i := 0 to 81
        invariant Sound()
        invariant PassInv(vals, cand, value[..], avail[..], i, complete, progress)
      {
        ghost var vb, cb := value[..], avail[..];
        var empty, filled := Visit(i);
        PassStep(vals, cand, vb, cb, value[..], avail[..], i, complete, progress, empty, filled);
        if empty {
          complete := false;
        }
        if filled {
          progress := true;
        }
      }
      if !progress {
        StuckOfBelow(vals, cand);
      }
    }

    /**
     * `Process` up to the guess: passes until one fills nothing. The board
     * then keeps the invariant and no rule applies to any cell.
     */
    method Process()
      requires Valid() && Sound()
      modifies value, avail
      ensures Sound() && Stuck(value[..], avail[..])
      ensures Advanced(old(value[..]), old(avail[..]), value[..], avail[..])
      decreases Empty(value[..])
    {
      ghost var vals, cand := value[..], avail[..];
      var complete, progress := Pass();
      if progress {
        ghost var vb, cb := value[..], avail[..];
        Process();
        AdvancedTrans(vals, cand, vb, cb, value[..], avail[..]);
      }
    }
  }

  /** `SuDoku(values)`: read the digits, then `init` needs 81 of them. */
  method Create(text: string) returns (r: Result<SuDoku, Error>)
    ensures r.Err? <==> Cells(text).Err? || |Cells(text).value| < 81
    ensures r.Err? && Cells(text).Ok? ==> r.error == IndexError
    ensures r.Ok? ==> (fresh(r.value.value) && fresh(r.value.avail) && r.value.Valid() &&
      r.value.value[..] == Cells(text).value[..81] && r.value.avail[..] == InitCand(r.value.value[..]) &&
      r.value.Sound())
  {
    var cells :- ReadCells(text);
    if |cells| < 81 {
      return Err(IndexError);
    }
    var board := new SuDoku(cells[..81]);
    return Ok(board);
  }
}
