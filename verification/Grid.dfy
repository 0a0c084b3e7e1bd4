/**
 Laying QR codes out on a sheet, in exact reals: the search for a grid, the places of its
 cells and the pages.
 */
module Grid {
  import opened Prelude
  import opened Residues

  datatype LayoutError = BadPerPage | BadQr | UnknownPaper | NoHeight | DoesNotFit

  datatype GridPlan = GridPlan(
    columns: int, rows: int, perPage: int, pageWidth: real, pageHeight: real, margin: real, cellWidth: real, cellHeight: real, qr: real)

  /** `PAPER_SIZES_MM`. */
  function PaperSize(paper: string): Option<(real, real)> {
    if paper == "A4" then Some((210.0, 297.0)) else if paper == "A3" then Some((297.0, 420.0)) else None
  }

  function CeilDiv(a: int, b: int): int
    requires b > 0
  {
    (a + b - 1) / b
  }

  /** `n` is the least number of rows of `b` that hold `a`. */
  lemma CeilDivIsLeast(a: int, b: int)
    requires a >= 1 && b >= 1
    ensures var n := CeilDiv(a, b); n >= 1 && b * n >= a && b * (n - 1) < a
  {
    var n, r := CeilDiv(a, b), (a + b - 1) % b;
    assert a + b - 1 == b * n + r;
    assert b * (n - 1) == b * n - b;
    assert n <= 0 ==> b * n <= 0;
  }

  // ------------------------------------------------------------------ the grids

  /** The space there is and the least size of a cell. */
  datatype Sheet = Sheet(perPage: int, width: real, height: real, minWidth: real, minHeight: real)

  /** A grid with enough cells, each big enough. */
  ghost predicate Feasible(s: Sheet, columns: int, rows: int) {
    && columns >= 1 && rows >= 1 && columns * rows >= s.perPage
    && s.width / columns as real >= s.minWidth && s.height / rows as real >= s.minHeight
  }

  function Waste(s: Sheet, columns: int, rows: int): int { columns * rows - s.perPage }

  function Gap(s: Sheet, columns: int, rows: int): real
    requires rows >= 1 && s.height != 0.0
  {
    var d := columns as real / rows as real - s.width / s.height;
    if d < 0.0 then -d else d
  }

  /** The first grid has a smaller key: fewer cells wasted, and then closer to the shape of the page. */
  predicate Better(s: Sheet, c: int, r: int, d: int, q: int)
    requires r >= 1 && q >= 1 && s.height != 0.0
  {
    || Waste(s, c, r) < Waste(s, d, q)
    || (Waste(s, c, r) == Waste(s, d, q) && Gap(s, c, r) < Gap(s, d, q))
  }

  /** The one row count that is tried for a column count. */
  function RowsFor(s: Sheet, columns: int): (rows: int)
    requires s.perPage >= 1 && columns >= 1
    ensures rows >= 1 && columns * rows >= s.perPage
  {
    CeilDivIsLeast(s.perPage, columns);
    CeilDiv(s.perPage, columns)
  }

  /** `c` is the best of the column counts up to `upTo`, the least one on a tie. */
  ghost predicate BestOf(s: Sheet, c: int, upTo: int)
    requires s.perPage >= 1 && s.height != 0.0
  {
    && 1 <= c <= upTo && Feasible(s, c, RowsFor(s, c))
    && forall d | 1 <= d <= upTo && Feasible(s, d, RowsFor(s, d)) ::
         if d < c then Better(s, c, RowsFor(s, c), d, RowsFor(s, d)) else !Better(s, d, RowsFor(s, d), c, RowsFor(s, c))
  }

  ghost predicate NoneUpTo(s: Sheet, upTo: int)
    requires s.perPage >= 1
  {
    forall d | 1 <= d <= upTo :: !Feasible(s, d, RowsFor(s, d))
  }

  /** The loop of `plan_grid`: the best column count, or 0. */
  method Search(s: Sheet) returns (best: int)
    requires s.perPage >= 1 && s.height != 0.0
    ensures best == 0 ==> NoneUpTo(s, s.perPage)
    ensures best != 0 ==> BestOf(s, best, s.perPage)
  {
    best := 0;
    var bestWaste, bestGap := 0, 0.0;
    for columns := 1 to s.perPage + 1
      invariant best == 0 ==> NoneUpTo(s, columns - 1)
      invariant best != 0 ==> BestOf(s, best, columns - 1)
      invariant best != 0 ==> bestWaste == Waste(s, best, RowsFor(s, best)) && bestGap == Gap(s, best, RowsFor(s, best))
    {
      var rows := RowsFor(s, columns);
      var fits := s.width / columns as real >= s.minWidth && s.height / rows as real >= s.minHeight;
      if fits {
        var waste, gap := Waste(s, columns, rows), Gap(s, columns, rows);
        if best == 0 || waste < bestWaste || (waste == bestWaste && gap < bestGap) {
          if best != 0 { BetterThanAll(s, columns, best); }
          best, bestWaste, bestGap := columns, waste, gap;
        }
      }
    }
  }

  /** What beats the best so far beats everything before it. */
  lemma BetterThanAll(s: Sheet, c: int, best: int)
    requires s.perPage >= 1 && s.height != 0.0 && c >= 2 && BestOf(s, best, c - 1)
    requires Better(s, c, RowsFor(s, c), best, RowsFor(s, best))
    ensures forall d | 1 <= d < c && Feasible(s, d, RowsFor(s, d)) :: Better(s, c, RowsFor(s, c), d, RowsFor(s, d))
  {
  }

  method PlanGrid(paper: string, perPage: int, qr: real, margin: real, gutter: real, codeLine: real)
    returns (r: Result<GridPlan, LayoutError>)
    ensures perPage < 1 ==> r == Err(BadPerPage)
    ensures perPage >= 1 && qr <= 0.0 ==> r == Err(BadQr)
    ensures perPage >= 1 && qr > 0.0 && PaperSize(paper).None? ==> r == Err(UnknownPaper)
    ensures perPage >= 1 && qr > 0.0 && PaperSize(paper).Some? ==>
              var s := SheetOf(PaperSize(paper).value, perPage, qr, margin, gutter, codeLine);
              match r
              case Err(e) => e == (if s.height == 0.0 then NoHeight else DoesNotFit) && (s.height != 0.0 ==> NoneUpTo(s, perPage))
              case Ok(plan) =>
                && s.height != 0.0 && BestOf(s, plan.columns, perPage) && plan.rows == RowsFor(s, plan.columns)
                && plan == GridPlan(plan.columns, plan.rows, perPage, PaperSize(paper).value.0, PaperSize(paper).value.1, margin,
                                    s.width / plan.columns as real, s.height / plan.rows as real, qr)
                && (Proper(s) ==> FillsPage(plan))
  {
    if perPage < 1 { return Err(BadPerPage); }
    if qr <= 0.0 { return Err(BadQr); }
    var size := PaperSize(paper);
    if size.None? { return Err(UnknownPaper); }
    var s := SheetOf(size.value, perPage, qr, margin, gutter, codeLine);
    // The page's own aspect ratio divides by the printable height.
    if s.height == 0.0 { return Err(NoHeight); }
    var columns := Search(s);
    if columns == 0 { return Err(DoesNotFit); }
    var rows := RowsFor(s, columns);
    r := Ok(GridPlan(columns, rows, perPage, size.value.0, size.value.1, margin, s.width / columns as real, s.height / rows as real, qr));
    if Proper(s) { PlansFillThePage(s, columns, rows, r.value); }
  }

  function SheetOf(size: (real, real), perPage: int, qr: real, margin: real, gutter: real, codeLine: real): Sheet {
    Sheet(perPage, size.0 - 2.0 * margin, size.1 - 2.0 * margin, qr + gutter, qr + codeLine + gutter)
  }

  // -------------------------------------------------------------- optimality

  lemma DivisionMonotone(a: real, m: int, n: int)
    requires 1 <= m <= n
    ensures a >= 0.0 ==> a / m as real >= a / n as real >= 0.0
    ensures a <= 0.0 ==> a / m as real <= a / n as real <= 0.0
    ensures a < 0.0 ==> a / n as real < 0.0
  {
    var x, y := a / m as real, a / n as real;
    assert x * m as real == a && y * n as real == a;
    if y < 0.0 {
      assert y * n as real <= y * m as real;
    } else {
      assert y * n as real >= y * m as real;
    }
  }

  /** More columns never take more rows. */
  lemma RowsForMonotone(s: Sheet, c: int, d: int)
    requires s.perPage >= 1 && 1 <= c <= d
    ensures RowsFor(s, c) >= RowsFor(s, d)
  {
    CeilDivIsLeast(s.perPage, d);
    var r := RowsFor(s, c);
    assert d * r >= c * r by { assert (d - c) * r >= 0; }
    FewerRows(d, r, RowsFor(s, d), s.perPage);
  }

  /** The least row count that is enough wastes less than any other, and never a whole row. */
  lemma FewerRows(c: int, r: int, least: int, enough: int)
    requires c >= 1 && c * r >= enough && c * (least - 1) < enough
    ensures r >= least && c * least - enough < c && (r > least ==> c * r >= c * least + c)
  {
    assert c * (r - least + 1) == c * r - c * (least - 1);
    Multiples(c, r - least + 1);
    assert c * (r - least) == c * r - c * least;
    Multiples(c, r - least);
  }

  /** Against a grid whose column count was tried but whose row count was not. */
  lemma TriedColumns(s: Sheet, best: int, c: int, r: int)
    requires s.perPage >= 1 && s.height != 0.0 && BestOf(s, best, s.perPage) && Feasible(s, c, r) && c <= s.perPage
    ensures !Better(s, c, r, best, RowsFor(s, best))
  {
    var rows := RowsFor(s, c);
    CeilDivIsLeast(s.perPage, c);
    FewerRows(c, r, rows, s.perPage);
    if !Feasible(s, c, rows) {
      CeilDivIsLeast(s.perPage, best);
      FewerRows(best, RowsFor(s, best), RowsFor(s, best), s.perPage);
      DivisionMonotone(s.height, rows, r);
      if best > c {
        RowsForMonotone(s, c, best);
        DivisionMonotone(s.height, RowsFor(s, best), rows);
      }
    }
  }

  /** Against a grid with more columns than cells are asked for. */
  lemma UntriedColumns(s: Sheet, best: int, c: int, r: int)
    requires s.perPage >= 1 && s.height != 0.0 && BestOf(s, best, s.perPage) && Feasible(s, c, r) && c > s.perPage
    ensures !Better(s, c, r, best, RowsFor(s, best))
  {
    CeilDivIsLeast(s.perPage, s.perPage);
    FewerRows(s.perPage, 1, RowsFor(s, s.perPage), s.perPage);
    Multiples(c, r);
    Multiples(c, r - 1);
    assert c * r == c * (r - 1) + c;
    DivisionMonotone(s.height, 1, r);
    DivisionMonotone(s.width, best, s.perPage);
    DivisionMonotone(s.width, s.perPage, c);
    CeilDivIsLeast(s.perPage, best);
    FewerRows(best, RowsFor(s, best), RowsFor(s, best), s.perPage);
  }

  /** Although only one row count is tried for each column count, no feasible grid at all has a smaller key. */
  lemma SearchIsOptimal(s: Sheet, best: int, c: int, r: int)
    requires s.perPage >= 1 && s.height != 0.0 && BestOf(s, best, s.perPage) && Feasible(s, c, r)
    ensures !Better(s, c, r, best, RowsFor(s, best))
  {
    if c <= s.perPage { TriedColumns(s, best, c, r); } else { UntriedColumns(s, best, c, r); }
  }

  // ------------------------------------------------------- giving up too early

  /** On neither axis are both the space and the least size of a cell negative. */
  predicate Proper(s: Sheet) { (s.width >= 0.0 || s.minWidth >= 0.0) && (s.height >= 0.0 || s.minHeight >= 0.0) }

  /** The least number of parts that brings a negative length down to parts no smaller than asked. */
  function LeastParts(length: real, least: real): (n: int)
    requires length < 0.0 && least < 0.0
    ensures n >= 1
  {
    assert (length / least) * least == length;
    -((-(length / least)).Floor)
  }

  lemma EnoughParts(length: real, least: real, d: int)
    requires length < 0.0 && least < 0.0 && d >= 1
    ensures length / d as real >= least <==> d >= LeastParts(length, least)
  {
    var ratio, x, n := length / least, length / d as real, d as real;
    assert ratio * least == length == x * n;
    assert n >= ratio ==> n * least <= ratio * least;
    assert x >= least ==> x * n >= least * n;
    assert x < least ==> x * n < least * n;
    assert n < ratio ==> n * least > ratio * least;
  }

  /** Margins so wide that the space is negative, and a gutter so negative that cells may be too, keep the search from a grid. */
  predicate MissesAGrid(s: Sheet)
    requires s.perPage >= 1
  {
    var n := s.perPage as real;
    if Proper(s) then false
    else if s.height >= 0.0 || s.minHeight >= 0.0 then s.height >= s.minHeight && s.width / n < s.minWidth
    else if s.width >= 0.0 || s.minWidth >= 0.0 then s.width >= s.minWidth && s.height / n < s.minHeight
    else s.width / n < s.minWidth || s.height / RowsFor(s, LeastParts(s.width, s.minWidth)) as real < s.minHeight
  }

  /** All codes in one row, or all in one column. */
  lemma OneRowOneColumn(s: Sheet)
    requires s.perPage >= 1
    ensures RowsFor(s, s.perPage) == 1 && RowsFor(s, 1) == s.perPage
  {
    CeilDivIsLeast(s.perPage, s.perPage);
    FewerRows(s.perPage, 1, RowsFor(s, s.perPage), s.perPage);
    CeilDivIsLeast(s.perPage, 1);
  }

  /** A grid was missed: one fits, but none that was tried. */
  lemma MissedGrid(s: Sheet) returns (c: int, r: int)
    requires s.perPage >= 1 && MissesAGrid(s)
    ensures NoneUpTo(s, s.perPage) && Feasible(s, c, r)
  {
    OneRowOneColumn(s);
    c, r := 1, 1;
    if s.width < 0.0 && s.minWidth < 0.0 {
      var least := LeastParts(s.width, s.minWidth);
      c := least + s.perPage;
      EnoughParts(s.width, s.minWidth, c);
    }
    if s.height < 0.0 && s.minHeight < 0.0 {
      var least := LeastParts(s.height, s.minHeight);
      r := least + s.perPage;
      EnoughParts(s.height, s.minHeight, r);
    }
    MoreCells(c, r);
    forall d | 1 <= d <= s.perPage ensures !Feasible(s, d, RowsFor(s, d)) { MissedColumns(s, d); }
  }

  lemma MoreCells(c: int, r: int)
    requires c >= 1 && r >= 1
    ensures c * r >= c && c * r >= r
  {
    assert c * (r - 1) >= 0 && (c - 1) * r >= 0;
  }

  lemma MissedColumns(s: Sheet, d: int)
    requires s.perPage >= 1 && MissesAGrid(s) && 1 <= d <= s.perPage
    ensures !Feasible(s, d, RowsFor(s, d))
  {
    OneRowOneColumn(s);
    var rows := RowsFor(s, d);
    RowsForMonotone(s, 1, d);
    DivisionMonotone(s.width, d, s.perPage);
    DivisionMonotone(s.height, rows, s.perPage);
    if s.width < 0.0 && s.minWidth < 0.0 && s.height < 0.0 && s.minHeight < 0.0 {
      var least := LeastParts(s.width, s.minWidth);
      EnoughParts(s.width, s.minWidth, d);
      if d >= least {
        RowsForMonotone(s, least, d);
        DivisionMonotone(s.height, rows, RowsFor(s, least));
      }
    }
  }

  /** No grid was missed: when one fits, one that was tried does. */
  lemma TriedGrid(s: Sheet, c: int, r: int) returns (d: int)
    requires s.perPage >= 1 && !MissesAGrid(s) && Feasible(s, c, r)
    ensures 1 <= d <= s.perPage && Feasible(s, d, RowsFor(s, d))
  {
    OneRowOneColumn(s);
    DivisionMonotone(s.width, 1, c);
    DivisionMonotone(s.height, 1, r);
    if s.width < 0.0 && s.height < 0.0 {
      d := LeastParts(s.width, s.minWidth);
      EnoughParts(s.width, s.minWidth, d);
      EnoughParts(s.width, s.minWidth, s.perPage);
    } else if s.width < 0.0 {
      d := s.perPage;
    } else if s.height < 0.0 {
      d := 1;
    } else if c <= s.perPage {
      d := c;
      CeilDivIsLeast(s.perPage, c);
      FewerRows(c, r, RowsFor(s, c), s.perPage);
      DivisionMonotone(s.height, RowsFor(s, c), r);
    } else {
      d := s.perPage;
      DivisionMonotone(s.width, d, c);
    }
  }

  /** The search gives up exactly when no grid of any size fits, unless it misses one; and when it misses one. */
  lemma GivesUpWhenNoneFits(s: Sheet)
    requires s.perPage >= 1
    ensures (NoneUpTo(s, s.perPage) <==> forall c, r :: !Feasible(s, c, r)) <==> !MissesAGrid(s)
    ensures Proper(s) ==> !MissesAGrid(s)
  {
    if MissesAGrid(s) {
      var c, r := MissedGrid(s);
    } else if c, r :| Feasible(s, c, r) {
      var d := TriedGrid(s, c, r);
    }
  }

  /** With margins wider than the page and a negative gutter, the search gives up although a grid fits. */
  lemma NegativeCellsMislead()
    ensures var s := SheetOf((210.0, 297.0), 1, 1.0, 150.0, -31.0, 5.0);
            NoneUpTo(s, s.perPage) && Feasible(s, 3, 1) && MissesAGrid(s)
  {
    var s := SheetOf((210.0, 297.0), 1, 1.0, 150.0, -31.0, 5.0);
    assert s == Sheet(1, -90.0, -3.0, -30.0, -25.0);
    assert -90.0 / 3.0 == -30.0 && -3.0 / 1.0 == -3.0;
  }

  // -------------------------------------------------------------------- cells

  /** The length of `n` cells side by side. */
  function Span(n: int, size: real): real { n as real * size }

  function CellX(p: GridPlan, column: int): real { p.margin + Span(column, p.cellWidth) }

  function CellY(p: GridPlan, row: int): real { p.pageHeight - p.margin - Span(row + 1, p.cellHeight) }

  /** `_cell_positions`: left to right, top to bottom. */
  method CellPositions(p: GridPlan) returns (cells: seq<(real, real)>)
    requires p.columns >= 1 && p.rows >= 1
    ensures |cells| == p.rows * p.columns
    ensures forall row, column | 0 <= row < p.rows && 0 <= column < p.columns ::
              CellAt(cells, p, row, column, (CellX(p, column), CellY(p, row)))
  {
    cells := [];
    for row := 0 to p.rows
      invariant |cells| == row * p.columns
      invariant forall r, c | 0 <= r < row && 0 <= c < p.columns :: CellAt(cells, p, r, c, (CellX(p, c), CellY(p, r)))
    {
      ghost var before := cells;
      for column := 0 to p.columns
        invariant |cells| == row * p.columns + column && before <= cells
        invariant forall c | 0 <= c < column :: CellAt(cells, p, row, c, (CellX(p, c), CellY(p, row)))
      {
        cells := cells + [(CellX(p, column), CellY(p, row))];
      }
      forall r, c | 0 <= r < row && 0 <= c < p.columns ensures CellAt(cells, p, r, c, (CellX(p, c), CellY(p, r))) {
        assert CellAt(before, p, r, c, (CellX(p, c), CellY(p, r)));
      }
      assert (row + 1) * p.columns == row * p.columns + p.columns;
    }
  }

  predicate CellAt(cells: seq<(real, real)>, p: GridPlan, row: int, column: int, at: (real, real)) {
    var i := row * p.columns + column;
    0 <= i < |cells| && cells[i] == at
  }

  lemma Spans(m: int, n: int, size: real)
    requires size >= 0.0
    ensures Span(m + 1, size) == Span(m, size) + size && Span(0, size) == 0.0
    ensures m <= n ==> Span(m, size) <= Span(n, size)
  {
    assert (m + 1) as real == m as real + 1.0;
  }

  /** The grid fills the printable area exactly, for a plan as the search makes it. */
  ghost predicate FillsPage(p: GridPlan) {
    && p.columns >= 1 && p.rows >= 1 && p.cellWidth >= 0.0 && p.cellHeight >= 0.0
    && Span(p.columns, p.cellWidth) == p.pageWidth - 2.0 * p.margin
    && Span(p.rows, p.cellHeight) == p.pageHeight - 2.0 * p.margin
  }

  lemma PlansFillThePage(s: Sheet, columns: int, rows: int, p: GridPlan)
    requires Feasible(s, columns, rows) && Proper(s)
    requires p.columns == columns && p.rows == rows && p.cellWidth == s.width / columns as real && p.cellHeight == s.height / rows as real
    requires s.width == p.pageWidth - 2.0 * p.margin && s.height == p.pageHeight - 2.0 * p.margin
    ensures FillsPage(p)
  {
    assert columns as real * (s.width / columns as real) == s.width;
    assert rows as real * (s.height / rows as real) == s.height;
  }

  /** Every cell lies inside the margins. */
  lemma CellsInsideMargins(p: GridPlan, row: int, column: int)
    requires FillsPage(p) && 0 <= row < p.rows && 0 <= column < p.columns
    ensures p.margin <= CellX(p, column) && CellX(p, column) + p.cellWidth <= p.pageWidth - p.margin
    ensures p.margin <= CellY(p, row) && CellY(p, row) + p.cellHeight <= p.pageHeight - p.margin
  {
    Spans(0, column, p.cellWidth);
    Spans(column, column, p.cellWidth);
    Spans(column + 1, p.columns, p.cellWidth);
    Spans(0, row, p.cellHeight);
    Spans(row, row, p.cellHeight);
    Spans(row + 1, p.rows, p.cellHeight);
  }

  /** Two cells never overlap: one ends before the other begins, across or down. */
  lemma CellsAreDisjoint(p: GridPlan, row: int, column: int, otherRow: int, otherColumn: int)
    requires FillsPage(p) && 0 <= row < p.rows && 0 <= column < p.columns
    requires 0 <= otherRow < p.rows && 0 <= otherColumn < p.columns && (row, column) != (otherRow, otherColumn)
    ensures || CellX(p, column) + p.cellWidth <= CellX(p, otherColumn)
            || CellX(p, otherColumn) + p.cellWidth <= CellX(p, column)
            || CellY(p, row) + p.cellHeight <= CellY(p, otherRow)
            || CellY(p, otherRow) + p.cellHeight <= CellY(p, row)
  {
    Spans(column, column, p.cellWidth);
    Spans(otherColumn, otherColumn, p.cellWidth);
    Spans(column + 1, otherColumn, p.cellWidth);
    Spans(otherColumn + 1, column, p.cellWidth);
    Spans(row + 1, otherRow, p.cellHeight);
    Spans(otherRow + 1, row, p.cellHeight);
    Spans(row + 2, otherRow + 1, p.cellHeight);
    Spans(otherRow + 2, row + 1, p.cellHeight);
  }

  // -------------------------------------------------------------------- pages

  /** `paginate`. */
  function Paginate<T>(rows: seq<T>, perPage: int): (pages: seq<seq<T>>)
    requires perPage >= 1
    decreases |rows|
  {
    if rows == [] then []
    else if |rows| <= perPage then [rows]
    else [rows[..perPage]] + Paginate(rows[perPage..], perPage)
  }

  function Flatten<T>(pages: seq<seq<T>>): seq<T> {
    if pages == [] then [] else pages[0] + Flatten(pages[1..])
  }

  /** `page_count`. */
  function PageCount(rows: nat, perPage: int): int
    requires perPage >= 1
  {
    if rows == 0 then 0 else CeilDiv(rows, perPage)
  }

  /** The pages hold the rows in order, none lost, all full but perhaps the last, and as many as counted. */
  lemma {:induction false} PagesHoldTheRows<T>(rows: seq<T>, perPage: int)
    requires perPage >= 1
    ensures Flatten(Paginate(rows, perPage)) == rows
    ensures |Paginate(rows, perPage)| == PageCount(|rows|, perPage)
    ensures FullPages(Paginate(rows, perPage), perPage)
    decreases |rows|
  {
    if rows != [] && |rows| <= perPage {
      assert Paginate(rows, perPage) == [rows] && [rows][1..] == [];
      Division(perPage, |rows| + perPage - 1, 1, |rows| - 1);
    } else if rows != [] {
      var rest := Paginate(rows[perPage..], perPage);
      PagesHoldTheRows(rows[perPage..], perPage);
      OneMorePage(|rows|, perPage);
      AnotherPage(rows[..perPage], rest, perPage);
      assert rows == rows[..perPage] + rows[perPage..];
    }
  }

  /** No page is empty or overfull, and all but the last are full. */
  ghost predicate FullPages<T>(pages: seq<seq<T>>, perPage: int) {
    && (forall i | 0 <= i < |pages| :: 1 <= |pages[i]| <= perPage)
    && (forall i | 0 <= i < |pages| - 1 :: |pages[i]| == perPage)
  }

  lemma AnotherPage<T>(page: seq<T>, rest: seq<seq<T>>, perPage: int)
    requires |page| == perPage >= 1 && FullPages(rest, perPage)
    ensures FullPages([page] + rest, perPage) && Flatten([page] + rest) == page + Flatten(rest)
  {
    assert ([page] + rest)[1..] == rest;
  }

  lemma OneMorePage(rows: nat, perPage: int)
    requires perPage >= 1 && rows > perPage
    ensures PageCount(rows, perPage) == PageCount(rows - perPage, perPage) + 1
  {
    var x := rows - 1;
    var q, r := x / perPage, x % perPage;
    assert x == perPage * q + r;
    assert x + perPage == perPage * (q + 1) + r;
    Division(perPage, x + perPage, q + 1, r);
  }
}
